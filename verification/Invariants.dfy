/** What holds in every state the server reaches: dense identifiers, agreement of the redundant
    indexes with the auctions, ordered bids, consistent time stamps, fields in their formats. */
module Invariants {
  import opened Text
  import opened Domain
  import opened LazyServer

  // ---------- The invariant ----------

  /** Auction identifiers are exactly 1, 2, ..., n. */
  ghost predicate Dense(s: State)
  {
    forall id: nat :: id in s.auctions <==> 1 <= id <= |s.auctions|
  }

  ghost predicate HasBidBy(bids: map<nat, Bid>, uid: string) { exists v: nat :: v in bids && bids[v].bidder == uid }

  ghost predicate Hosts(auctions: map<nat, Auction>, id: nat, uid: string)
  {
    id in auctions && auctions[id].start.owner == uid
  }

  ghost predicate BidsIn(auctions: map<nat, Auction>, id: nat, uid: string)
  {
    id in auctions && HasBidBy(auctions[id].bids, uid)
  }

  /** users/uid/hosted lists exactly the auctions whose START names uid as owner, users/uid/bidded exactly
      those that hold a bid by uid, and login.txt is only ever beside pass.txt. */
  ghost predicate UserOk(u: User, uid: string, auctions: map<nat, Auction>)
  {
    && GoodUid(uid)
    && (u.pass.Some? ==> GoodPass(u.pass.value))
    && (u.login ==> u.pass.Some?)
    && (forall id: nat :: id in u.hosted <==> Hosts(auctions, id, uid))
    && (forall id: nat :: id in u.bidded <==> BidsIn(auctions, id, uid))
  }

  /** Bids are by registered others than the host, above the start value, stamped in the order of their values. */
  ghost predicate BidsOk(a: Auction, users: set<string>, now: nat)
  {
    && (forall v: nat | v in a.bids ::
          a.bids[v].bidder != a.start.owner && a.bids[v].bidder in users && a.start.startValue < v <= 999999 &&
          a.bids[v].secs == a.bids[v].time - a.start.startTime && a.start.startTime <= a.bids[v].time <= now)
    && (forall v: nat, w: nat | v in a.bids && w in a.bids && v < w :: a.bids[v].time <= a.bids[w].time)
  }

  ghost predicate EndOk(a: Auction, now: nat)
  {
    a.end.Some? ==>
        a.end.value.secs == a.end.value.time - a.start.startTime && a.start.startTime <= a.end.value.time <= now
  }

  ghost predicate GoodStart(st: Start)
  {
    GoodUid(st.owner) && GoodName(st.name) && GoodFname(st.fname) && st.startValue <= 999999 && st.timeActive <= 99999
  }

  ghost predicate AuctionOk(a: Auction, users: set<string>, now: nat)
  {
    && a.start.owner in users && a.start.startTime <= now && BidsOk(a, users, now) && EndOk(a, now)
    && GoodStart(a.start) && (a.asset.None? <==> IsDot(a.start.fname))
  }

  ghost predicate UsersOk(users: map<string, User>, auctions: map<nat, Auction>)
  {
    forall uid | uid in users :: UserOk(users[uid], uid, auctions)
  }

  ghost predicate AuctionsOk(auctions: map<nat, Auction>, users: set<string>, now: nat)
  {
    forall id | id in auctions :: AuctionOk(auctions[id], users, now)
  }

  ghost predicate Inv(s: State, now: nat)
  {
    Dense(s) && UsersOk(s.users, s.auctions) && AuctionsOk(s.auctions, s.users.Keys, now)
  }

  // ---------- Every way a handler changes the state keeps it ----------

  lemma InvLater(s: State, t0: nat, now: nat)
    requires Inv(s, t0) && t0 <= now
    ensures Inv(s, now)
  {
  }

  /** Registering, logging in or out and unregistering touch pass and login of one user. */
  lemma AccountKeeps(s: State, uid: string, u: User, now: nat)
    requires Inv(s, now) && GoodUid(uid)
    requires u.pass.Some? ==> GoodPass(u.pass.value)
    requires u.login ==> u.pass.Some?
    requires u.hosted == HostedOf(s, uid) && u.bidded == BiddedOf(s, uid)
    ensures Inv(SetUser(s, uid, u), now)
  {
  }

  /** Changes that leave START and bids alone leave the indexes right. */
  lemma SameBidsSameIndexes(users: map<string, User>, before: map<nat, Auction>, after: map<nat, Auction>)
    requires UsersOk(users, before)
    requires after.Keys == before.Keys
    requires forall id | id in before :: after[id].start == before[id].start && after[id].bids == before[id].bids
    ensures UsersOk(users, after)
  {
  }

  lemma SameKeysDense(s: State, s': State)
    requires Dense(s) && s'.auctions.Keys == s.auctions.Keys
    ensures Dense(s')
  {
  }

  lemma NoticedOk(a: Auction, users: set<string>, now: nat)
    requires AuctionOk(a, users, now)
    ensures AuctionOk(Noticed(a, now), users, now)
  {
  }

  lemma NoticeShape(s: State, ids: set<nat>, now: nat)
    ensures var s' := Notice(s, ids, now);
            s'.users == s.users && s'.auctions.Keys == s.auctions.Keys &&
            forall id | id in s.auctions ::
              s'.auctions[id].start == s.auctions[id].start && s'.auctions[id].bids == s.auctions[id].bids
  {
  }

  lemma NoticeKeepsAuctions(s: State, ids: set<nat>, users: set<string>, now: nat)
    requires AuctionsOk(s.auctions, users, now)
    ensures AuctionsOk(Notice(s, ids, now).auctions, users, now)
  {
    forall id | id in s.auctions
      ensures AuctionOk(Notice(s, ids, now).auctions[id], users, now)
    {
      NoticedOk(s.auctions[id], users, now);
    }
  }

  lemma NoticeKeeps(s: State, ids: set<nat>, now: nat)
    requires Inv(s, now)
    ensures Inv(Notice(s, ids, now), now)
  {
    var s' := Notice(s, ids, now);
    NoticeShape(s, ids, now);
    SameKeysDense(s, s');
    SameBidsSameIndexes(s.users, s.auctions, s'.auctions);
    NoticeKeepsAuctions(s, ids, s.users.Keys, now);
  }

  lemma CloseKeepsAuctions(s: State, id: nat, users: set<string>, now: nat)
    requires AuctionsOk(s.auctions, users, now) && id in s.auctions
    ensures AuctionsOk(CloseAuction(s, id, now).auctions, users, now)
  {
  }

  lemma CloseShape(s: State, id: nat, now: nat)
    requires Dense(s) && id in s.auctions
    ensures var s' := CloseAuction(s, id, now);
            Dense(s') && s'.auctions.Keys == s.auctions.Keys &&
            forall x | x in s.auctions ::
              s'.auctions[x].start == s.auctions[x].start && s'.auctions[x].bids == s.auctions[x].bids
  {
  }

  lemma CloseKeeps(s: State, id: nat, now: nat)
    requires Inv(s, now) && id in s.auctions
    ensures Inv(CloseAuction(s, id, now), now)
  {
    CloseShape(s, id, now);
    SameBidsSameIndexes(s.users, s.auctions, CloseAuction(s, id, now).auctions);
    CloseKeepsAuctions(s, id, s.users.Keys, now);
  }

  /** The maximum scan finds the first unused identifier. */
  lemma NextIdIsFresh(s: State)
    requires Dense(s)
    ensures NextId(s) == |s.auctions| + 1 && NextId(s) !in s.auctions
  {
    assert |s.auctions| == |s.auctions.Keys|;
    MaxOfDense(s.auctions.Keys);
  }

  lemma CreateKeepsIndexes(s: State, start: Start, upload: Upload)
    requires Dense(s) && UsersOk(s.users, s.auctions) && start.owner in s.users
    ensures var s' := CreateAuction(s, start, upload); UsersOk(s'.users, s'.auctions)
  {
    var id, s' := NextId(s), CreateAuction(s, start, upload);
    NextIdIsFresh(s);
    forall uid | uid in s'.users
      ensures UserOk(s'.users[uid], uid, s'.auctions)
    {
      assert UserOk(s.users[uid], uid, s.auctions);
      assert !HasBidBy(s'.auctions[id].bids, uid);
      forall x: nat
        ensures Hosts(s'.auctions, x, uid) == (Hosts(s.auctions, x, uid) || (x == id && uid == start.owner))
        ensures BidsIn(s'.auctions, x, uid) == BidsIn(s.auctions, x, uid)
      {
      }
    }
  }

  lemma CreateKeepsAuctions(s: State, start: Start, upload: Upload, now: nat)
    requires AuctionsOk(s.auctions, s.users.Keys, now) && start.owner in s.users && GoodStart(start)
    requires start.startTime <= now
    ensures AuctionsOk(CreateAuction(s, start, upload).auctions, s.users.Keys, now)
  {
  }

  lemma CreateDense(s: State, start: Start, upload: Upload)
    requires Dense(s) && start.owner in s.users
    ensures var s' := CreateAuction(s, start, upload); Dense(s') && s'.users.Keys == s.users.Keys
  {
  }

  lemma CreateKeeps(s: State, start: Start, upload: Upload, now: nat)
    requires Inv(s, now) && start.owner in s.users && GoodStart(start) && start.startTime <= now
    ensures Inv(CreateAuction(s, start, upload), now)
  {
    CreateDense(s, start, upload);
    CreateKeepsIndexes(s, start, upload);
    CreateKeepsAuctions(s, start, upload, now);
  }

  lemma PlaceBidKeepsIndexes(s: State, id: nat, value: nat, uid: string, now: nat)
    requires UsersOk(s.users, s.auctions) && id in s.auctions && uid in s.users && value !in s.auctions[id].bids
    ensures var s' := PlaceBid(s, id, value, uid, now); UsersOk(s'.users, s'.auctions)
  {
    var s' := PlaceBid(s, id, value, uid, now);
    var a, a' := s.auctions[id], s'.auctions[id];
    forall x
      ensures HasBidBy(a'.bids, x) == (HasBidBy(a.bids, x) || x == uid)
    {
      assert a'.bids[value].bidder == uid;
      if HasBidBy(a.bids, x) {
        var v: nat :| v in a.bids && a.bids[v].bidder == x;
        assert v in a'.bids && a'.bids[v].bidder == x;
      }
    }
    forall x | x in s'.users
      ensures UserOk(s'.users[x], x, s'.auctions)
    {
      assert UserOk(s.users[x], x, s.auctions);
      forall y: nat
        ensures Hosts(s'.auctions, y, x) == Hosts(s.auctions, y, x)
        ensures BidsIn(s'.auctions, y, x) == (BidsIn(s.auctions, y, x) || (y == id && x == uid))
      {
      }
    }
  }

  lemma PlaceBidKeepsAuctions(s: State, id: nat, value: nat, uid: string, now: nat)
    requires AuctionsOk(s.auctions, s.users.Keys, now) && id in s.auctions && uid in s.users
    requires Outbids(s.auctions[id], value) && value <= 999999 && s.auctions[id].start.owner != uid
    ensures AuctionsOk(PlaceBid(s, id, value, uid, now).auctions, s.users.Keys, now)
  {
  }

  lemma PlaceBidShape(s: State, id: nat, value: nat, uid: string, now: nat)
    requires Dense(s) && id in s.auctions && uid in s.users
    ensures var s' := PlaceBid(s, id, value, uid, now); Dense(s') && s'.users.Keys == s.users.Keys
  {
  }

  lemma NotHost(s: State, id: nat, uid: string)
    requires UsersOk(s.users, s.auctions) && uid in s.users && id in s.auctions && id !in s.users[uid].hosted
    ensures s.auctions[id].start.owner != uid
  {
  }

  lemma PlaceBidKeeps(s: State, id: nat, value: nat, uid: string, now: nat)
    requires Inv(s, now) && id in s.auctions && uid in s.users
    requires Outbids(s.auctions[id], value) && value <= 999999 && id !in s.users[uid].hosted
    ensures Inv(PlaceBid(s, id, value, uid, now), now)
  {
    NotHost(s, id, uid);
    PlaceBidShape(s, id, value, uid, now);
    PlaceBidKeepsIndexes(s, id, value, uid, now);
    PlaceBidKeepsAuctions(s, id, value, uid, now);
  }

  lemma NoticeUnendedIsSame(s: State, id: nat, now: nat)
    requires Ongoing(s, id, now)
    ensures Notice(s, {id}, now) == s
  {
  }

  // ---------- One lemma per handler ----------

  lemma AccountStepsKeep(s: State, uid: string, pass: string, now: nat)
    requires Inv(s, now) && GoodUid(uid) && GoodPass(pass)
    ensures Inv(LoginStep(s, uid, pass).0, now)
    ensures Inv(LogoutStep(s, uid, pass).0, now)
    ensures Inv(UnregisterStep(s, uid, pass).0, now)
  {
    var u := if uid in s.users then s.users[uid] else User(None, false, {}, {});
    AccountKeeps(s, uid, u.(pass := Some(pass), login := true), now);
    if Exists(s, uid) {
      assert UserOk(u, uid, s.auctions);
      AccountKeeps(s, uid, u.(login := !u.login), now);
      AccountKeeps(s, uid, u.(pass := None, login := false), now);
    }
  }

  lemma NoticeKeepsLater(s: State, ids: set<nat>, t1: nat, t2: nat)
    requires Inv(s, t1) && t1 <= t2
    ensures Inv(Notice(s, ids, t1), t2)
  {
    NoticeKeeps(s, ids, t1);
    InvLater(Notice(s, ids, t1), t1, t2);
  }

  lemma OpenStepKeeps(s: State, r: Request, now: nat)
    requires Inv(s, now) && r.Open? && ValidRequest(r)
    ensures Inv(OpenStep(s, r, now).0, now)
  {
    if Exists(s, r.uid) {
      CreateKeeps(s, Start(r.uid, r.name, r.fname, r.startValue, r.timeActive, now), r.upload, now);
    }
  }

  lemma BidStepKeeps(s: State, uid: string, pass: string, id: nat, value: nat, t1: nat, t2: nat)
    requires Inv(s, t1) && t1 <= t2 && value <= 999999
    ensures Inv(BidStep(s, uid, pass, id, value, t1, t2).0, t2)
  {
    InvLater(s, t1, t2);
    NoticeKeepsLater(s, {id}, t1, t2);
    if Ongoing(s, id, t1) {
      NoticeUnendedIsSame(s, id, t1);
      if uid in s.users && Outbids(s.auctions[id], value) && id !in s.users[uid].hosted {
        PlaceBidKeeps(s, id, value, uid, t2);
      }
    }
  }

  lemma CloseStepKeeps(s: State, uid: string, pass: string, aidText: string, t1: nat, t2: nat)
    requires Inv(s, t1) && t1 <= t2 && AllDigits(aidText)
    ensures Inv(CloseStep(s, uid, pass, aidText, t1, t2).0, t2)
  {
    InvLater(s, t1, t2);
    if Ongoing(s, Num(aidText), t1) {
      CloseKeeps(s, Num(aidText), t2);
    } else {
      NoticeKeepsLater(s, {Num(aidText)}, t1, t2);
    }
  }

  /** Every request keeps the invariant. */
  lemma StepKeeps(s: State, r: Request, t0: nat, t1: nat, t2: nat)
    requires ValidRequest(r) && Inv(s, t0) && t0 <= t1 <= t2
    ensures Inv(Step(s, r, t1, t2).0, t2)
  {
    InvLater(s, t0, t1);
    InvLater(s, t0, t2);
    match r
    case Login(uid, pass) => AccountStepsKeep(s, uid, pass, t2);
    case Logout(uid, pass) => AccountStepsKeep(s, uid, pass, t2);
    case Unregister(uid, pass) => AccountStepsKeep(s, uid, pass, t2);
    case MyAuctions(uid) => NoticeKeepsLater(s, HostedOf(s, uid), t1, t2);
    case MyBids(uid) => NoticeKeepsLater(s, BiddedOf(s, uid), t1, t2);
    case List(_) => NoticeKeepsLater(s, s.auctions.Keys, t1, t2);
    case ShowRecord(aid) => NoticeKeepsLater(s, {aid}, t1, t2);
    case Open(_, _, _, _, _, _, _) => OpenStepKeeps(s, r, t2);
    case Close(uid, pass, aidText) => CloseStepKeeps(s, uid, pass, aidText, t1, t2);
    case BidOn(uid, pass, id, value) => BidStepKeeps(s, uid, pass, id, value, t1, t2);
    case ShowAsset(_) =>
  }

  /** Main result: the invariant holds after every run. */
  lemma {:induction false} ReachedInv(run: seq<Event>)
    requires ValidRun(run)
    ensures Inv(Reached(run), EndTime(run))
  {
    if run != [] {
      var k := |run| - 1;
      ValidPrefix(run, k);
      ReachedInv(run[..k]);
      StepKeeps(Reached(run[..k]), run[k].req, EndTime(run[..k]), run[k].t1, run[k].t2);
    }
  }

  /** An open that reaches `create_auction` takes the next number, whether or not its upload succeeds. */
  lemma IdsAreDenseAndFresh(run: seq<Event>)
    requires ValidRun(run)
    ensures var s := Reached(run);
            (forall id: nat :: id in s.auctions <==> 1 <= id <= |s.auctions|) &&
            NextId(s) == |s.auctions| + 1 && NextId(s) !in s.auctions
  {
    ReachedInv(run);
    NextIdIsFresh(Reached(run));
  }

  /** In every reachable state both per-user indexes can be recomputed from the auctions alone, and no
      auction holds a bid by its own host. */
  lemma IndexesAgree(run: seq<Event>, uid: string, id: nat)
    requires ValidRun(run) && uid in Reached(run).users
    ensures var s := Reached(run);
            (id in s.users[uid].hosted <==> id in s.auctions && s.auctions[id].start.owner == uid) &&
            (id in s.users[uid].bidded <==> id in s.auctions && HasBidBy(s.auctions[id].bids, uid)) &&
            !(id in s.users[uid].hosted && id in s.users[uid].bidded)
  {
    ReachedInv(run);
    var s := Reached(run);
    assert UserOk(s.users[uid], uid, s.auctions);
    assert Hosts(s.auctions, id, uid) == (id in s.users[uid].hosted);
    assert BidsIn(s.auctions, id, uid) == (id in s.users[uid].bidded);
    if id in s.auctions { assert AuctionOk(s.auctions[id], s.users.Keys, EndTime(run)); }
  }

  // ---------- Nothing stored is ever lost ----------

  /** START and assets never change, bids only accumulate, END is written once and freezes the bids. */
  ghost predicate Continues(a: Auction, b: Auction)
  {
    && b.start == a.start && b.asset == a.asset
    && (forall v: nat | v in a.bids :: v in b.bids && b.bids[v] == a.bids[v])
    && (a.end.Some? ==> b == a)
  }

  ghost predicate Grows(s: State, s': State)
  {
    && (forall id | id in s.auctions :: id in s'.auctions && Continues(s.auctions[id], s'.auctions[id]))
    && (forall uid | uid in s.users ::
          uid in s'.users && s.users[uid].hosted <= s'.users[uid].hosted && s.users[uid].bidded <= s'.users[uid].bidded)
  }

  lemma GrowsTransitive(a: State, b: State, c: State)
    requires Grows(a, b) && Grows(b, c)
    ensures Grows(a, c)
  {
  }

  lemma NoticeGrows(s: State, ids: set<nat>, now: nat)
    ensures Grows(s, Notice(s, ids, now))
  {
  }

  lemma BidStepGrows(s: State, uid: string, pass: string, id: nat, value: nat, t1: nat, t2: nat)
    ensures Grows(s, BidStep(s, uid, pass, id, value, t1, t2).0)
  {
    NoticeGrows(s, {id}, t1);
    if Ongoing(s, id, t1) { NoticeUnendedIsSame(s, id, t1); }
  }

  lemma CloseGrows(s: State, id: nat, now: nat)
    requires id in s.auctions && s.auctions[id].end.None?
    ensures Grows(s, CloseAuction(s, id, now))
  {
  }

  /** What a close can do to the state. */
  lemma CloseStepIs(s: State, uid: string, pass: string, aidText: string, t1: nat, t2: nat)
    requires AllDigits(aidText)
    ensures var s', id := CloseStep(s, uid, pass, aidText, t1, t2).0, Num(aidText);
            s' == s || s' == Notice(s, {id}, t1) || (Ongoing(s, id, t1) && s' == CloseAuction(s, id, t2))
  {
  }

  lemma GrowsItself(s: State)
    ensures Grows(s, s)
  {
  }

  lemma CloseStepGrows(s: State, uid: string, pass: string, aidText: string, t1: nat, t2: nat)
    requires AllDigits(aidText)
    ensures Grows(s, CloseStep(s, uid, pass, aidText, t1, t2).0)
  {
    CloseStepIs(s, uid, pass, aidText, t1, t2);
    GrowsItself(s);
    NoticeGrows(s, {Num(aidText)}, t1);
    if Ongoing(s, Num(aidText), t1) { CloseGrows(s, Num(aidText), t2); }
  }

  lemma AccountStepsGrow(s: State, uid: string, pass: string)
    ensures Grows(s, LoginStep(s, uid, pass).0)
    ensures Grows(s, LogoutStep(s, uid, pass).0)
    ensures Grows(s, UnregisterStep(s, uid, pass).0)
  {
  }

  lemma OpenStepGrows(s: State, r: Request, now: nat)
    requires r.Open? && Dense(s)
    ensures Grows(s, OpenStep(s, r, now).0)
  {
  }

  lemma StepGrows(s: State, r: Request, t1: nat, t2: nat)
    requires ValidRequest(r) && Dense(s)
    ensures Grows(s, Step(s, r, t1, t2).0)
  {
    match r
    case Login(uid, pass) => AccountStepsGrow(s, uid, pass);
    case Logout(uid, pass) => AccountStepsGrow(s, uid, pass);
    case Unregister(uid, pass) => AccountStepsGrow(s, uid, pass);
    case MyAuctions(uid) => NoticeGrows(s, HostedOf(s, uid), t1);
    case MyBids(uid) => NoticeGrows(s, BiddedOf(s, uid), t1);
    case List(_) => NoticeGrows(s, s.auctions.Keys, t1);
    case ShowRecord(aid) => NoticeGrows(s, {aid}, t1);
    case Open(_, _, _, _, _, _, _) => OpenStepGrows(s, r, t2);
    case Close(uid, pass, aidText) => CloseStepGrows(s, uid, pass, aidText, t1, t2);
    case BidOn(uid, pass, id, value) => BidStepGrows(s, uid, pass, id, value, t1, t2);
    case ShowAsset(_) =>
  }

  /** Main result: from any point of a run to any later one. */
  lemma {:induction false} RunGrows(run: seq<Event>, k: nat)
    requires ValidRun(run) && k <= |run|
    ensures ValidRun(run[..k]) && Grows(Reached(run[..k]), Reached(run))
  {
    ValidPrefix(run, k);
    if k == |run| {
      assert run[..k] == run;
    } else {
      var n := |run| - 1;
      ValidPrefix(run, n);
      assert run[..n][..k] == run[..k];
      RunGrows(run[..n], k);
      LastStepGrows(run);
      GrowsTransitive(Reached(run[..k]), Reached(run[..n]), Reached(run));
    }
  }

  lemma LastStepGrows(run: seq<Event>)
    requires ValidRun(run) && run != []
    ensures ValidRun(run[..|run| - 1]) && Grows(Reached(run[..|run| - 1]), Reached(run))
  {
    var n := |run| - 1;
    ValidPrefix(run, n);
    ReachedDense(run[..n]);
    StepGrows(Reached(run[..n]), run[n].req, run[n].t1, run[n].t2);
  }

  lemma ReachedDense(run: seq<Event>)
    requires ValidRun(run)
    ensures Dense(Reached(run))
  {
    ReachedInv(run);
  }

  /** A bid is accepted only on an auction without END file. */
  lemma AcceptedMeansOpen(s: State, r: Request, t1: nat, t2: nat)
    requires ValidRequest(r) && r.BidOn? && Step(s, r, t1, t2).1 == Acc
    ensures r.aid in s.auctions && s.auctions[r.aid].end.None?
  {
  }

  /** Once an auction has an END file, that file and the bids stay as they are for the rest of the run,
      and no later bid on it is accepted. */
  lemma EndIsWriteOnce(run: seq<Event>, k: nat, id: nat)
    requires ValidRun(run) && k <= |run| && ValidRun(run[..k])
    requires id in Reached(run[..k]).auctions && Reached(run[..k]).auctions[id].end.Some?
    ensures id in Reached(run).auctions && Reached(run).auctions[id] == Reached(run[..k]).auctions[id]
    ensures forall j | k <= j < |run| && run[j].req.BidOn? && run[j].req.aid == id :: ReplyAt(run, j) != Acc
  {
    RunGrows(run, k);
    forall j | k <= j < |run| && run[j].req.BidOn? && run[j].req.aid == id
      ensures ReplyAt(run, j) != Acc
    {
      ValidPrefix(run, j);
      assert run[..j][..k] == run[..k];
      RunGrows(run[..j], k);
      if ReplyAt(run, j) == Acc { AcceptedMeansOpen(Reached(run[..j]), run[j].req, run[j].t1, run[j].t2); }
    }
  }
}
