/** A server without lazy expiry: every auction is over from start + timeactive on, nothing is stored
    about it, and requests that only ask change nothing. The lazy server is proved to give the same
    replies, which makes its END files unobservable and its queries invisible. */
module IdealServer {
  import opened Text
  import opened Domain
  import opened LazyServer

  // ---------- The specification server ----------

  /** Here `a.end` is present only when the owner closed the auction early; otherwise the clock decides. */
  function EndAsOf(a: Auction, now: nat): Option<End>
  {
    if a.end.Some? then a.end
    else if now < Deadline(a.start) then None
    else Some(End(Deadline(a.start), a.start.timeActive))
  }

  predicate Running(i: State, id: nat, now: nat) { id in i.auctions && EndAsOf(i.auctions[id], now).None? }

  /** The replies to requests that only ask: functions of the state and the clock. */
  function Answer(i: State, r: Request, now: nat): Reply
    requires ValidRequest(r) && IsQuery(r)
  {
    match r
    case List(firstEntry) =>
      if SeesAuctions(i, firstEntry) then Listed(map id | id in i.auctions :: Running(i, id, now)) else Nok
    case MyAuctions(uid) =>
      if !LoggedIn(i, uid) then Nlg
      else if i.users[uid].hosted == {} then Nok
      else Listed(map id | id in i.users[uid].hosted :: Running(i, id, now))
    case MyBids(uid) =>
      if !LoggedIn(i, uid) then Nlg
      else if i.users[uid].bidded == {} then Nok
      else Listed(map id | id in i.users[uid].bidded :: Running(i, id, now))
    case ShowRecord(id) =>
      if id in i.auctions
      then var a := i.auctions[id]; Record(a.start, a.bids, EndAsOf(a, now))
      else Nok
    case ShowAsset(aidText) => AssetReply(i, aidText)
  }

  function IdealBid(i: State, uid: string, pass: string, id: nat, value: nat, t1: nat, t2: nat): (State, Reply)
  {
    if !LoggedIn(i, uid) then (i, Nlg)
    else if !PasswordOk(i, uid, pass) || !Running(i, id, t1) then (i, Nok)
    else if id in i.users[uid].hosted then (i, Ilg)
    else if !Outbids(i.auctions[id], value) then (i, Ref)
    else (PlaceBid(i, id, value, uid, t2), Acc)
  }

  function IdealClose(i: State, uid: string, pass: string, aidText: string, t1: nat, t2: nat): (State, Reply)
    requires AllDigits(aidText)
  {
    if !LoggedIn(i, uid) then (i, Nlg)
    else if !PasswordOk(i, uid, pass) then (i, Nok)
    else if !DirectoryExists(i, aidText) then (i, Eau)
    else if Num(aidText) !in i.users[uid].hosted then (i, Eow)
    else if !Running(i, Num(aidText), t1) then (i, Ended)
    else (CloseAuction(i, Num(aidText), t2), Ok)
  }

  ghost function IdealStep(i: State, r: Request, t1: nat, t2: nat): (State, Reply)
    requires ValidRequest(r)
  {
    if IsQuery(r) then (i, Answer(i, r, t1))
    else match r
      case Login(uid, pass) => LoginStep(i, uid, pass)
      case Logout(uid, pass) => LogoutStep(i, uid, pass)
      case Unregister(uid, pass) => UnregisterStep(i, uid, pass)
      case Open(_, _, _, _, _, _, _) => OpenStep(i, r, t2)
      case Close(uid, pass, aidText) => IdealClose(i, uid, pass, aidText, t1, t2)
      case BidOn(uid, pass, aid, value) => IdealBid(i, uid, pass, aid, value, t1, t2)
  }

  ghost function IdealReached(run: seq<Event>): State
    requires ValidRun(run)
  {
    if run == [] then EMPTY
    else
      var k := |run| - 1;
      IdealStep(IdealReached(run[..k]), run[k].req, run[k].t1, run[k].t2).0
  }

  ghost function IdealStepAt(run: seq<Event>, k: nat): (State, Reply)
    requires ValidRun(run) && k < |run|
  {
    IdealStep(IdealReached(run[..k]), run[k].req, run[k].t1, run[k].t2)
  }

  // ---------- The simulation ----------

  /** The lazy server may already have stored the expiry that the ideal one only infers. */
  ghost predicate SameAuction(l: Auction, i: Auction, now: nat)
  {
    && l.start == i.start && l.bids == i.bids && l.asset == i.asset
    && (l.end == i.end || (i.end.None? && l.end == EndAsOf(i, now)))
  }

  ghost predicate Simulates(l: State, i: State, now: nat)
  {
    && l.users == i.users
    && l.auctions.Keys == i.auctions.Keys
    && forall id | id in l.auctions :: SameAuction(l.auctions[id], i.auctions[id], now)
  }

  lemma NoticeSimulates(l: State, i: State, ids: set<nat>, t0: nat, now: nat)
    requires Simulates(l, i, t0) && t0 <= now
    ensures Simulates(Notice(l, ids, now), i, now)
    ensures forall id | id in l.auctions :: Noticed(l.auctions[id], now).end == EndAsOf(i.auctions[id], now)
    ensures forall id: nat :: Ongoing(l, id, now) == Running(i, id, now)
  {
  }

  lemma SimulatesLater(l: State, i: State, t0: nat, now: nat)
    requires Simulates(l, i, t0) && t0 <= now
    ensures Simulates(l, i, now)
  {
  }

  lemma ListsAgree(l: State, i: State, ids: set<nat>, t0: nat, now: nat)
    requires Simulates(l, i, t0) && t0 <= now
    ensures Statuses(l, ids, now) == map id | id in ids :: Running(i, id, now)
    ensures Simulates(Notice(l, ids, now), i, now)
  {
  }

  lemma RecordSimulates(l: State, i: State, id: nat, t0: nat, now: nat)
    requires Simulates(l, i, t0) && t0 <= now && id <= 999
    ensures Simulates(RecordStep(l, id, now).0, i, now)
    ensures RecordStep(l, id, now).1 == Answer(i, ShowRecord(id), now)
  {
    SimulatesLater(l, i, t0, now);
    NoticeSimulates(l, i, {id}, t0, now);
    if id in l.auctions { assert SameAuction(l.auctions[id], i.auctions[id], t0); }
  }

  lemma AssetsAgree(l: State, i: State, aidText: string, t0: nat)
    requires Simulates(l, i, t0) && AllDigits(aidText) && aidText != ""
    ensures AssetReply(l, aidText) == AssetReply(i, aidText)
  {
  }

  lemma QuerySimulates(l: State, i: State, r: Request, t0: nat, t1: nat, t2: nat)
    requires ValidRequest(r) && IsQuery(r)
    requires Simulates(l, i, t0) && t0 <= t1
    ensures Simulates(Step(l, r, t1, t2).0, i, t1)
    ensures Step(l, r, t1, t2).1 == Answer(i, r, t1)
  {
    SimulatesLater(l, i, t0, t1);
    match r
    case List(firstEntry) =>
      ListsAgree(l, i, l.auctions.Keys, t0, t1);
      assert SeesAuctions(l, firstEntry) == SeesAuctions(i, firstEntry);
      assert (map id | id in i.auctions :: Running(i, id, t1)) == map id | id in l.auctions.Keys :: Running(i, id, t1);
    case MyAuctions(uid) => ListsAgree(l, i, HostedOf(l, uid), t0, t1);
    case MyBids(uid) => ListsAgree(l, i, BiddedOf(l, uid), t0, t1);
    case ShowRecord(id) => RecordSimulates(l, i, id, t0, t1);
    case ShowAsset(aidText) => AssetsAgree(l, i, aidText, t0);
  }

  lemma BidSimulates(l: State, i: State, uid: string, pass: string, id: nat, value: nat, t0: nat, t1: nat, t2: nat)
    requires Simulates(l, i, t0) && t0 <= t1 <= t2
    ensures var (l', p) := BidStep(l, uid, pass, id, value, t1, t2);
            var (i', q) := IdealBid(i, uid, pass, id, value, t1, t2);
            p == q && Simulates(l', i', t2)
  {
    SimulatesLater(l, i, t0, t2);
    NoticeSimulates(l, i, {id}, t0, t1);
    SimulatesLater(Notice(l, {id}, t1), i, t1, t2);
  }

  lemma CloseAuctionSimulates(l: State, i: State, id: nat, t0: nat, now: nat)
    requires Simulates(l, i, t0) && t0 <= now && id in l.auctions
    ensures Simulates(CloseAuction(l, id, now), CloseAuction(i, id, now), now)
  {
  }

  lemma CloseSimulates(l: State, i: State, uid: string, pass: string, aidText: string, t0: nat, t1: nat, t2: nat)
    requires AllDigits(aidText)
    requires Simulates(l, i, t0) && t0 <= t1 <= t2
    ensures CloseStep(l, uid, pass, aidText, t1, t2).1 == IdealClose(i, uid, pass, aidText, t1, t2).1
    ensures Simulates(CloseStep(l, uid, pass, aidText, t1, t2).0, IdealClose(i, uid, pass, aidText, t1, t2).0, t2)
  {
    var id := Num(aidText);
    SimulatesLater(l, i, t0, t2);
    NoticeSimulates(l, i, {id}, t0, t1);
    SimulatesLater(Notice(l, {id}, t1), i, t1, t2);
    if id in l.auctions { CloseAuctionSimulates(l, i, id, t0, t2); }
  }

  lemma OpenSimulates(l: State, i: State, r: Request, now: nat)
    requires r.Open? && Simulates(l, i, now)
    ensures OpenStep(l, r, now).1 == OpenStep(i, r, now).1
    ensures Simulates(OpenStep(l, r, now).0, OpenStep(i, r, now).0, now)
  {
  }

  lemma AccountSimulates(l: State, i: State, uid: string, pass: string, now: nat)
    requires Simulates(l, i, now)
    ensures LoginStep(l, uid, pass).1 == LoginStep(i, uid, pass).1
    ensures Simulates(LoginStep(l, uid, pass).0, LoginStep(i, uid, pass).0, now)
    ensures LogoutStep(l, uid, pass).1 == LogoutStep(i, uid, pass).1
    ensures Simulates(LogoutStep(l, uid, pass).0, LogoutStep(i, uid, pass).0, now)
    ensures UnregisterStep(l, uid, pass).1 == UnregisterStep(i, uid, pass).1
    ensures Simulates(UnregisterStep(l, uid, pass).0, UnregisterStep(i, uid, pass).0, now)
  {
  }

  /** One request: same reply, and the states stay related. */
  lemma StepSimulates(l: State, i: State, r: Request, t0: nat, t1: nat, t2: nat)
    requires ValidRequest(r)
    requires Simulates(l, i, t0) && t0 <= t1 <= t2
    ensures Step(l, r, t1, t2).1 == IdealStep(i, r, t1, t2).1
    ensures Simulates(Step(l, r, t1, t2).0, IdealStep(i, r, t1, t2).0, t2)
  {
    SimulatesLater(l, i, t0, t2);
    if IsQuery(r) {
      QuerySimulates(l, i, r, t0, t1, t2);
      SimulatesLater(Step(l, r, t1, t2).0, i, t1, t2);
    } else {
      match r
      case Open(_, _, _, _, _, _, _) => OpenSimulates(l, i, r, t2);
      case Close(uid, pass, aidText) => CloseSimulates(l, i, uid, pass, aidText, t0, t1, t2);
      case BidOn(uid, pass, id, value) => BidSimulates(l, i, uid, pass, id, value, t0, t1, t2);
      case Login(uid, pass) => AccountSimulates(l, i, uid, pass, t2);
      case Logout(uid, pass) => AccountSimulates(l, i, uid, pass, t2);
      case Unregister(uid, pass) => AccountSimulates(l, i, uid, pass, t2);
    }
  }

  lemma {:induction false} ReachedSimulates(run: seq<Event>)
    requires ValidRun(run)
    ensures Simulates(Reached(run), IdealReached(run), EndTime(run))
  {
    if run != [] {
      var k := |run| - 1;
      ValidPrefix(run, k);
      ReachedSimulates(run[..k]);
      StepSimulates(Reached(run[..k]), IdealReached(run[..k]), run[k].req, EndTime(run[..k]), run[k].t1, run[k].t2);
    }
  }

  /** Main result: over every run, every reply of the lazy server is the one of the server that ends
      auctions on time by itself. */
  lemma LazyRefinesIdeal(run: seq<Event>, k: nat)
    requires ValidRun(run) && k < |run|
    ensures ReplyAt(run, k) == IdealStepAt(run, k).1
  {
    ValidPrefix(run, k);
    ReachedSimulates(run[..k]);
    StepSimulates(Reached(run[..k]), IdealReached(run[..k]), run[k].req, EndTime(run[..k]), run[k].t1, run[k].t2);
  }

  // ---------- Queries are invisible ----------

  /** `mask` marks the events to keep; it may drop queries only. */
  ghost predicate DropsQueriesOnly(run: seq<Event>, mask: seq<bool>)
  {
    |mask| == |run| && forall k | 0 <= k < |run| :: !mask[k] ==> IsQuery(run[k].req)
  }

  function Kept(run: seq<Event>, mask: seq<bool>): (kept: seq<Event>)
    requires |mask| == |run|
    ensures forall k | 0 <= k < |kept| :: kept[k] in run
  {
    if run == [] then []
    else
      var k := |run| - 1;
      Kept(run[..k], mask[..k]) + if mask[k] then [run[k]] else []
  }

  /** Where event `k`, when kept, lands in the shortened run. */
  function Position(run: seq<Event>, mask: seq<bool>, k: nat): nat
    requires |mask| == |run| && k < |run|
  {
    |Kept(run[..k], mask[..k])|
  }

  lemma {:induction false} KeptIsValid(run: seq<Event>, mask: seq<bool>)
    requires ValidRun(run) && |mask| == |run|
    ensures ValidRun(Kept(run, mask))
    ensures EndTime(Kept(run, mask)) <= EndTime(run)
  {
    if run != [] {
      var n := |run| - 1;
      ValidPrefix(run, n);
      KeptIsValid(run[..n], mask[..n]);
      var before, kept := Kept(run[..n], mask[..n]), Kept(run, mask);
      forall j, k | 0 <= j < k < |kept|
        ensures kept[j].t2 <= kept[k].t1
      {
        if k == |before| { assert before[j] in run[..n]; }
      }
    }
  }

  lemma {:induction false} KeptPrefix(run: seq<Event>, mask: seq<bool>, k: nat)
    requires |mask| == |run| && k < |run| && mask[k]
    ensures var p := Position(run, mask, k);
            p < |Kept(run, mask)| && Kept(run, mask)[p] == run[k] && Kept(run, mask)[..p] == Kept(run[..k], mask[..k])
  {
    var n := |run| - 1;
    if k < n {
      KeptPrefix(run[..n], mask[..n], k);
      assert run[..n][..k] == run[..k] && mask[..n][..k] == mask[..k];
    }
  }

  lemma {:induction false} KeptReachesSame(run: seq<Event>, mask: seq<bool>)
    requires ValidRun(run) && DropsQueriesOnly(run, mask)
    requires ValidRun(Kept(run, mask))
    ensures IdealReached(Kept(run, mask)) == IdealReached(run)
  {
    if run != [] {
      var n := |run| - 1;
      ValidPrefix(run, n);
      KeptIsValid(run[..n], mask[..n]);
      KeptReachesSame(run[..n], mask[..n]);
      if mask[n] {
        var kept := Kept(run, mask);
        assert kept[..|kept| - 1] == Kept(run[..n], mask[..n]);
      } else {
        assert Kept(run, mask) == Kept(run[..n], mask[..n]);
        assert IdealReached(run) == IdealReached(run[..n]);
      }
    }
  }

  /** Main result: delete any list, record or asset requests from any run (or, read the other way,
      insert them): every remaining request, queries included, gets the reply it got before. */
  lemma QueriesAreInvisible(run: seq<Event>, mask: seq<bool>, k: nat)
    requires ValidRun(run) && DropsQueriesOnly(run, mask)
    requires k < |run| && mask[k]
    ensures ValidRun(Kept(run, mask)) && Position(run, mask, k) < |Kept(run, mask)|
    ensures ReplyAt(Kept(run, mask), Position(run, mask, k)) == ReplyAt(run, k)
  {
    KeptIsValid(run, mask);
    KeptPrefix(run, mask, k);
    ValidPrefix(run, k);
    KeptIsValid(run[..k], mask[..k]);
    KeptReachesSame(run[..k], mask[..k]);
    LazyRefinesIdeal(run, k);
    LazyRefinesIdeal(Kept(run, mask), Position(run, mask, k));
  }
}
