/** Theorems about whole runs: bid logs, clocks, sessions, assets. */
module Histories {
  import opened Text
  import opened Domain
  import opened LazyServer
  import opened Invariants

  // ---------- What one request does to one auction ----------

  predicate BidsOnOk(r: Request, p: Reply, id: nat) { r.BidOn? && r.aid == id && p == Acc }

  predicate ClosesOk(r: Request, p: Reply, id: nat)
  {
    r.Close? && AllDigits(r.aidText) && Num(r.aidText) == id && p == Ok
  }

  /** The auction before and after a request answered `p`. */
  ghost predicate Moves(a: Auction, b: Auction, r: Request, p: Reply, t1: nat, t2: nat, id: nat)
  {
    if BidsOnOk(r, p, id) then
      Noticed(a, t1).end.None? && Outbids(a, r.value) &&
      b == a.(bids := a.bids[r.value := Bid(r.uid, t2, t2 - a.start.startTime)])
    else if ClosesOk(r, p, id) then
      Noticed(a, t1).end.None? && b == a.(end := Some(End(t2, t2 - a.start.startTime)))
    else b == a || b == Noticed(a, t1)
  }

  ghost predicate AuctionMoves(s: State, s': State, r: Request, p: Reply, t1: nat, t2: nat, id: nat)
  {
    if id in s.auctions then id in s'.auctions && Moves(s.auctions[id], s'.auctions[id], r, p, t1, t2, id)
    else
      !BidsOnOk(r, p, id) && !ClosesOk(r, p, id) &&
      (id in s'.auctions ==> s'.auctions[id].bids == map[] && s'.auctions[id].end.None?)
  }

  lemma BidMoves(s: State, r: Request, t1: nat, t2: nat, id: nat)
    requires r.BidOn?
    ensures var (s', p) := BidStep(s, r.uid, r.pass, r.aid, r.value, t1, t2); AuctionMoves(s, s', r, p, t1, t2, id)
  {
  }

  lemma CloseMoves(s: State, r: Request, t1: nat, t2: nat, id: nat)
    requires r.Close? && AllDigits(r.aidText)
    ensures var (s', p) := CloseStep(s, r.uid, r.pass, r.aidText, t1, t2); AuctionMoves(s, s', r, p, t1, t2, id)
  {
  }

  lemma OpenMoves(s: State, r: Request, t1: nat, t2: nat, id: nat)
    requires r.Open? && Dense(s)
    ensures var (s', p) := OpenStep(s, r, t2); AuctionMoves(s, s', r, p, t1, t2, id)
  {
  }

  lemma NoticeMoves(s: State, ids: set<nat>, r: Request, p: Reply, t1: nat, t2: nat, id: nat)
    requires !BidsOnOk(r, p, id) && !ClosesOk(r, p, id)
    ensures AuctionMoves(s, Notice(s, ids, t1), r, p, t1, t2, id)
    ensures AuctionMoves(s, s, r, p, t1, t2, id)
  {
  }

  lemma AccountMoves(s: State, r: Request, t1: nat, t2: nat, id: nat)
    requires r.Login? || r.Logout? || r.Unregister?
    ensures LoginStep(s, r.uid, r.pass).0.auctions == s.auctions
    ensures LogoutStep(s, r.uid, r.pass).0.auctions == s.auctions
    ensures UnregisterStep(s, r.uid, r.pass).0.auctions == s.auctions
  {
  }

  lemma StepMoves(s: State, r: Request, t1: nat, t2: nat, id: nat)
    requires ValidRequest(r) && Dense(s)
    ensures AuctionMoves(s, Step(s, r, t1, t2).0, r, Step(s, r, t1, t2).1, t1, t2, id)
  {
    match r
    case BidOn(_, _, _, _) => BidMoves(s, r, t1, t2, id);
    case Close(_, _, _) => CloseMoves(s, r, t1, t2, id);
    case Open(_, _, _, _, _, _, _) => OpenMoves(s, r, t1, t2, id);
    case MyAuctions(uid) => NoticeMoves(s, HostedOf(s, uid), r, Step(s, r, t1, t2).1, t1, t2, id);
    case MyBids(uid) => NoticeMoves(s, BiddedOf(s, uid), r, Step(s, r, t1, t2).1, t1, t2, id);
    case List(_) => NoticeMoves(s, s.auctions.Keys, r, Step(s, r, t1, t2).1, t1, t2, id);
    case ShowRecord(aid) => NoticeMoves(s, {aid}, r, Step(s, r, t1, t2).1, t1, t2, id);
    case ShowAsset(_) =>
    case _ => AccountMoves(s, r, t1, t2, id);
  }

  /** Event `k` of a run, for one auction. */
  lemma EventMoves(run: seq<Event>, k: nat, id: nat)
    requires ValidRun(run) && k < |run|
    ensures ValidRun(run[..k]) && ValidRun(run[..k + 1])
    ensures AuctionMoves(Reached(run[..k]), Reached(run[..k + 1]), run[k].req, ReplyAt(run, k),
                         run[k].t1, run[k].t2, id)
  {
    ValidPrefix(run, k);
    ValidPrefix(run, k + 1);
    assert run[..k + 1][..k] == run[..k];
    ReachedDense(run[..k]);
    StepMoves(Reached(run[..k]), run[k].req, run[k].t1, run[k].t2, id);
  }

  lemma WholeRun(run: seq<Event>)
    ensures run[..|run|] == run
  {
  }

  // ---------- Bids in the order of acceptance ----------

  /** The values the server answered ACC to on one auction, in order. */
  ghost function AcceptedBids(run: seq<Event>, id: nat): seq<nat>
    requires ValidRun(run)
  {
    if run == [] then []
    else
      var k := |run| - 1;
      AcceptedBids(run[..k], id) + if BidsOnOk(run[k].req, ReplyAt(run, k), id) then [run[k].req.value] else []
  }

  ghost predicate LogMatches(log: seq<nat>, bids: map<nat, Bid>, startValue: int)
  {
    && Increasing(log) && |bids| == |log|
    && (forall v :: v in bids <==> v in log)
    && (forall v | v in log :: v > startValue)
    && (forall v | v in bids :: v <= log[|log| - 1])
  }

  lemma LogStep(log: seq<nat>, bids: map<nat, Bid>, startValue: int, value: nat, bid: Bid)
    requires LogMatches(log, bids, startValue) && value > startValue && forall v | v in bids :: value > v
    ensures LogMatches(log + [value], bids[value := bid], startValue)
  {
    forall i | 0 <= i < |log|
      ensures log[i] < value
    {
      assert log[i] in log;
    }
    assert value !in bids;
    assert |bids[value := bid]| == |bids| + 1;
    forall v
      ensures v in bids[value := bid] <==> v in log + [value]
    {
    }
  }

  lemma LogMoves(log: seq<nat>, a: Auction, b: Auction, r: Request, p: Reply, t1: nat, t2: nat, id: nat)
    requires LogMatches(log, a.bids, a.start.startValue) && Moves(a, b, r, p, t1, t2, id)
    ensures LogMatches(log + if BidsOnOk(r, p, id) then [r.value] else [], b.bids, b.start.startValue)
  {
    if BidsOnOk(r, p, id) {
      LogStep(log, a.bids, a.start.startValue, r.value, Bid(r.uid, t2, t2 - a.start.startTime));
    } else {
      assert log + [] == log;
    }
  }

  lemma {:induction false} LogMatchesRun(run: seq<Event>, id: nat)
    requires ValidRun(run)
    ensures if id in Reached(run).auctions
            then LogMatches(AcceptedBids(run, id), Reached(run).auctions[id].bids,
              Reached(run).auctions[id].start.startValue)
            else AcceptedBids(run, id) == []
  {
    if run != [] {
      var k := |run| - 1;
      EventMoves(run, k, id);
      WholeRun(run);
      LogMatchesRun(run[..k], id);
      if id in Reached(run[..k]).auctions {
        LogMoves(AcceptedBids(run[..k], id), Reached(run[..k]).auctions[id], Reached(run).auctions[id],
                 run[k].req, ReplyAt(run, k), run[k].t1, run[k].t2, id);
      }
    }
  }

  lemma MaxIs(ids: set<nat>, m: nat)
    requires m in ids && forall id | id in ids :: id <= m
    ensures MaxOf(ids) == m
  {
  }

  /** Main result: the accepted bids of an auction rise strictly and exceed its start value; one file is
      kept for each of them and for nothing else; the largest on file is the last accepted. */
  lemma BidLog(run: seq<Event>, id: nat)
    requires ValidRun(run) && id in Reached(run).auctions
    ensures var log := AcceptedBids(run, id);
            var bids := Reached(run).auctions[id].bids;
            Increasing(log) && |bids| == |log| && (forall v :: v in bids <==> v in log) &&
            (forall v | v in log :: v > Reached(run).auctions[id].start.startValue) &&
            (log != [] ==> MaxOf(bids.Keys) == log[|log| - 1])
  {
    LogMatchesRun(run, id);
    var log, a := AcceptedBids(run, id), Reached(run).auctions[id];
    if log != [] { LastIsLargest(log, a.bids, a.start.startValue); }
  }

  lemma LastIsLargest(log: seq<nat>, bids: map<nat, Bid>, startValue: int)
    requires LogMatches(log, bids, startValue) && log != []
    ensures MaxOf(bids.Keys) == log[|log| - 1]
  {
    assert log[|log| - 1] in log;
    MaxIs(bids.Keys, log[|log| - 1]);
  }

  // ---------- Clocks ----------

  /** With separate clock readings at the check and at the stamp, an accepted bid's seconds can pass the
      end by no more than the time between the two readings. */
  lemma AcceptedBidSeconds(run: seq<Event>, k: nat)
    requires ValidRun(run) && k < |run| && run[k].req.BidOn? && ReplyAt(run, k) == Acc
    ensures var e := run[k];
            var s := Reached(run);
            e.req.aid in s.auctions && e.req.value in s.auctions[e.req.aid].bids &&
            var a := s.auctions[e.req.aid];
            a.bids[e.req.value] == Bid(e.req.uid, e.t2, e.t2 - a.start.startTime) &&
            0 <= a.bids[e.req.value].secs <= a.start.timeActive - 1 + (e.t2 - e.t1)
  {
    var id := run[k].req.aid;
    EventMoves(run, k, id);
    LaterContinues(run, k + 1, id);
    StartedBefore(run, k, id);
  }

  lemma LaterContinues(run: seq<Event>, k: nat, id: nat)
    requires ValidRun(run) && k <= |run| && ValidRun(run[..k]) && id in Reached(run[..k]).auctions
    ensures id in Reached(run).auctions && Continues(Reached(run[..k]).auctions[id], Reached(run).auctions[id])
  {
    RunGrows(run, k);
  }

  lemma StartedBefore(run: seq<Event>, k: nat, id: nat)
    requires ValidRun(run) && k < |run| && ValidRun(run[..k]) && id in Reached(run[..k]).auctions
    ensures Reached(run[..k]).auctions[id].start.startTime <= run[k].t1
  {
    ReachedInv(run[..k]);
    ValidPrefix(run, k);
    assert AuctionOk(Reached(run[..k]).auctions[id], Reached(run[..k]).users.Keys, EndTime(run[..k]));
  }

  lemma EarlyCloseSeconds(run: seq<Event>, k: nat, id: nat) returns (a: Auction)
    requires ValidRun(run) && k < |run| && ClosesOk(run[k].req, ReplyAt(run, k), id)
    ensures id in Reached(run).auctions && a == Reached(run).auctions[id]
    ensures a.end == Some(End(run[k].t2, run[k].t2 - a.start.startTime))
    ensures 0 <= a.end.value.secs <= a.start.timeActive - 1 + (run[k].t2 - run[k].t1)
  {
    EventMoves(run, k, id);
    LaterContinues(run, k + 1, id);
    StartedBefore(run, k, id);
    a := Reached(run).auctions[id];
    CloseSeconds(Reached(run[..k]).auctions[id], Reached(run[..k + 1]).auctions[id], a,
                 run[k].req, ReplyAt(run, k), run[k].t1, run[k].t2, id);
  }

  lemma CloseSeconds(a: Auction, b: Auction, c: Auction, r: Request, p: Reply, t1: nat, t2: nat, id: nat)
    requires ClosesOk(r, p, id) && Moves(a, b, r, p, t1, t2, id) && Continues(b, c)
    requires a.start.startTime <= t1 <= t2
    ensures c.end == Some(End(t2, t2 - c.start.startTime))
    ensures 0 <= c.end.value.secs <= c.start.timeActive - 1 + (t2 - t1)
  {
  }

  /** Only the owner closes an auction early. */
  lemma OnlyOwnerCloses(run: seq<Event>, k: nat, id: nat)
    requires ValidRun(run) && k < |run| && ClosesOk(run[k].req, ReplyAt(run, k), id)
    ensures ValidRun(run[..k]) && id in Reached(run[..k]).auctions
    ensures Reached(run[..k]).auctions[id].start.owner == run[k].req.uid
  {
    ValidPrefix(run, k);
    EventMoves(run, k, id);
    IndexesAgree(run[..k], run[k].req.uid, id);
  }

  /** Every request reads the clock once. */
  ghost predicate OneReading(run: seq<Event>) { forall k | 0 <= k < |run| :: run[k].t1 == run[k].t2 }

  ghost predicate Tight(a: Auction)
  {
    && (forall v: nat | v in a.bids :: a.bids[v].secs < a.start.timeActive)
    && (a.end.Some? ==> a.end.value.secs <= a.start.timeActive &&
                        forall v: nat | v in a.bids :: a.bids[v].secs <= a.end.value.secs)
  }

  lemma MovesTight(a: Auction, b: Auction, users: set<string>, r: Request, p: Reply, t0: nat, now: nat, id: nat)
    requires AuctionOk(a, users, t0) && t0 <= now && Tight(a) && Moves(a, b, r, p, now, now, id)
    ensures Tight(b)
  {
  }

  /** Main result: when check and stamp read the same time, bids end before the auction does, no END
      exceeds the time active, and no bid is later than the END of its auction. */
  lemma {:induction false} OneReadingBounds(run: seq<Event>, id: nat)
    requires ValidRun(run) && OneReading(run) && id in Reached(run).auctions
    ensures Tight(Reached(run).auctions[id])
  {
    var k := |run| - 1;
    EventMoves(run, k, id);
    WholeRun(run);
    var s := Reached(run[..k]);
    if id in s.auctions {
      OneReadingBounds(run[..k], id);
      ReachedInv(run[..k]);
      assert AuctionOk(s.auctions[id], s.users.Keys, EndTime(run[..k]));
      MovesTight(s.auctions[id], Reached(run).auctions[id], s.users.Keys, run[k].req, ReplyAt(run, k),
                 EndTime(run[..k]), run[k].t1, id);
    }
  }

  /** Seconds never decrease as bid values rise. */
  lemma SecondsFollowValues(run: seq<Event>, id: nat, v: nat, w: nat)
    requires ValidRun(run) && id in Reached(run).auctions
    requires v in Reached(run).auctions[id].bids && w in Reached(run).auctions[id].bids && v < w
    ensures Reached(run).auctions[id].bids[v].secs <= Reached(run).auctions[id].bids[w].secs
  {
    ReachedInv(run);
    assert AuctionOk(Reached(run).auctions[id], Reached(run).users.Keys, EndTime(run));
  }

  ghost predicate ClosedBy(run: seq<Event>, k: nat, id: nat, e: End, start: Start)
    requires ValidRun(run) && k < |run|
  {
    ClosesOk(run[k].req, ReplyAt(run, k), id) && e == End(run[k].t2, run[k].t2 - start.startTime)
  }

  lemma ClosedByPrefix(run: seq<Event>, n: nat, id: nat, e: End, start: Start)
    requires ValidRun(run) && n <= |run| && ValidRun(run[..n])
    requires exists k: nat :: k < n && ClosedBy(run[..n], k, id, e, start)
    ensures exists k: nat :: k < |run| && ClosedBy(run, k, id, e, start)
  {
    var k: nat :| k < n && ClosedBy(run[..n], k, id, e, start);
    assert run[..n][..k] == run[..k];
    assert ClosedBy(run, k, id, e, start);
  }

  /** An END file holds the scheduled end, or the moment a close by the owner was answered OK. */
  lemma {:induction false} EndContents(run: seq<Event>, id: nat)
    requires ValidRun(run) && id in Reached(run).auctions && Reached(run).auctions[id].end.Some?
    ensures var a := Reached(run).auctions[id];
            a.end.value == End(Deadline(a.start), a.start.timeActive) ||
            exists k: nat :: k < |run| && ClosedBy(run, k, id, a.end.value, a.start)
  {
    var n := |run| - 1;
    EventMoves(run, n, id);
    WholeRun(run);
    var s, b := Reached(run[..n]), Reached(run).auctions[id];
    var a := s.auctions[id];
    if ClosesOk(run[n].req, ReplyAt(run, n), id) {
      assert ClosedBy(run, n, id, b.end.value, b.start);
    } else if a.end.Some? {
      EndContents(run[..n], id);
      if a.end.value != End(Deadline(a.start), a.start.timeActive) {
        ClosedByPrefix(run, n, id, a.end.value, a.start);
      }
    }
  }

  // ---------- Sessions ----------

  predicate IsEntry(r: Request, p: Reply, uid: string) { r.Login? && r.uid == uid && (p == Ok || p == Reg) }

  predicate IsExit(r: Request, p: Reply, uid: string) { (r.Logout? || r.Unregister?) && r.uid == uid && p == Ok }

  /** The successful entries (true) and exits (false) of one user. */
  ghost function Sessions(run: seq<Event>, uid: string): seq<bool>
    requires ValidRun(run)
  {
    if run == [] then []
    else
      var k := |run| - 1;
      var r, p := run[k].req, ReplyAt(run, k);
      Sessions(run[..k], uid) + if IsEntry(r, p, uid) then [true] else if IsExit(r, p, uid) then [false] else []
  }

  ghost predicate SessionMoves(s: State, s': State, r: Request, p: Reply, uid: string)
  {
    if IsEntry(r, p, uid) then !LoggedIn(s, uid) && LoggedIn(s', uid)
    else if IsExit(r, p, uid) then LoggedIn(s, uid) && !LoggedIn(s', uid)
    else LoggedIn(s', uid) == LoggedIn(s, uid)
  }

  lemma AccountSessions(s: State, r: Request, t0: nat, uid: string)
    requires (r.Login? || r.Logout? || r.Unregister?) && Inv(s, t0)
    ensures r.Login? ==> var (s', p) := LoginStep(s, r.uid, r.pass); SessionMoves(s, s', r, p, uid)
    ensures r.Logout? ==> var (s', p) := LogoutStep(s, r.uid, r.pass); SessionMoves(s, s', r, p, uid)
    ensures r.Unregister? ==> var (s', p) := UnregisterStep(s, r.uid, r.pass); SessionMoves(s, s', r, p, uid)
  {
  }

  lemma OtherSessions(s: State, r: Request, t1: nat, t2: nat, uid: string)
    requires ValidRequest(r) && !r.Login? && !r.Logout? && !r.Unregister?
    ensures SessionMoves(s, Step(s, r, t1, t2).0, r, Step(s, r, t1, t2).1, uid)
  {
  }

  lemma EventSession(run: seq<Event>, k: nat, uid: string)
    requires ValidRun(run) && k < |run|
    ensures ValidRun(run[..k]) && ValidRun(run[..k + 1])
    ensures SessionMoves(Reached(run[..k]), Reached(run[..k + 1]), run[k].req, ReplyAt(run, k), uid)
  {
    ValidPrefix(run, k);
    ValidPrefix(run, k + 1);
    assert run[..k + 1][..k] == run[..k];
    var s, r := Reached(run[..k]), run[k].req;
    if r.Login? || r.Logout? || r.Unregister? {
      ReachedInv(run[..k]);
      AccountSessions(s, r, EndTime(run[..k]), uid);
    } else {
      OtherSessions(s, r, run[k].t1, run[k].t2, uid);
    }
  }

  /** true, false, true, ... */
  predicate Alternates(events: seq<bool>) { forall i | 0 <= i < |events| :: events[i] <==> i % 2 == 0 }

  lemma AlternatesMore(events: seq<bool>, e: bool)
    requires Alternates(events) && (e <==> |events| % 2 == 0)
    ensures Alternates(events + [e]) && |events + [e]| % 2 != |events| % 2
  {
  }

  /** Main result: entries and exits of a user strictly alternate, beginning with an entry, and login.txt
      is there exactly when the last one was an entry. */
  lemma {:induction false} SessionsAlternate(run: seq<Event>, uid: string)
    requires ValidRun(run)
    ensures Alternates(Sessions(run, uid))
    ensures LoggedIn(Reached(run), uid) <==> |Sessions(run, uid)| % 2 == 1
  {
    if run != [] {
      var k := |run| - 1;
      EventSession(run, k, uid);
      WholeRun(run);
      SessionsAlternate(run[..k], uid);
      var r, p := run[k].req, ReplyAt(run, k);
      if IsEntry(r, p, uid) || IsExit(r, p, uid) {
        AlternatesMore(Sessions(run[..k], uid), IsEntry(r, p, uid));
      }
    }
  }

  predicate ActsAsUser(r: Request, p: Reply)
  {
    (r.Open? && p.Opened?) || (r.BidOn? && p == Acc) || (r.Close? && p == Ok)
  }

  /** Opening, bidding and closing succeed only between an entry of that user and the next exit. */
  lemma SuccessNeedsSession(run: seq<Event>, k: nat)
    requires ValidRun(run) && k < |run| && ActsAsUser(run[k].req, ReplyAt(run, k))
    ensures ValidRun(run[..k]) && |Sessions(run[..k], run[k].req.uid)| % 2 == 1
  {
    ValidPrefix(run, k);
    SessionsAlternate(run[..k], run[k].req.uid);
  }

  // ---------- Assets ----------

  /** After an open answered OK, every later show-asset request for its identifier delivers the file
      name and bytes of that open. */
  lemma AssetStaysAvailable(run: seq<Event>, k: nat, j: nat, id: nat)
    requires ValidRun(run) && k < j < |run|
    requires run[k].req.Open? && ReplyAt(run, k) == Opened(id)
    requires run[j].req == ShowAsset(Pad3(id))
    ensures ReplyAt(run, j) == Asset(run[k].req.fname, run[k].req.upload.received)
  {
    ValidPrefix(run, k);
    ValidPrefix(run, k + 1);
    ValidPrefix(run, j);
    assert run[..k + 1][..k] == run[..k];
    assert run[..j][..k + 1] == run[..k + 1];
    assert id in Reached(run[..k + 1]).auctions;
    RunGrows(run[..j], k + 1);
    DirectoryOfId(Reached(run[..j]), id);
  }

  // ---------- Listing ----------

  /** The emptiness test before listing discards one directory entry. Answering NOK exactly when there
      is no auction fails in one case only: a single auction whose entry came first. */
  lemma ListIsTruthful(s: State, firstEntry: Option<nat>, now: nat)
    ensures (ListStep(s, firstEntry, now).1 == Nok <==> s.auctions.Keys == {}) <==>
            !(firstEntry.Some? && s.auctions.Keys == {firstEntry.value})
  {
  }

  // ---------- What a refused open leaves behind ----------

  /** NOK to an open means that nothing was opened, exactly when the request does not get as far as an
      upload that then fails: create_auction returns early but removes nothing. */
  lemma NokLeavesNothing(s: State, r: Request, now: nat)
    requires r.Open?
    ensures (OpenStep(s, r, now).1 == Nok ==> OpenStep(s, r, now).0 == s) <==>
            !(LoggedIn(s, r.uid) && PasswordOk(s, r.uid, r.pass) && !UploadSucceeds(r.fname, r.upload))
  {
    if LoggedIn(s, r.uid) && PasswordOk(s, r.uid, r.pass) {
      assert NextId(s) !in s.auctions.Keys;
      assert NextId(s) in OpenStep(s, r, now).0.auctions.Keys;
    }
  }

  // ---------- How an identifier is written ----------

  /** Of the texts of up to three digits, only three digits name a directory with their number. */
  lemma DirectoryTexts(s: State, aidText: string)
    requires GoodAidText(aidText)
    ensures aidText == Pad3(Num(aidText)) <==> |aidText| == 3
    ensures |aidText| == 0 ==> Num(aidText) == 0
  {
    if |aidText| == 3 { DecNum(aidText); }
  }

  /** A close by a logged-in user with the right password. On the number of an existing auction it is
      answered EAU exactly when the number is written with one or two digits. On any other number it is
      answered EAU too, except exactly when nothing is written: then the directory of all auctions is found,
      and the answer is EOW. */
  lemma CloseIdentifiers(run: seq<Event>, k: nat)
    requires ValidRun(run) && k < |run| && run[k].req.Close? && ValidRun(run[..k])
    requires LoggedIn(Reached(run[..k]), run[k].req.uid) &&
        PasswordOk(Reached(run[..k]), run[k].req.uid, run[k].req.pass)
    ensures var s, text, p := Reached(run[..k]), run[k].req.aidText, ReplyAt(run, k);
            AllDigits(text) &&
            if Num(text) in s.auctions then p == Eau <==> 1 <= |text| <= 2
            else (p == Eau <==> text != "") && (p == Eow <==> text == "")
  {
    var s, r := Reached(run[..k]), run[k].req;
    ReachedInv(run[..k]);
    DirectoryTexts(s, r.aidText);
    assert UserOk(s.users[r.uid], r.uid, s.auctions);
    assert Hosts(s.auctions, Num(r.aidText), r.uid) == (Num(r.aidText) in s.users[r.uid].hosted);
  }

  // ---------- Auctions without an asset ----------

  /** Asking for the asset of an existing auction is answered with nothing exactly when the name it was
      opened with is "." or "..". */
  lemma NoAssetExactly(run: seq<Event>, k: nat, id: nat)
    requires ValidRun(run) && k < |run| && run[k].req == ShowAsset(Pad3(id)) && ValidRun(run[..k])
    requires id in Reached(run[..k]).auctions
    ensures ReplyAt(run, k) == NoAsset <==> IsDot(Reached(run[..k]).auctions[id].start.fname)
  {
    ReachedInv(run[..k]);
    var s := Reached(run[..k]);
    DirectoryOfId(s, id);
    assert AuctionOk(s.auctions[id], s.users.Keys, EndTime(run[..k]));
  }
}
