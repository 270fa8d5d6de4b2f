/** Whole schedules of children and parent: the log of bids, what a child does when nobody interrupts it, and
    the states a schedule's files stand for. */
module Schedules {
  import opened Text
  import opened Domain
  import opened LazyServer
  import opened Invariants
  import opened Histories
  import opened Interleaving

  // ---------- Schedules step by step ----------

  lemma {:induction false} SchedulePrefix(actions: seq<Action>, k: nat)
    requires Schedule(actions) && k <= |actions|
    ensures Schedule(actions[..k])
    ensures k < |actions| ==> Enabled(StateAfter(actions[..k]), actions[k]) &&
                              Schedule(actions[..k + 1]) &&
                                StateAfter(actions[..k + 1]) == Do(StateAfter(actions[..k]), actions[k])
    decreases |actions|
  {
    var n := |actions| - 1;
    if k < n {
      SchedulePrefix(actions[..n], k);
      assert actions[..n][..k] == actions[..k] && actions[..n][..k + 1] == actions[..k + 1];
    } else if k == n {
      assert actions[..k + 1] == actions;
    } else {
      assert actions[..k] == actions;
    }
  }

  /** The state after the first `k` actions. */
  ghost function StateAt(actions: seq<Action>, k: nat): Global
    requires Schedule(actions) && k <= |actions|
  {
    SchedulePrefix(actions, k);
    StateAfter(actions[..k])
  }

  lemma More(actions: seq<Action>, a: Action)
    requires Schedule(actions) && Enabled(StateAfter(actions), a)
    ensures Schedule(actions + [a]) && StateAfter(actions + [a]) == Do(StateAfter(actions), a)
  {
    assert (actions + [a])[..|actions|] == actions;
  }

  // ---------- Bids in the order they are written ----------

  /** This action writes a bid file of auction `id`. */
  predicate WritesBid(g: Global, a: Action, id: nat)
  {
    a.Go? && In(g, a.pid) && g.children[a.pid].phase.pc.BidWrite? &&
    g.children[a.pid].req.BidOn? && g.children[a.pid].req.aid == id
  }

  /** The values of the bid files a schedule writes into one auction, in order. */
  ghost function Written(actions: seq<Action>, id: nat): seq<nat>
    requires Schedule(actions)
  {
    if actions == [] then []
    else
      var n := |actions| - 1;
      var g, a := StateAfter(actions[..n]), actions[n];
      Written(actions[..n], id) + if WritesBid(g, a, id) then [g.children[a.pid].req.value] else []
  }

  function StartValueOf(a: CoreAuction): int { if a.start.Some? then a.start.value.startValue else 0 }

  /** Bids are only held by auctions with a START file. */
  ghost predicate LogFits(log: seq<nat>, c: Core, id: nat)
  {
    if id in c.auctions then
      LogMatches(log, c.auctions[id].bids, StartValueOf(c.auctions[id])) && (log != [] ==> c.auctions[id].start.Some?)
    else log == []
  }

  lemma EmptyLog(bids: map<nat, Bid>, startValue: int)
    requires LogMatches([], bids, startValue) || bids == map[]
    ensures bids == map[] && forall v: int :: LogMatches([], bids, v)
  {
  }

  /** The log still fits a core that differs only where it may. */
  lemma LogStays(log: seq<nat>, c: Core, c': Core, id: nat)
    requires LogFits(log, c, id)
    requires if id in c.auctions then
               id in c'.auctions && c'.auctions[id].bids == c.auctions[id].bids &&
               (c.auctions[id].start.Some? ==> c'.auctions[id].start == c.auctions[id].start)
             else id in c'.auctions ==> c'.auctions[id].bids == map[]
    ensures LogFits(log, c', id)
  {
    if log == [] && id in c'.auctions {
      EmptyLog(c'.auctions[id].bids, if id in c.auctions then StartValueOf(c.auctions[id]) else 0);
    }
  }

  lemma LogGrows(log: seq<nat>, c: Core, r: Request, now: nat)
    requires r.BidOn? && LogFits(log, c, r.aid) && Biddable(c, r.aid, r.value, r.uid)
    ensures LogFits(log + [r.value], AddBid(c, r.aid, r.value, r.uid, now), r.aid)
  {
    var a := c.auctions[r.aid];
    LogStep(log, a.bids, a.start.value.startValue, r.value, Bid(r.uid, now, now - a.start.value.startTime));
  }

  lemma WorkLog(base: Core, c: Core, sh: Shared, r: Request, pc: Pc, now: nat, id: nat, log: seq<nat>)
    requires Fits(r, pc) && !pc.Finished? && Progress(base, r, pc, c) && NextCoreId(base) !in base.auctions
    requires LogFits(log, c, id)
    ensures LogFits(if pc.BidWrite? && r.aid == id then log + [r.value] else log, Work(c, sh, r, pc, now).0, id)
  {
    if pc.BidWrite? && r.aid == id {
      WorkWritesBid(base, c, sh, r, now);
      LogGrows(log, c, r, now);
    } else {
      WorkKeepsBids(base, c, sh, r, pc, now, id);
      LogStays(log, c, Work(c, sh, r, pc, now).0, id);
    }
  }

  lemma DoLog(g: Global, a: Action, id: nat, log: seq<nat>)
    requires GInv(g) && Enabled(g, a) && LogFits(log, g.core, id)
    ensures LogFits(if WritesBid(g, a, id) then log + [g.children[a.pid].req.value] else log, Do(g, a).core, id)
  {
    if a.Go? {
      assert Insider(g) == Some(a.pid);
      ReplayInv(g.history);
      NextCoreIdIsFresh(Replay(g.history));
      WorkLog(Replay(g.history), g.core, g.shared, g.children[a.pid].req, g.children[a.pid].phase.pc, a.now, id, log);
    }
  }

  lemma {:induction false} LogFitsSchedule(actions: seq<Action>, id: nat)
    requires Schedule(actions)
    ensures LogFits(Written(actions, id), StateAfter(actions).core, id)
  {
    if actions != [] {
      var n := |actions| - 1;
      var g, a, log := StateAfter(actions[..n]), actions[n], Written(actions[..n], id);
      LogFitsSchedule(actions[..n], id);
      ReachedGInv(actions[..n]);
      DoLog(g, a, id, log);
      assert log + [] == log;
    }
  }

  /** Main result: over every schedule, the bid files written into an auction rise strictly and exceed its
      start value; each is kept and there are no others; the largest on file is the last written. */
  lemma BidLogOfSchedule(actions: seq<Action>, id: nat)
    requires Schedule(actions) && id in StateAfter(actions).core.auctions
    ensures var log, a := Written(actions, id), StateAfter(actions).core.auctions[id];
            Increasing(log) && |a.bids| == |log| && (forall v :: v in a.bids <==> v in log) &&
            (log != [] ==> a.start.Some? && MaxOf(a.bids.Keys) == log[|log| - 1] &&
                           forall v | v in log :: v > a.start.value.startValue)
  {
    LogFitsSchedule(actions, id);
    var log, a := Written(actions, id), StateAfter(actions).core.auctions[id];
    if log != [] { LastIsLargest(log, a.bids, StartValueOf(a)); }
  }

  // ---------- A child nobody interrupts ----------

  function SharedOf(s: State): Shared
  {
    Shared(map uid | uid in s.users && s.users[uid].pass.Some? :: s.users[uid].pass.value,
           set uid | uid in s.users && s.users[uid].login,
           map id | id in s.auctions && s.auctions[id].end.Some? :: s.auctions[id].end.value)
  }

  /** All that is left of a child's work, `clock(pc)` being what it reads at each step. */
  ghost function Alone(c: Core, sh: Shared, r: Request, pc: Pc, clock: Pc -> nat): (Core, Shared, Outcome)
    requires Fits(r, pc)
    decreases PcStepsLeft(pc)
  {
    if pc.Finished? then (c, sh, pc.outcome)
    else
      WorkAdvances(c, sh, r, pc, clock(pc));
      WorkFits(c, sh, r, pc, clock(pc));
      var (c', sh', pc') := Work(c, sh, r, pc, clock(pc));
      Alone(c', sh', r, pc', clock)
  }

  lemma WorkFits(c: Core, sh: Shared, r: Request, pc: Pc, now: nat)
    requires Fits(r, pc) && !pc.Finished?
    ensures Fits(r, Work(c, sh, r, pc, now).2)
  {
  }

  /** A failed check ends the child with nothing more done. */
  lemma AloneRefused(c: Core, sh: Shared, r: Request, clock: Pc -> nat)
    requires IsTcp(r)
    ensures Alone(c, sh, r, REFUSED, clock) == (c, sh, Outcome(false, 0))
  {
  }

  /** One step and the rest. */
  lemma AloneStep(c: Core, sh: Shared, r: Request, pc: Pc, clock: Pc -> nat, c': Core, sh': Shared, pc': Pc)
    requires Fits(r, pc) && !pc.Finished? && Work(c, sh, r, pc, clock(pc)) == (c', sh', pc')
    ensures Fits(r, pc') && Alone(c, sh, r, pc, clock) == Alone(c', sh', r, pc', clock)
  {
    WorkFits(c, sh, r, pc, clock(pc));
    WorkAdvances(c, sh, r, pc, clock(pc));
  }

  /** When the clock is read for the check of END, and when for the stamp. */
  function CheckPc(r: Request): Pc { if r.BidOn? then BidClock else CloseClock }

  ghost function StampPc(s: State, r: Request): Pc
  {
    if r.Open? then OpenStart(NextId(s)) else if r.BidOn? then BidWrite else CloseEnd
  }

  /** A look at an auction, step by step. */
  lemma LookAtIs(s: State, id: nat, now: nat)
    ensures Overdue(CoreOf(s), id, now) <==> id in s.auctions && now >= Deadline(s.auctions[id].start)
    ensures InTime(CoreOf(s), id, now) <==> id in s.auctions && now < Deadline(s.auctions[id].start)
    ensures id in SharedOf(s).ended <==> id in s.auctions && s.auctions[id].end.Some?
    ensures Ongoing(s, id, now) <==> id !in SharedOf(s).ended && InTime(CoreOf(s), id, now)
  {
  }

  lemma NoticedFiles(s: State, id: nat, now: nat)
    ensures CoreOf(Notice(s, {id}, now)) == CoreOf(s)
    ensures SharedOf(Notice(s, {id}, now)) ==
            if id !in SharedOf(s).ended && Overdue(CoreOf(s), id, now) then Expire(CoreOf(s), SharedOf(s), id)
            else SharedOf(s)
  {
    CoreOfNotice(s, {id}, now);
    LookAtIs(s, id, now);
    var sh, sh' := SharedOf(s), SharedOf(Notice(s, {id}, now));
    assert sh'.pass == sh.pass && sh'.login == sh.login;
    if id !in sh.ended && Overdue(CoreOf(s), id, now) {
      assert sh'.ended == Expire(CoreOf(s), sh, id).ended;
    } else {
      assert sh'.ended == sh.ended;
    }
  }

  lemma AccountChecks(s: State, uid: string, pass: string)
    ensures uid in SharedOf(s).login <==> LoggedIn(s, uid)
    ensures OwnPassword(SharedOf(s), uid, pass) <==> PasswordOk(s, uid, pass)
    ensures uid in SharedOf(s).pass <==> Exists(s, uid)
  {
  }

  /** What an uninterrupted child leaves: the files of the request-at-a-time state, and how its checks came out. */
  ghost predicate LeavesStep(s: State, r: Request, clock: Pc -> nat, result: (Core, Shared, Outcome))
    requires ValidRequest(r)
  {
    var t1, t2 := clock(CheckPc(r)), clock(StampPc(s, r));
    var s' := Step(s, r, t1, t2).0;
    result.0 == CoreOf(s') && result.1 == SharedOf(s') && result.2.passed == ChecksPass(s, r, t1)
  }

  lemma AloneBid(s: State, r: Request, clock: Pc -> nat)
    requires r.BidOn? && ValidRequest(r)
    ensures LeavesStep(s, r, clock, Alone(CoreOf(s), SharedOf(s), r, BidLogin, clock))
  {
    var c, sh := CoreOf(s), SharedOf(s);
    AccountChecks(s, r.uid, r.pass);
    AloneRefused(c, sh, r, clock);
    AloneStep(c, sh, r, BidLogin, clock, c, sh, Check(LoggedIn(s, r.uid), BidPassword));
    if LoggedIn(s, r.uid) {
      AloneStep(c, sh, r, BidPassword, clock, c, sh, Check(PasswordOk(s, r.uid, r.pass), BidSee));
      if PasswordOk(s, r.uid, r.pass) { AloneBidChecked(s, r, clock); }
    }
  }

  lemma AloneBidChecked(s: State, r: Request, clock: Pc -> nat)
    requires r.BidOn? && ValidRequest(r) && LoggedIn(s, r.uid) && PasswordOk(s, r.uid, r.pass)
    ensures LeavesStep(s, r, clock, Alone(CoreOf(s), SharedOf(s), r, BidSee, clock))
  {
    var c, sh, id := CoreOf(s), SharedOf(s), r.aid;
    var t1 := clock(BidClock);
    LookAtIs(s, id, t1);
    NoticedFiles(s, id, t1);
    AloneRefused(c, sh, r, clock);
    AloneStep(c, sh, r, BidSee, clock, c, sh, Check(id !in sh.ended, BidClock));
    if id !in sh.ended {
      if Overdue(c, id, t1) {
        AloneStep(c, sh, r, BidClock, clock, c, sh, BidExpire);
        AloneStep(c, sh, r, BidExpire, clock, c, Expire(c, sh, id), REFUSED);
        AloneRefused(c, Expire(c, sh, id), r, clock);
      } else {
        AloneStep(c, sh, r, BidClock, clock, c, sh, Check(InTime(c, id, t1), BidHosted));
        if InTime(c, id, t1) {
          NoticeUnendedIsSame(s, id, t1);
          AloneBidOpen(s, r, clock);
        }
      }
    }
  }

  lemma AloneBidOpen(s: State, r: Request, clock: Pc -> nat)
    requires r.BidOn? && ValidRequest(r) && LoggedIn(s, r.uid) && PasswordOk(s, r.uid, r.pass)
    requires Ongoing(s, r.aid, clock(BidClock)) && Notice(s, {r.aid}, clock(BidClock)) == s
    ensures LeavesStep(s, r, clock, Alone(CoreOf(s), SharedOf(s), r, BidHosted, clock))
  {
    var c, sh, id := CoreOf(s), SharedOf(s), r.aid;
    assert (r.uid, id) in c.hosted <==> id in s.users[r.uid].hosted;
    if id in s.users[r.uid].hosted {
      AloneStep(c, sh, r, BidHosted, clock, c, sh, Finished(Outcome(true, clock(BidHosted))));
    } else {
      AloneStep(c, sh, r, BidHosted, clock, c, sh, BidScan);
      assert Biddable(c, id, r.value, r.uid) <==> Outbids(s.auctions[id], r.value);
      if Outbids(s.auctions[id], r.value) {
        var t2 := clock(BidWrite);
        var c1 := AddBid(c, id, r.value, r.uid, t2);
        AloneStep(c, sh, r, BidScan, clock, c, sh, BidWrite);
        AloneStep(c, sh, r, BidWrite, clock, c1, sh, BidIndex(t2));
        var c2 := c1.(bidded := c1.bidded + {(r.uid, id)});
        AloneStep(c1, sh, r, BidIndex(t2), clock, c2, sh, Finished(Outcome(true, t2)));
        CoreOfBid(s, id, r.value, r.uid, t2);
        SharedOfBid(s, id, r.value, r.uid, t2);
      } else {
        AloneStep(c, sh, r, BidScan, clock, c, sh, Finished(Outcome(true, clock(BidScan))));
      }
    }
  }

  lemma SharedOfBid(s: State, id: nat, value: nat, uid: string, now: nat)
    requires id in s.auctions && uid in s.users
    ensures SharedOf(PlaceBid(s, id, value, uid, now)) == SharedOf(s)
  {
  }

  lemma SharedOfOpen(s: State, start: Start, upload: Upload)
    requires start.owner in s.users
    ensures SharedOf(CreateAuction(s, start, upload)) == SharedOf(s)
  {
    assert NextId(s) !in s.auctions.Keys;
  }

  lemma AloneOpen(s: State, r: Request, clock: Pc -> nat)
    requires r.Open? && ValidRequest(r)
    ensures LeavesStep(s, r, clock, Alone(CoreOf(s), SharedOf(s), r, OpenExists, clock))
  {
    var c, sh := CoreOf(s), SharedOf(s);
    AccountChecks(s, r.uid, r.pass);
    AloneRefused(c, sh, r, clock);
    AloneStep(c, sh, r, OpenExists, clock, c, sh, Check(Exists(s, r.uid), OpenPassword));
    if Exists(s, r.uid) {
      AloneStep(c, sh, r, OpenPassword, clock, c, sh, Check(PasswordOk(s, r.uid, r.pass), OpenLogin));
      if PasswordOk(s, r.uid, r.pass) {
        AloneStep(c, sh, r, OpenLogin, clock, c, sh, Check(LoggedIn(s, r.uid), OpenScan));
        if LoggedIn(s, r.uid) { AloneOpenChecked(s, r, clock); }
      }
    }
  }

  lemma AloneOpenChecked(s: State, r: Request, clock: Pc -> nat)
    requires r.Open? && ValidRequest(r) && Exists(s, r.uid) && PasswordOk(s, r.uid, r.pass) && LoggedIn(s, r.uid)
    ensures LeavesStep(s, r, clock, Alone(CoreOf(s), SharedOf(s), r, OpenScan, clock))
  {
    var c, sh, id := CoreOf(s), SharedOf(s), NextId(s);
    assert c.auctions.Keys == s.auctions.Keys;
    AloneStep(c, sh, r, OpenScan, clock, c, sh, OpenHosted(id));
    AloneCreates(c, sh, r, id, clock);
    CoreOfOpen(s, r, clock(OpenStart(id)));
    SharedOfOpen(s, StartOf(r, clock(OpenStart(id))), r.upload);
  }

  lemma AloneCreates(c: Core, sh: Shared, r: Request, id: nat, clock: Pc -> nat)
    requires r.Open? && id == NextCoreId(c)
    ensures var o := Outcome(true, clock(OpenStart(id)));
            Alone(c, sh, r, OpenHosted(id), clock) == (Serial(c, r, o), sh, o)
  {
    var t2, asset := clock(OpenStart(id)), StoredAsset(r.fname, r.upload);
    var c1 := c.(hosted := c.hosted + {(r.uid, id)});
    var c2 := c1.(auctions := c1.auctions[id := CoreAuction(None, map[], None)]);
    var c3 := c2.(auctions := c2.auctions[id := CoreAuction(Some(StartOf(r, t2)), map[], None)]);
    var c4 := Store(c3, id, asset);
    AloneStep(c, sh, r, OpenHosted(id), clock, c1, sh, OpenMkdir(id));
    AloneStep(c1, sh, r, OpenMkdir(id), clock, c2, sh, OpenStart(id));
    AloneStep(c2, sh, r, OpenStart(id), clock, c3, sh, OpenAsset(id, t2));
    AloneStep(c3, sh, r, OpenAsset(id, t2), clock, c4, sh, Finished(Outcome(true, t2)));
    assert c4.auctions == c.auctions[id := CoreAuction(Some(StartOf(r, t2)), map[], asset)];
  }

  lemma AloneClose(s: State, r: Request, clock: Pc -> nat)
    requires r.Close? && ValidRequest(r)
    ensures LeavesStep(s, r, clock, Alone(CoreOf(s), SharedOf(s), r, CloseLogin, clock))
  {
    var c, sh, id := CoreOf(s), SharedOf(s), Num(r.aidText);
    AccountChecks(s, r.uid, r.pass);
    AloneRefused(c, sh, r, clock);
    AloneStep(c, sh, r, CloseLogin, clock, c, sh, Check(LoggedIn(s, r.uid), ClosePassword));
    if LoggedIn(s, r.uid) {
      AloneStep(c, sh, r, ClosePassword, clock, c, sh, Check(PasswordOk(s, r.uid, r.pass), CloseExists));
      if PasswordOk(s, r.uid, r.pass) {
        AloneStep(c, sh, r, CloseExists, clock, c, sh, Check(DirectoryExists(s, r.aidText), CloseHosted));
        if DirectoryExists(s, r.aidText) {
          assert (r.uid, id) in c.hosted <==> id in s.users[r.uid].hosted;
          AloneStep(c, sh, r, CloseHosted, clock, c, sh, Check(id in s.users[r.uid].hosted, CloseSee));
          if id in s.users[r.uid].hosted { AloneCloseChecked(s, r, clock); }
        }
      }
    }
  }

  lemma AloneCloseChecked(s: State, r: Request, clock: Pc -> nat)
    requires r.Close? && ValidRequest(r) && LoggedIn(s, r.uid) && PasswordOk(s, r.uid, r.pass)
    requires DirectoryExists(s, r.aidText) && Num(r.aidText) in s.users[r.uid].hosted
    ensures LeavesStep(s, r, clock, Alone(CoreOf(s), SharedOf(s), r, CloseSee, clock))
  {
    var c, sh, id := CoreOf(s), SharedOf(s), Num(r.aidText);
    var t1, t2 := clock(CloseClock), clock(CloseEnd);
    LookAtIs(s, id, t1);
    NoticedFiles(s, id, t1);
    AloneRefused(c, sh, r, clock);
    AloneStep(c, sh, r, CloseSee, clock, c, sh, Check(id !in sh.ended, CloseClock));
    if id !in sh.ended {
      if Overdue(c, id, t1) {
        AloneStep(c, sh, r, CloseClock, clock, c, sh, CloseExpire);
        AloneStep(c, sh, r, CloseExpire, clock, c, Expire(c, sh, id), REFUSED);
        AloneRefused(c, Expire(c, sh, id), r, clock);
      } else {
        AloneStep(c, sh, r, CloseClock, clock, c, sh, Check(InTime(c, id, t1), CloseEnd));
        if InTime(c, id, t1) {
          AloneStep(c, sh, r, CloseEnd, clock, c, EndEarly(c, sh, id, t2), Finished(Outcome(true, t2)));
          ClosedFiles(s, id, t2);
        }
      }
    }
  }

  lemma ClosedFiles(s: State, id: nat, now: nat)
    requires id in s.auctions
    ensures CoreOf(CloseAuction(s, id, now)) == CoreOf(s)
    ensures SharedOf(CloseAuction(s, id, now)) == EndEarly(CoreOf(s), SharedOf(s), id, now)
  {
    assert SharedOf(CloseAuction(s, id, now)).ended == EndEarly(CoreOf(s), SharedOf(s), id, now).ended;
  }

  /** Main result: a child that runs from its first step to its last without interruption leaves all files as
      the handler of its request leaves the state, and its checks come out as the handler's, whatever clock
      readings it sees at its steps. */
  lemma AloneIsStep(s: State, r: Request, clock: Pc -> nat)
    requires ValidRequest(r) && IsTcp(r)
    ensures LeavesStep(s, r, clock, Alone(CoreOf(s), SharedOf(s), r, FirstPc(r), clock))
  {
    match r
    case Open(_, _, _, _, _, _, _) => AloneOpen(s, r, clock);
    case BidOn(_, _, _, _) => AloneBid(s, r, clock);
    case Close(_, _, _) => AloneClose(s, r, clock);
    case ShowAsset(_) =>
      var c, sh := CoreOf(s), SharedOf(s);
      AloneStep(c, sh, r, AssetRead, clock, c, sh, Finished(Outcome(true, clock(AssetRead))));
  }

  /** Every action from the given one on is a move of child `p` inside its locks. */
  predicate OnlyGoes(actions: seq<Action>, from: nat, p: nat)
  {
    forall i | from <= i < |actions| :: actions[i].Go? && actions[i].pid == p
  }

  /** In any schedule the child inside can go on alone to its end; with these readings it does what Alone says. */
  lemma {:induction false} AloneInSchedule(actions: seq<Action>, p: nat, clock: Pc -> nat) returns (more: seq<Action>)
    requires Schedule(actions) && In(StateAfter(actions), p)
    ensures |actions| <= |more| && more[..|actions|] == actions && OnlyGoes(more, |actions|, p) && Schedule(more)
    ensures var g, g' := StateAfter(actions), StateAfter(more);
            Fits(g.children[p].req, g.children[p].phase.pc) && In(g', p) && g'.children[p].req == g.children[p].req &&
            g'.children[p].phase.pc.Finished? &&
            (g'.core, g'.shared, g'.children[p].phase.pc.outcome) ==
            Alone(g.core, g.shared, g.children[p].req, g.children[p].phase.pc, clock)
    decreases PcStepsLeft(StateAfter(actions).children[p].phase.pc)
  {
    var g := StateAfter(actions);
    InsideFits(actions, p);
    var pc := g.children[p].phase.pc;
    if pc.Finished? {
      more := actions;
    } else {
      var a := Go(p, clock(pc));
      More(actions, a);
      WorkAdvances(g.core, g.shared, g.children[p].req, pc, clock(pc));
      more := AloneInSchedule(actions + [a], p, clock);
      assert more[..|actions|] == more[..|actions| + 1][..|actions|];
    }
  }

  lemma InsideFits(actions: seq<Action>, p: nat)
    requires Schedule(actions) && In(StateAfter(actions), p)
    ensures Fits(StateAfter(actions).children[p].req, StateAfter(actions).children[p].phase.pc)
  {
    ReachedGInv(actions);
    assert Insider(StateAfter(actions)) == Some(p);
  }

  // ---------- The files of a schedule are those of a state ----------

  function UsersIn(c: Core, sh: Shared): set<string>
  {
    sh.pass.Keys + sh.login + (set entry | entry in c.hosted :: entry.0) + (set entry | entry in c.bidded :: entry.0)
  }

  function UserIn(c: Core, sh: Shared, uid: string): User
  {
    User(if uid in sh.pass then Some(sh.pass[uid]) else None, uid in sh.login,
         set id | id in c.auctions && (uid, id) in c.hosted, set id | id in c.auctions && (uid, id) in c.bidded)
  }

  function AuctionIn(c: Core, sh: Shared, id: nat): Auction
    requires id in c.auctions && c.auctions[id].start.Some?
  {
    var a := c.auctions[id];
    Auction(a.start.value, a.bids, if id in sh.ended then Some(sh.ended[id]) else None, a.asset)
  }

  /** The state these files stand for. */
  function StateOf(c: Core, sh: Shared): State
    requires forall id | id in c.auctions :: c.auctions[id].start.Some?
  {
    State(map uid | uid in UsersIn(c, sh) :: UserIn(c, sh, uid), map id | id in c.auctions :: AuctionIn(c, sh, id))
  }

  lemma StateHasHosted(c: Core, sh: Shared, entry: (string, nat))
    requires CoreInv(c)
    ensures entry in CoreOf(StateOf(c, sh)).hosted <==> entry in c.hosted
    ensures entry in CoreOf(StateOf(c, sh)).bidded <==> entry in c.bidded
  {
    var (uid, id) := entry;
    assert (uid, id) in c.hosted || (uid, id) in c.bidded ==> id in c.auctions && uid in UsersIn(c, sh);
  }

  lemma StateHasShared(c: Core, sh: Shared)
    requires CoreInv(c) && sh.ended.Keys <= c.auctions.Keys
    ensures SharedOf(StateOf(c, sh)) == sh
  {
    var sh' := SharedOf(StateOf(c, sh));
    assert sh'.pass == sh.pass;
    assert sh'.login == sh.login;
    assert sh'.ended == sh.ended;
  }

  lemma StateHasFiles(c: Core, sh: Shared)
    requires CoreInv(c) && sh.ended.Keys <= c.auctions.Keys
    ensures CoreOf(StateOf(c, sh)) == c && SharedOf(StateOf(c, sh)) == sh
  {
    var c' := CoreOf(StateOf(c, sh));
    StateHasShared(c, sh);
    forall entry: (string, nat)
      ensures (entry in c'.hosted <==> entry in c.hosted) && (entry in c'.bidded <==> entry in c.bidded)
    {
      StateHasHosted(c, sh, entry);
    }
    assert c'.hosted == c.hosted && c'.bidded == c.bidded;
    assert c'.auctions == c.auctions;
  }

  lemma {:induction false} EndsHaveAuctions(actions: seq<Action>)
    requires Schedule(actions)
    ensures StateAfter(actions).shared.ended.Keys <= StateAfter(actions).core.auctions.Keys
  {
    if actions != [] {
      var n := |actions| - 1;
      EndsHaveAuctions(actions[..n]);
      DoKeepsAuctions(StateAfter(actions[..n]), actions[n]);
    }
  }

  lemma DoKeepsAuctions(g: Global, a: Action)
    requires Enabled(g, a) && g.shared.ended.Keys <= g.core.auctions.Keys
    ensures Do(g, a).shared.ended.Keys <= Do(g, a).core.auctions.Keys
  {
  }

  /** Whenever a child is about to take its first step, the files are those of a state. */
  lemma FirstStepHasState(actions: seq<Action>, p: nat)
    requires Schedule(actions) && In(StateAfter(actions), p) && IsTcp(StateAfter(actions).children[p].req)
    requires StateAfter(actions).children[p].phase.pc == FirstPc(StateAfter(actions).children[p].req)
    ensures var g := StateAfter(actions);
            CoreInv(g.core) && ValidRequest(g.children[p].req) &&
            CoreOf(StateOf(g.core, g.shared)) == g.core && SharedOf(StateOf(g.core, g.shared)) == g.shared
  {
    var g := StateAfter(actions);
    ReachedGInv(actions);
    assert Insider(g) == Some(p);
    ReplayInv(g.history);
    EndsHaveAuctions(actions);
    StateHasFiles(g.core, g.shared);
  }

  /** Main result: in every schedule, a child about to take its first step finds the files of some state, and
      if it is let run to its end, it leaves the files of the state its handler would leave, its checks coming
      out as the handler's. */
  lemma ChildDoesItsHandler(actions: seq<Action>, p: nat, clock: Pc -> nat) returns (s: State, more: seq<Action>)
    requires Schedule(actions) && In(StateAfter(actions), p) && IsTcp(StateAfter(actions).children[p].req)
    requires StateAfter(actions).children[p].phase.pc == FirstPc(StateAfter(actions).children[p].req)
    ensures CoreOf(s) == StateAfter(actions).core && SharedOf(s) == StateAfter(actions).shared
    ensures |actions| <= |more| && more[..|actions|] == actions && OnlyGoes(more, |actions|, p) && Schedule(more)
    ensures var g, r := StateAfter(more), StateAfter(actions).children[p].req;
            ValidRequest(r) && In(g, p) && g.children[p].phase.pc.Finished? &&
            LeavesStep(s, r, clock, (g.core, g.shared, g.children[p].phase.pc.outcome))
  {
    var g := StateAfter(actions);
    FirstStepHasState(actions, p);
    s := StateOf(g.core, g.shared);
    more := AloneInSchedule(actions, p, clock);
    AloneIsStep(s, g.children[p].req, clock);
  }

  // ---------- The parent's writes ----------

  ghost function AfterWrites(c: Core, sh: Shared, writes: seq<ParentStep>): Shared
  {
    if writes == [] then sh else ParentMove(c, AfterWrites(c, sh, writes[..|writes| - 1]), Idle, writes[|writes| - 1]).0
  }

  /** What the handlers of accounts write, in order. */
  function AccountWrites(s: State, r: Request): seq<ParentStep>
    requires r.Login? || r.Logout? || r.Unregister?
  {
    if r.Login? then
      if !Exists(s, r.uid) then [PutPass(r.uid, r.pass), PutLogin(r.uid)]
      else if PasswordOk(s, r.uid, r.pass) && !LoggedIn(s, r.uid) then [PutLogin(r.uid)] else []
    else if !PasswordOk(s, r.uid, r.pass) || !LoggedIn(s, r.uid) then []
    else if r.Logout? then [RemoveLogin(r.uid)] else [RemovePass(r.uid), RemoveLogin(r.uid)]
  }

  /** The steps the schedules allow the parent are those of its handlers: accounts are these writes, and a
      look at an auction is one of the others. */
  lemma ParentWrites(s: State, r: Request, t1: nat, t2: nat)
    requires (r.Login? || r.Logout? || r.Unregister?) && ValidRequest(r)
    ensures SharedOf(Step(s, r, t1, t2).0) == AfterWrites(CoreOf(s), SharedOf(s), AccountWrites(s, r))
    ensures CoreOf(Step(s, r, t1, t2).0) == CoreOf(s)
  {
    AtomicIsSerial(s, r, t1, t2);
    AccountChecks(s, r.uid, r.pass);
    WritesAre(CoreOf(s), SharedOf(s), AccountWrites(s, r));
    if r.Login? { LoginWrites(s, r.uid, r.pass); } else { ExitWrites(s, r.uid, r.pass); }
  }

  lemma WritesAre(c: Core, sh: Shared, writes: seq<ParentStep>)
    ensures |writes| == 1 ==> AfterWrites(c, sh, writes) == ParentMove(c, sh, Idle, writes[0]).0
    ensures |writes| == 2 ==>
        AfterWrites(c, sh, writes) == ParentMove(c, ParentMove(c, sh, Idle, writes[0]).0, Idle, writes[1]).0
  {
    if |writes| > 0 { assert writes[..1][..0] == []; }
    if |writes| == 2 { assert AfterWrites(c, sh, writes[..1]) == ParentMove(c, sh, Idle, writes[0]).0; }
  }

  lemma LoginWrites(s: State, uid: string, pass: string)
    ensures var s', sh := LoginStep(s, uid, pass).0, SharedOf(s);
            SharedOf(s') == if !Exists(s, uid) then Shared(sh.pass[uid := pass], sh.login + {uid}, sh.ended)
                            else if PasswordOk(s, uid, pass) && !LoggedIn(s, uid) then sh.(login := sh.login + {uid})
                            else sh
  {
    var s', sh := LoginStep(s, uid, pass).0, SharedOf(s);
    assert SharedOf(s').pass == if !Exists(s, uid) then sh.pass[uid := pass] else sh.pass;
  }

  lemma ExitWrites(s: State, uid: string, pass: string)
    ensures var may, sh := PasswordOk(s, uid, pass) && LoggedIn(s, uid), SharedOf(s);
            SharedOf(LogoutStep(s, uid, pass).0) == (if may then sh.(login := sh.login - {uid}) else sh) &&
            SharedOf(UnregisterStep(s, uid, pass).0) ==
            (if may then Shared(sh.pass - {uid}, sh.login - {uid}, sh.ended) else sh)
  {
    var sh := SharedOf(s);
    assert SharedOf(LogoutStep(s, uid, pass).0).pass == sh.pass;
    if PasswordOk(s, uid, pass) && LoggedIn(s, uid) {
      assert SharedOf(UnregisterStep(s, uid, pass).0).pass == sh.pass - {uid};
    }
  }

  /** `ongoing_auction` in the parent: the steps it takes one after another. */
  function ParentLook(c: Core, sh: Shared, id: nat, now: nat): (Shared, Parent)
  {
    var (sh1, p1) := ParentMove(c, sh, Idle, SeeEnd(id));
    if p1.Idle? then (sh1, p1)
    else
      var (sh2, p2) := ParentMove(c, sh1, p1, ReadClock(now));
      if p2.Idle? then (sh2, p2) else ParentMove(c, sh2, p2, WriteEnd)
  }

  lemma ParentLooks(s: State, id: nat, now: nat)
    ensures ParentLook(CoreOf(s), SharedOf(s), id, now) == (SharedOf(Notice(s, {id}, now)), Idle)
    ensures CoreOf(Notice(s, {id}, now)) == CoreOf(s)
  {
    LookAtIs(s, id, now);
    NoticedFiles(s, id, now);
  }
}
