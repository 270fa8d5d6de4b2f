/** What requests that overlap can do to END files: bids in ended auctions and closes that are undone, and
    exactly when. */
module Overlaps {
  import opened Text
  import opened Domain
  import opened LazyServer
  import opened Interleaving
  import opened Schedules

  // ---------- Looks at an auction ----------

  /** A child that has seen no END of `id` and relies on it: it is on the way to writing a bid or END. */
  predicate Relies(g: Global, p: nat, id: nat)
  {
    In(g, p) && OnTheWay(g.children[p].req, g.children[p].phase.pc, id)
  }

  predicate OnTheWay(r: Request, pc: Pc, id: nat)
  {
    (r.BidOn? && r.aid == id && (pc.BidClock? || pc.BidHosted? || pc.BidScan? || pc.BidWrite?)) ||
    (r.Close? && AllDigits(r.aidText) && Num(r.aidText) == id && (pc.CloseClock? || pc.CloseEnd?))
  }

  /** A child that is about to write the END it found overdue. */
  predicate Expires(g: Global, p: nat, id: nat)
  {
    In(g, p) && AboutToExpire(g.children[p].req, g.children[p].phase.pc, id)
  }

  predicate AboutToExpire(r: Request, pc: Pc, id: nat)
  {
    (r.BidOn? && r.aid == id && pc.BidExpire?) ||
    (r.Close? && AllDigits(r.aidText) && Num(r.aidText) == id && pc.CloseExpire?)
  }

  predicate ParentLooking(g: Global, id: nat) { g.parent == SawNoEnd(id) || g.parent == FoundOverdue(id) }

  /** The parent writes END of `id`. */
  predicate ParentEnds(g: Global, a: Action, id: nat) { a == Udp(WriteEnd) && g.parent == FoundOverdue(id) }

  // ---------- START files stay ----------

  lemma WorkKeepsStarts(base: Core, c: Core, sh: Shared, r: Request, pc: Pc, now: nat, id: nat)
    requires Fits(r, pc) && !pc.Finished? && Progress(base, r, pc, c) && NextCoreId(base) !in base.auctions
    requires id in c.auctions && c.auctions[id].start.Some?
    ensures var c' := Work(c, sh, r, pc, now).0; id in c'.auctions && c'.auctions[id].start == c.auctions[id].start
  {
  }

  lemma StartStays(g: Global, a: Action, id: nat)
    requires GInv(g) && Enabled(g, a) && id in g.core.auctions && g.core.auctions[id].start.Some?
    ensures id in Do(g, a).core.auctions && Do(g, a).core.auctions[id].start == g.core.auctions[id].start
  {
    if a.Go? {
      assert Insider(g) == Some(a.pid);
      ReplayInv(g.history);
      NextCoreIdIsFresh(Replay(g.history));
      var child := g.children[a.pid];
      WorkKeepsStarts(Replay(g.history), g.core, g.shared, child.req, child.phase.pc, a.now, id);
    }
  }

  // ---------- The parent finds an auction overdue only by the clock ----------

  /** A clock reading of the parent at or after the deadline. */
  predicate LateReading(a: Action, c: Core, id: nat) { a.Udp? && a.step.ReadClock? && Overdue(c, id, a.step.now) }

  ghost predicate WasLate(actions: seq<Action>, c: Core, id: nat)
  {
    exists j :: 0 <= j < |actions| && LateReading(actions[j], c, id)
  }

  /** When the parent is about to write END, some reading of its clock was at or after the deadline. */
  lemma {:induction false} OverdueIsLate(actions: seq<Action>, id: nat)
    requires Schedule(actions) && StateAfter(actions).parent == FoundOverdue(id)
    ensures var c := StateAfter(actions).core;
            id in c.auctions && c.auctions[id].start.Some? && WasLate(actions, c, id)
  {
    var n := |actions| - 1;
    var before, a := actions[..n], actions[n];
    var g, g' := StateAfter(before), StateAfter(actions);
    ReachedGInv(before);
    if g.parent == FoundOverdue(id) {
      OverdueIsLate(before, id);
      StartStays(g, a, id);
      var j :| 0 <= j < n && LateReading(before[j], g.core, id);
      assert LateReading(actions[j], g'.core, id);
    } else {
      assert LateReading(actions[n], g'.core, id);
    }
  }

  // ---------- Does END come before the write that relies on there being none ----------

  /** While a child relies on there being no END, only the parent can write it, and nothing else the child
      depends on changes. */
  lemma OnlyParentEnds(g: Global, a: Action, p: nat, id: nat)
    requires GInv(g) && Enabled(g, a) && Relies(g, p, id) && Relies(Do(g, a), p, id)
    requires g.parent == FoundOverdue(id) ==> id in g.core.auctions && g.core.auctions[id].start.Some?
    ensures Do(g, a).core == g.core
    ensures id in Do(g, a).shared.ended <==> id in g.shared.ended || ParentEnds(g, a, id)
  {
    assert g.usersLock == Some(p);
    if a.Go? { RelyingStep(g.core, g.shared, g.children[p].req, g.children[p].phase.pc, a.now, id); }
  }

  /** A step of a child that goes on relying. */
  lemma RelyingStep(c: Core, sh: Shared, r: Request, pc: Pc, now: nat, id: nat)
    requires Fits(r, pc) && !pc.Finished? && OnTheWay(r, pc, id) && OnTheWay(r, Work(c, sh, r, pc, now).2, id)
    ensures Work(c, sh, r, pc, now).0 == c && Work(c, sh, r, pc, now).1 == sh
  {
  }

  /** Action `k` is child `p` seeing no END of `id`, and it still relies on that at the end. */
  ghost predicate StillRelies(actions: seq<Action>, k: nat, p: nat, id: nat)
    requires Schedule(actions) && k < |actions|
  {
    && actions[k].Go? && actions[k].pid == p && In(StateAt(actions, k), p)
    && (StateAt(actions, k).children[p].phase.pc.BidSee? || StateAt(actions, k).children[p].phase.pc.CloseSee?)
    && forall j | k < j <= |actions| :: Relies(StateAt(actions, j), p, id)
  }

  lemma SeesNoEnd(g: Global, a: Action, p: nat, id: nat)
    requires Enabled(g, a) && a.Go? && a.pid == p && Relies(Do(g, a), p, id)
    requires g.children[p].phase.pc.BidSee? || g.children[p].phase.pc.CloseSee?
    ensures id !in Do(g, a).shared.ended
  {
  }

  lemma RelyingBefore(actions: seq<Action>, k: nat, p: nat, id: nat)
    requires Schedule(actions) && k < |actions| - 1 && StillRelies(actions, k, p, id)
    ensures var before := actions[..|actions| - 1];
            Schedule(before) && StillRelies(before, k, p, id) && Relies(StateAfter(before), p, id)
    ensures Relies(StateAfter(actions), p, id)
  {
    var n := |actions| - 1;
    var before := actions[..n];
    SchedulePrefix(actions, n);
    SameStates(actions, n);
    assert before[..n] == before && actions[..n + 1] == actions;
    assert StateAfter(before) == StateAt(actions, n);
    assert StateAfter(actions) == StateAt(actions, n + 1);
  }

  lemma SameStates(actions: seq<Action>, n: nat)
    requires Schedule(actions) && n <= |actions| && Schedule(actions[..n])
    ensures forall j | 0 <= j <= n :: StateAt(actions[..n], j) == StateAt(actions, j)
  {
    forall j | 0 <= j <= n
      ensures StateAt(actions[..n], j) == StateAt(actions, j)
    {
      assert actions[..n][..j] == actions[..j];
    }
  }

  /** Action `j` is the parent writing END of `id`. */
  ghost predicate EndedAt(actions: seq<Action>, j: nat, id: nat)
    requires Schedule(actions) && j < |actions|
  {
    ParentEnds(StateAt(actions, j), actions[j], id)
  }

  /** The parent wrote END of `id` after action `k`. */
  ghost predicate ParentEnded(actions: seq<Action>, k: nat, id: nat)
    requires Schedule(actions)
  {
    exists j: nat :: k < j < |actions| && EndedAt(actions, j, id)
  }

  lemma SameEndedAt(actions: seq<Action>, n: nat, j: nat, id: nat)
    requires Schedule(actions) && j < n <= |actions| && Schedule(actions[..n])
    ensures EndedAt(actions[..n], j, id) == EndedAt(actions, j, id)
  {
    SameStates(actions, n);
    assert actions[..n][j] == actions[j];
  }

  lemma LastEndedAt(actions: seq<Action>, id: nat)
    requires Schedule(actions) && actions != [] && Schedule(actions[..|actions| - 1])
    ensures EndedAt(actions, |actions| - 1, id) ==
            ParentEnds(StateAfter(actions[..|actions| - 1]), actions[|actions| - 1], id)
  {
  }

  lemma ParentEndedBefore(actions: seq<Action>, k: nat, id: nat)
    requires Schedule(actions) && k < |actions| - 1 && Schedule(actions[..|actions| - 1])
    requires ParentEnded(actions[..|actions| - 1], k, id)
    ensures ParentEnded(actions, k, id)
  {
    var n := |actions| - 1;
    var j: nat :| k < j < n && EndedAt(actions[..n], j, id);
    SameEndedAt(actions, n, j, id);
  }

  lemma ParentEndedLast(actions: seq<Action>, k: nat, id: nat)
    requires Schedule(actions) && k < |actions| - 1 && Schedule(actions[..|actions| - 1])
    requires ParentEnded(actions, k, id) && !EndedAt(actions, |actions| - 1, id)
    ensures ParentEnded(actions[..|actions| - 1], k, id)
  {
    var n := |actions| - 1;
    var j: nat :| k < j < |actions| && EndedAt(actions, j, id);
    SameEndedAt(actions, n, j, id);
    assert EndedAt(actions[..n], j, id);
  }

  lemma ParentEndedMore(actions: seq<Action>, k: nat, id: nat)
    requires Schedule(actions) && k < |actions| - 1 && Schedule(actions[..|actions| - 1])
    ensures ParentEnded(actions, k, id) <==>
            ParentEnded(actions[..|actions| - 1], k, id) ||
            ParentEnds(StateAfter(actions[..|actions| - 1]), actions[|actions| - 1], id)
  {
    LastEndedAt(actions, id);
    if ParentEnded(actions[..|actions| - 1], k, id) {
      ParentEndedBefore(actions, k, id);
    } else if ParentEnded(actions, k, id) && !EndedAt(actions, |actions| - 1, id) {
      ParentEndedLast(actions, k, id);
    }
  }

  /** Main result: from the moment a bidder or closer has seen no END until it writes its bid or its END,
      there is an END exactly if the parent has written one in between, which takes a reading of the parent's
      clock at or after the deadline. */
  lemma {:induction false} WriteMeetsEnd(actions: seq<Action>, k: nat, p: nat, id: nat)
    requires Schedule(actions) && k < |actions| && StillRelies(actions, k, p, id)
    ensures id in StateAfter(actions).shared.ended <==> ParentEnded(actions, k, id)
    decreases |actions|
  {
    var n := |actions| - 1;
    if n == k {
      WriteMeetsNone(actions, p, id);
    } else {
      RelyingBefore(actions, k, p, id);
      WriteMeetsEnd(actions[..n], k, p, id);
      ParentEndedMore(actions, k, id);
      WriteMeetsNext(actions, p, id);
    }
  }

  lemma WriteMeetsNone(actions: seq<Action>, p: nat, id: nat)
    requires Schedule(actions) && actions != [] && StillRelies(actions, |actions| - 1, p, id)
    ensures id !in StateAfter(actions).shared.ended && !ParentEnded(actions, |actions| - 1, id)
  {
    var n := |actions| - 1;
    SchedulePrefix(actions, n);
    assert actions[..n + 1] == actions;
    assert Relies(StateAt(actions, n + 1), p, id);
    SeesNoEnd(StateAt(actions, n), actions[n], p, id);
  }

  lemma WriteMeetsNext(actions: seq<Action>, p: nat, id: nat)
    requires Schedule(actions) && actions != [] && Schedule(actions[..|actions| - 1])
    requires Relies(StateAfter(actions[..|actions| - 1]), p, id) && Relies(StateAfter(actions), p, id)
    ensures var n := |actions| - 1;
            id in StateAfter(actions).shared.ended <==>
            id in StateAfter(actions[..n]).shared.ended || ParentEnds(StateAfter(actions[..n]), actions[n], id)
  {
    var n := |actions| - 1;
    var g := StateAfter(actions[..n]);
    ReachedGInv(actions[..n]);
    if g.parent == FoundOverdue(id) { OverdueIsLate(actions[..n], id); }
    OnlyParentEnds(g, actions[n], p, id);
  }

  // ---------- When END is final ----------

  /** END is there and nobody is in the middle of a look that saw none. */
  ghost predicate Settled(g: Global, id: nat)
  {
    ChildrenDone(g, id) && !ParentLooking(g, id)
  }

  lemma ParentStaysAway(g: Global, a: Action, id: nat)
    requires Enabled(g, a) && id in g.shared.ended && !ParentLooking(g, id)
    ensures !ParentLooking(Do(g, a), id) && !ParentEnds(g, a, id)
  {
  }

  lemma SettledStep(g: Global, a: Action, id: nat)
    requires GInv(g) && Enabled(g, a) && Settled(g, id)
    ensures Settled(Do(g, a), id) && Do(g, a).shared.ended[id] == g.shared.ended[id]
  {
    ParentStaysAway(g, a, id);
    ChildrenStayDone(g, a, id);
    ChildrenDoneEnd(g, a, id);
  }

  /** Main result: over every schedule, END stays as it is from the first moment on at which nobody is in the
      middle of a look at the auction. */
  lemma {:induction false} SettledEndStays(actions: seq<Action>, m: nat, id: nat)
    requires Schedule(actions) && m <= |actions| && Settled(StateAt(actions, m), id)
    ensures Settled(StateAfter(actions), id)
    ensures StateAfter(actions).shared.ended[id] == StateAt(actions, m).shared.ended[id]
    decreases |actions|
  {
    if m == |actions| {
      assert actions[..m] == actions;
    } else {
      var n := |actions| - 1;
      SchedulePrefix(actions, n);
      SameStates(actions, n);
      SettledEndStays(actions[..n], m, id);
      ReachedGInv(actions[..n]);
      SettledStep(StateAfter(actions[..n]), actions[n], id);
    }
  }

  // ---------- What becomes of the END of a close ----------

  /** END is there and no child is in the middle of a look that saw none. */
  ghost predicate ChildrenDone(g: Global, id: nat)
  {
    id in g.shared.ended && forall p | p in g.children :: !Relies(g, p, id) && !Expires(g, p, id)
  }

  ghost predicate HasStart(c: Core, id: nat) { id in c.auctions && c.auctions[id].start.Some? }

  function Scheduled(c: Core, id: nat): End
    requires HasStart(c, id)
  {
    End(Deadline(c.auctions[id].start.value), c.auctions[id].start.value.timeActive)
  }

  lemma ChildStaysDone(g: Global, a: Action, p: nat, id: nat)
    requires GInv(g) && Enabled(g, a) && id in g.shared.ended && !Relies(g, p, id) && !Expires(g, p, id)
    ensures !Relies(Do(g, a), p, id) && !Expires(Do(g, a), p, id)
  {
    if a.Go? && a.pid == p { SeesEnd(g.core, g.shared, g.children[p].req, g.children[p].phase.pc, a.now, id); }
  }

  lemma SeesEnd(c: Core, sh: Shared, r: Request, pc: Pc, now: nat, id: nat)
    requires Fits(r, pc) && !pc.Finished? && id in sh.ended && !OnTheWay(r, pc, id) && !AboutToExpire(r, pc, id)
    ensures var pc' := Work(c, sh, r, pc, now).2; !OnTheWay(r, pc', id) && !AboutToExpire(r, pc', id)
  {
  }

  lemma ChildrenStayDone(g: Global, a: Action, id: nat)
    requires GInv(g) && Enabled(g, a) && ChildrenDone(g, id)
    ensures ChildrenDone(Do(g, a), id)
  {
    EndsRemain(g, a, id);
    forall p | p in Do(g, a).children
      ensures !Relies(Do(g, a), p, id) && !Expires(Do(g, a), p, id)
    {
      ChildStaysDone(g, a, p, id);
    }
  }

  lemma ChildrenDoneEnd(g: Global, a: Action, id: nat)
    requires Enabled(g, a) && ChildrenDone(g, id) && !ParentEnds(g, a, id)
    ensures id in Do(g, a).shared.ended && Do(g, a).shared.ended[id] == g.shared.ended[id]
  {
    EndsRemain(g, a, id);
    assert !WritesEnd(g, a, id);
  }

  lemma ChildrenDoneStep(g: Global, a: Action, id: nat)
    requires GInv(g) && Enabled(g, a) && ChildrenDone(g, id) && HasStart(g.core, id)
    ensures id in Do(g, a).shared.ended
    ensures Do(g, a).shared.ended[id] == if ParentEnds(g, a, id) then Scheduled(g.core, id) else g.shared.ended[id]
  {
    if !ParentEnds(g, a, id) { ChildrenDoneEnd(g, a, id); }
  }

  lemma CloserArrives(g: Global, a: Action, p: nat)
    requires GInv(g) && Enabled(g, a) && In(Do(g, a), p) && Do(g, a).children[p].phase.pc.CloseEnd?
    ensures In(g, p) && (g.children[p].phase.pc.CloseEnd? || (a.Go? && a.pid == p &&
        g.children[p].phase.pc.CloseClock?))
    ensures Do(g, a).children[p].req == g.children[p].req
    ensures !g.children[p].phase.pc.CloseEnd? ==>
              var r := g.children[p].req; r.Close? && AllDigits(r.aidText) && HasStart(Do(g, a).core, Num(r.aidText))
  {
    if a.Go? && a.pid == p { WorkArrives(g.core, g.shared, g.children[p].req, g.children[p].phase.pc, a.now); }
  }

  lemma WorkArrives(c: Core, sh: Shared, r: Request, pc: Pc, now: nat)
    requires Fits(r, pc) && !pc.Finished? && Work(c, sh, r, pc, now).2.CloseEnd?
    ensures pc.CloseClock? && r.Close? && AllDigits(r.aidText) && InTime(c, Num(r.aidText), now)
    ensures Work(c, sh, r, pc, now).0 == c
  {
  }

  lemma {:induction false} CloserHasStart(actions: seq<Action>, p: nat)
    requires Schedule(actions) && In(StateAfter(actions), p)
    requires StateAfter(actions).children[p].phase.pc.CloseEnd?
    ensures var r := StateAfter(actions).children[p].req;
            r.Close? && AllDigits(r.aidText) && HasStart(StateAfter(actions).core, Num(r.aidText))
  {
    var n := |actions| - 1;
    var g, a := StateAfter(actions[..n]), actions[n];
    ReachedGInv(actions[..n]);
    CloserArrives(g, a, p);
    if g.children[p].phase.pc.CloseEnd? {
      CloserHasStart(actions[..n], p);
      StartStays(g, a, Num(g.children[p].req.aidText));
    }
  }

  /** Action `m` is a close of `id` writing END. */
  ghost predicate ClosesAt(actions: seq<Action>, m: nat, id: nat)
    requires Schedule(actions) && m < |actions|
  {
    actions[m].Go? && In(StateAt(actions, m), actions[m].pid) &&
    var child := StateAt(actions, m).children[actions[m].pid];
    child.phase.pc.CloseEnd? && child.req.Close? && AllDigits(child.req.aidText) && Num(child.req.aidText) == id
  }

  lemma CloseWrites(g: Global, a: Action, id: nat)
    requires GInv(g) && Enabled(g, a) && a.Go? && g.children[a.pid].phase.pc.CloseEnd? && HasStart(g.core, id)
    requires g.children[a.pid].req.Close? && AllDigits(g.children[a.pid].req.aidText)
    requires Num(g.children[a.pid].req.aidText) == id
    ensures ChildrenDone(Do(g, a), id) && Do(g, a).core == g.core
    ensures Do(g, a).shared.ended[id] == End(a.now, a.now - g.core.auctions[id].start.value.startTime)
  {
    assert g.usersLock == Some(a.pid);
  }

  /** Main result: over every schedule, the END of a close holds its stamp and seconds for good, unless the
      parent writes END afterwards; then it holds the scheduled end. */
  lemma {:induction false} EndAfterClose(actions: seq<Action>, m: nat, id: nat)
    requires Schedule(actions) && m < |actions| && ClosesAt(actions, m, id)
    ensures var g := StateAfter(actions);
            HasStart(g.core, id) && ChildrenDone(g, id) &&
            g.shared.ended[id] == if ParentEnded(actions, m, id) then Scheduled(g.core, id)
                                  else End(actions[m].now, actions[m].now - g.core.auctions[id].start.value.startTime)
    decreases |actions|
  {
    var n := |actions| - 1;
    SchedulePrefix(actions, n);
    assert actions[..n + 1] == actions;
    ReachedGInv(actions[..n]);
    if n == m {
      CloserHasStart(actions[..n], actions[n].pid);
      CloseWrites(StateAfter(actions[..n]), actions[n], id);
    } else {
      SameStates(actions, n);
      assert StateAt(actions[..n], m) == StateAt(actions, m);
      EndAfterClose(actions[..n], m, id);
      ParentEndedMore(actions, m, id);
      StartStays(StateAfter(actions[..n]), actions[n], id);
      ChildrenStayDone(StateAfter(actions[..n]), actions[n], id);
      ChildrenDoneStep(StateAfter(actions[..n]), actions[n], id);
    }
  }

  // ---------- Schedules with a clock ----------

  /** The clock reading an action makes. */
  function Reading(a: Action): Option<nat>
  {
    match a
    case Go(_, now) => Some(now)
    case Udp(ReadClock(now)) => Some(now)
    case _ => None
  }

  /** A schedule whose clock never runs backwards and has reached at most `t`. */
  ghost predicate Clocked(actions: seq<Action>, t: nat)
  {
    && (forall i, j | 0 <= i < j < |actions| && Reading(actions[i]).Some? && Reading(actions[j]).Some? ::
          Reading(actions[i]).value <= Reading(actions[j]).value)
    && (forall i | 0 <= i < |actions| && Reading(actions[i]).Some? :: Reading(actions[i]).value <= t)
  }

  ghost predicate Leads(actions: seq<Action>, t: nat, g: Global)
  {
    Schedule(actions) && Clocked(actions, t) && StateAfter(actions) == g
  }

  lemma Perform(actions: seq<Action>, t: nat, g: Global, a: Action, t': nat) returns (more: seq<Action>)
    requires Leads(actions, t, g) && Enabled(g, a) && t <= t'
    requires Reading(a).Some? ==> Reading(a).value == t'
    ensures more == actions + [a] && Leads(more, t', Do(g, a))
  {
    More(actions, a);
    more := actions + [a];
  }

  lemma BidderComesToWrite(actions: seq<Action>, t: nat, g: Global, p: nat, r: Request) returns (more: seq<Action>)
    requires Leads(actions, t, g) && In(g, p) && g.children[p] == Child(r, Inside(BidHosted)) && r.BidOn?
    requires Biddable(g.core, r.aid, r.value, r.uid)
    ensures |more| == |actions| + 2 && more[..|actions|] == actions && Schedule(more)
    ensures Leads(more, t, StateAfter(more)) && In(StateAfter(more), p)
    ensures StateAfter(more).core == g.core && StateAfter(more).shared == g.shared
    ensures StateAfter(more).children[p] == Child(r, Inside(BidWrite))
  {
    more := Perform(actions, t, g, Go(p, t), t);
    var g1 := Do(g, Go(p, t));
    more := Perform(more, t, g1, Go(p, t), t);
  }

  /** Whenever a bidder whose bid would be accepted has just found the auction running, one query the parent
      answers at or after the deadline is enough for the bid to be written into an ended auction. */
  lemma BidAfterEnd(actions: seq<Action>, t: nat, g: Global, p: nat, r: Request, now: nat) returns (more: seq<Action>)
    requires Leads(actions, t, g) && t <= now
    requires In(g, p) && g.children[p] == Child(r, Inside(BidHosted)) && r.BidOn?
    requires Biddable(g.core, r.aid, r.value, r.uid) && Overdue(g.core, r.aid, now)
    requires g.parent == Idle && r.aid !in g.shared.ended
    ensures Schedule(more) && Clocked(more, now) && |more| == |actions| + 6 && more[..|actions|] == actions
    ensures more[|more| - 1] == Go(p, now) && Relies(StateAt(more, |more| - 1), p, r.aid)
    ensures r.aid in StateAt(more, |more| - 1).shared.ended && StateAt(more, |more| - 1).core == g.core
    ensures var c := StateAfter(more).core; r.aid in c.auctions && r.value in c.auctions[r.aid].bids
  {
    var ended := Query(actions, t, g, r.aid, now);
    var g3 := g.(shared := Expire(g.core, g.shared, r.aid));
    var before := BidderComesToWrite(ended, now, g3, p, r);
    more := Perform(before, now, StateAfter(before), Go(p, now), now);
    assert more[..|more| - 1] == before;
  }

  /** A whole look of the parent at an auction that is over and has no END yet. */
  lemma Query(actions: seq<Action>, t: nat, g: Global, id: nat, now: nat) returns (more: seq<Action>)
    requires Leads(actions, t, g) && t <= now && g.parent == Idle && id !in g.shared.ended && Overdue(g.core, id, now)
    ensures Leads(more, now, g.(shared := Expire(g.core, g.shared, id)))
    ensures |more| == |actions| + 3 && more[..|actions|] == actions
  {
    var g1, g2 := g.(parent := SawNoEnd(id)), g.(parent := FoundOverdue(id));
    more := Perform(actions, t, g, Udp(SeeEnd(id)), t);
    more := Perform(more, t, g1, Udp(ReadClock(now)), now);
    more := Perform(more, now, g2, Udp(WriteEnd), now);
    assert Do(g2, Udp(WriteEnd)) == g.(shared := Expire(g.core, g.shared, id));
  }

  lemma CloseDuringLook(actions: seq<Action>, t: nat, g: Global, p: nat, r: Request, now: nat)
    returns (more: seq<Action>)
    requires Leads(actions, t, g) && t <= now && g.parent == Idle
    requires In(g, p) && g.children[p] == Child(r, Inside(CloseEnd)) && r.Close? && AllDigits(r.aidText)
    requires Num(r.aidText) !in g.shared.ended
    ensures |more| == |actions| + 2 && more[..|actions|] == actions && Schedule(more)
    ensures var g', id := StateAfter(more), Num(r.aidText);
            && Leads(more, now, g') && g'.core == g.core && g'.parent == SawNoEnd(id)
            && g'.shared == EndEarly(g.core, g.shared, id, now)
            && p in g'.children && g'.children[p].phase == Inside(Finished(Outcome(true, now)))
  {
    var id := Num(r.aidText);
    var g1 := g.(parent := SawNoEnd(id));
    more := Perform(actions, t, g, Udp(SeeEnd(id)), t);
    more := Perform(more, t, g1, Go(p, now), now);
  }

  lemma LookEnds(actions: seq<Action>, t: nat, g: Global, id: nat, now: nat) returns (more: seq<Action>)
    requires Leads(actions, t, g) && t <= now && g.parent == SawNoEnd(id) && Overdue(g.core, id, now)
    ensures Leads(more, now, g.(shared := Expire(g.core, g.shared, id), parent := Idle))
    ensures |more| == |actions| + 2 && more[..|actions|] == actions
  {
    more := Perform(actions, t, g, Udp(ReadClock(now)), now);
    more := Perform(more, now, g.(parent := FoundOverdue(id)), Udp(WriteEnd), now);
  }

  /** Whenever a closer is about to write END, a look of the parent around that write is enough for the END of
      the close, which is answered OK, to be replaced by the scheduled one. */
  lemma CloseUndone(actions: seq<Action>, t: nat, g: Global, p: nat, r: Request, now: nat, later: nat)
    returns (closed: seq<Action>, more: seq<Action>)
    requires Leads(actions, t, g) && t <= now <= later && g.parent == Idle
    requires In(g, p) && g.children[p] == Child(r, Inside(CloseEnd)) && r.Close? && AllDigits(r.aidText)
    requires Num(r.aidText) !in g.shared.ended && Overdue(g.core, Num(r.aidText), later)
    ensures Schedule(closed) && Schedule(more) && Clocked(more, later)
    ensures |closed| == |actions| + 2 <= |more| && more[..|closed|] == closed && closed[..|actions|] == actions
    ensures var start, id := g.core.auctions[Num(r.aidText)].start.value, Num(r.aidText);
            && StateAfter(closed).shared.ended == g.shared.ended[id := End(now, now - start.startTime)]
            && p in StateAfter(closed).children
            && StateAfter(closed).children[p].phase == Inside(Finished(Outcome(true, now)))
            && StateAfter(more).shared.ended == g.shared.ended[id := End(Deadline(start), start.timeActive)]
  {
    var id := Num(r.aidText);
    closed := CloseDuringLook(actions, t, g, p, r, now);
    var g2 := StateAfter(closed);
    more := LookEnds(closed, now, g2, id, later);
    var end := Expire(g.core, g.shared, id).ended[id];
    assert g.shared.ended[id := g2.shared.ended[id]][id := end] == g.shared.ended[id := end];
  }

  // ---------- Such schedules from the empty server ----------

  const HOST := "111111"
  const BIDDER := "222222"
  const ACCOUNTS := Shared(map[HOST := "hhhhhhhh", BIDDER := "bbbbbbbb"], {HOST, BIDDER}, map[])
  const OPENING := Open(HOST, "hhhhhhhh", "lot", "lot.txt", 10, 60, Upload("x", true))
  const CLOSING := Close(HOST, "hhhhhhhh", Pad3(1))
  const BIDDING := BidOn(BIDDER, "bbbbbbbb", 1, 20)
  const LOT := Start(HOST, "lot", "lot.txt", 10, 60, 0)
  const ONE_LOT := Core(map[1 := CoreAuction(Some(LOT), map[], Some("x"))], {(HOST, 1)}, {})

  /** A user registers. */
  lemma Enroll(actions: seq<Action>, sh: Shared, uid: string, pass: string) returns (more: seq<Action>)
    requires Leads(actions, 0, INITIAL.(shared := sh))
    ensures Leads(more, 0, INITIAL.(shared := Shared(sh.pass[uid := pass], sh.login + {uid}, sh.ended)))
  {
    var g1 := INITIAL.(shared := sh.(pass := sh.pass[uid := pass]));
    more := Perform(actions, 0, INITIAL.(shared := sh), Udp(PutPass(uid, pass)), 0);
    more := Perform(more, 0, g1, Udp(PutLogin(uid)), 0);
  }

  /** Two users do. */
  lemma Register() returns (actions: seq<Action>)
    ensures Leads(actions, 0, INITIAL.(shared := ACCOUNTS))
  {
    var sh := Shared(map[HOST := "hhhhhhhh"], {HOST}, map[]);
    NoUsers();
    actions := Enroll([], INITIAL.shared, HOST, "hhhhhhhh");
    actions := Enroll(actions, sh, BIDDER, "bbbbbbbb");
    assert sh.login + {BIDDER} == {HOST, BIDDER};
    assert sh.pass[BIDDER := "bbbbbbbb"] == ACCOUNTS.pass;
  }

  lemma NoUsers()
    ensures Leads([], 0, INITIAL.(shared := INITIAL.shared))
    ensures INITIAL.shared.pass[HOST := "hhhhhhhh"] == map[HOST := "hhhhhhhh"] &&
        INITIAL.shared.login + {HOST} == {HOST}
  {
  }

  /** Child 1, which opens, is at `pc` between its locks. */
  function Opener(core: Core, pc: Pc): Global
  {
    Global(core, ACCOUNTS, Idle, Some(1), Some(1), map[1 := Child(OPENING, Inside(pc))], [1], [])
  }

  /** A new child takes both locks. */
  lemma Enter(actions: seq<Action>, g: Global, p: nat, r: Request) returns (more: seq<Action>)
    requires Leads(actions, 0, g) && p !in g.children && IsTcp(r) && ValidRequest(r) && g.auctionsLock.None? &&
        g.usersLock.None?
    ensures Leads(more, 0, g.(children := g.children[p := Child(r, Inside(FirstPc(r)))], auctionsLock := Some(p),
                              usersLock := Some(p), entered := g.entered + [p]))
  {
    var g1 := g.(children := g.children[p := Child(r, Waiting)]);
    var g2 := SetPhase(g1, p, HasAuctions).(auctionsLock := Some(p));
    more := Perform(actions, 0, g, Fork(p, r), 0);
    more := Perform(more, 0, g1, LockAuctions(p), 0);
    more := Perform(more, 0, g2, LockUsers(p), 0);
    assert Do(g2, LockUsers(p)).children == g.children[p := Child(r, Inside(FirstPc(r)))];
  }

  lemma OpenerEnters(actions: seq<Action>) returns (more: seq<Action>)
    requires Leads(actions, 0, INITIAL.(shared := ACCOUNTS))
    ensures Leads(more, 0, Opener(NO_CORE, OpenExists))
  {
    more := Enter(actions, INITIAL.(shared := ACCOUNTS), 1, OPENING);
    assert INITIAL.children[1 := Child(OPENING, Inside(OpenExists))] == map[1 := Child(OPENING, Inside(OpenExists))];
  }

  lemma OpenerGoes(actions: seq<Action>, core: Core, pc: Pc, core': Core, pc': Pc) returns (more: seq<Action>)
    requires Leads(actions, 0, Opener(core, pc)) && Fits(OPENING, pc) && !pc.Finished?
    requires Work(core, ACCOUNTS, OPENING, pc, 0) == (core', ACCOUNTS, pc')
    ensures Leads(more, 0, Opener(core', pc'))
  {
    more := Perform(actions, 0, Opener(core, pc), Go(1, 0), 0);
    assert Do(Opener(core, pc), Go(1, 0)) == Opener(core', pc');
  }

  lemma OpenerChecks(actions: seq<Action>) returns (more: seq<Action>)
    requires Leads(actions, 0, Opener(NO_CORE, OpenExists))
    ensures Leads(more, 0, Opener(NO_CORE, OpenHosted(1)))
  {
    more := OpenerGoes(actions, NO_CORE, OpenExists, NO_CORE, OpenPassword);
    more := OpenerGoes(more, NO_CORE, OpenPassword, NO_CORE, OpenLogin);
    more := OpenerGoes(more, NO_CORE, OpenLogin, NO_CORE, OpenScan);
    assert NextCoreId(NO_CORE) == 1;
    more := OpenerGoes(more, NO_CORE, OpenScan, NO_CORE, OpenHosted(1));
  }

  lemma OpenerWrites(actions: seq<Action>) returns (more: seq<Action>)
    requires Leads(actions, 0, Opener(NO_CORE, OpenHosted(1)))
    ensures Leads(more, 0, Opener(ONE_LOT, Finished(Outcome(true, 0))))
  {
    var c1, c2 := Core(map[], {(HOST, 1)}, {}), Core(map[1 := CoreAuction(None, map[], None)], {(HOST, 1)}, {});
    var c3 := Core(map[1 := CoreAuction(Some(LOT), map[], None)], {(HOST, 1)}, {});
    assert {} + {(HOST, 1)} == {(HOST, 1)};
    more := OpenerGoes(actions, NO_CORE, OpenHosted(1), c1, OpenMkdir(1));
    more := OpenerGoes(more, c1, OpenMkdir(1), c2, OpenStart(1));
    assert c2.auctions[1 := c3.auctions[1]] == c3.auctions;
    more := OpenerGoes(more, c2, OpenStart(1), c3, OpenAsset(1, 0));
    assert c3.auctions[1 := ONE_LOT.auctions[1]] == ONE_LOT.auctions;
    more := OpenerGoes(more, c3, OpenAsset(1, 0), ONE_LOT, Finished(Outcome(true, 0)));
  }

  const DONE := [Done(1, OPENING, Outcome(true, 0))]

  lemma OpenerLeaves(actions: seq<Action>) returns (more: seq<Action>)
    requires Leads(actions, 0, Opener(ONE_LOT, Finished(Outcome(true, 0))))
    ensures Leads(more, 0, Global(ONE_LOT, ACCOUNTS, Idle, None, None, map[1 := Child(OPENING, Exited)], [1], DONE))
  {
    var g := Opener(ONE_LOT, Finished(Outcome(true, 0)));
    var g1 := Global(ONE_LOT, ACCOUNTS, Idle, None, Some(1), map[1 := Child(OPENING, LeftAuctions)], [1], DONE);
    more := Perform(actions, 0, g, UnlockAuctions(1), 0);
    assert Do(g, UnlockAuctions(1)) == g1;
    more := Perform(more, 0, g1, UnlockUsers(1), 0);
    assert Do(g1, UnlockUsers(1)).children == map[1 := Child(OPENING, Exited)];
  }

  /** Child 2 is at `pc` between its locks. */
  function Second(r: Request, pc: Pc): Global
  {
    Global(ONE_LOT, ACCOUNTS, Idle, Some(2), Some(2),
           map[1 := Child(OPENING, Exited), 2 := Child(r, Inside(pc))], [1, 2], DONE)
  }

  /** An auction is open, and child 2 takes both locks. */
  lemma SecondEnters(r: Request) returns (actions: seq<Action>)
    requires IsTcp(r) && ValidRequest(r)
    ensures Leads(actions, 0, Second(r, FirstPc(r)))
  {
    actions := Register();
    actions := OpenerEnters(actions);
    actions := OpenerChecks(actions);
    actions := OpenerWrites(actions);
    actions := OpenerLeaves(actions);
    var g := Global(ONE_LOT, ACCOUNTS, Idle, None, None, map[1 := Child(OPENING, Exited)], [1], DONE);
    actions := Enter(actions, g, 2, r);
  }

  lemma SecondGoes(actions: seq<Action>, t: nat, r: Request, pc: Pc, pc': Pc) returns (more: seq<Action>)
    requires Leads(actions, t, Second(r, pc)) && t <= 59 && Fits(r, pc) && !pc.Finished?
    requires Work(ONE_LOT, ACCOUNTS, r, pc, 59) == (ONE_LOT, ACCOUNTS, pc')
    ensures Leads(more, 59, Second(r, pc'))
  {
    more := Perform(actions, t, Second(r, pc), Go(2, 59), 59);
    assert Do(Second(r, pc), Go(2, 59)).children == Second(r, pc').children;
  }

  lemma BidderComes() returns (actions: seq<Action>)
    ensures Leads(actions, 59, Second(BIDDING, BidHosted))
  {
    actions := SecondEnters(BIDDING);
    actions := SecondGoes(actions, 0, BIDDING, BidLogin, BidPassword);
    actions := SecondGoes(actions, 59, BIDDING, BidPassword, BidSee);
    actions := SecondGoes(actions, 59, BIDDING, BidSee, BidClock);
    actions := SecondGoes(actions, 59, BIDDING, BidClock, BidHosted);
  }

  /** Main result: from the empty server, with a clock that never runs backwards, a bid is written into an
      auction that has ended: the bidder reads the clock at second 59 of 60, the parent answers a query at
      second 60, and then the bid is written. */
  lemma LateBid() returns (actions: seq<Action>)
    ensures Schedule(actions) && Clocked(actions, 60) && actions != [] && actions[|actions| - 1] == Go(2, 60)
    ensures Relies(StateAt(actions, |actions| - 1), 2, 1) && 1 in StateAt(actions, |actions| - 1).shared.ended
    ensures StateAt(actions, |actions| - 1).core == ONE_LOT && ONE_LOT.auctions[1].bids == map[]
    ensures 1 in StateAfter(actions).core.auctions && 20 in StateAfter(actions).core.auctions[1].bids
  {
    actions := BidderComes();
    actions := BidAfterEnd(actions, 59, Second(BIDDING, BidHosted), 2, BIDDING, 60);
  }

  lemma ClosingNamesOne()
    ensures ValidRequest(CLOSING) && Num(Pad3(1)) == 1
  {
    DirectoryOfId(EMPTY, 1);
    Pad3Digits(1);
  }

  lemma CloserPassesAccounts() returns (actions: seq<Action>)
    ensures Leads(actions, 59, Second(CLOSING, CloseExists))
  {
    ClosingNamesOne();
    actions := SecondEnters(CLOSING);
    actions := SecondGoes(actions, 0, CLOSING, CloseLogin, ClosePassword);
    actions := SecondGoes(actions, 59, CLOSING, ClosePassword, CloseExists);
  }

  lemma CloserIsHost(actions: seq<Action>) returns (more: seq<Action>)
    requires Leads(actions, 59, Second(CLOSING, CloseExists))
    ensures Leads(more, 59, Second(CLOSING, CloseSee))
  {
    ClosingNamesOne();
    more := SecondGoes(actions, 59, CLOSING, CloseExists, CloseHosted);
    more := SecondGoes(more, 59, CLOSING, CloseHosted, CloseSee);
  }

  lemma CloserComes() returns (actions: seq<Action>)
    ensures Leads(actions, 59, Second(CLOSING, CloseEnd))
  {
    ClosingNamesOne();
    actions := CloserPassesAccounts();
    actions := CloserIsHost(actions);
    actions := SecondGoes(actions, 59, CLOSING, CloseSee, CloseClock);
    actions := SecondGoes(actions, 59, CLOSING, CloseClock, CloseEnd);
  }

  /** Main result: likewise a close answered OK at second 59 loses its END to the one scheduled for second 60. */
  lemma LostClose() returns (closed: seq<Action>, actions: seq<Action>)
    ensures Schedule(closed) && Schedule(actions) && Clocked(actions, 60)
    ensures |closed| <= |actions| && actions[..|closed|] == closed
    ensures StateAfter(closed).shared.ended == map[1 := End(59, 59)] && 2 in StateAfter(closed).children
    ensures StateAfter(closed).children[2].phase == Inside(Finished(Outcome(true, 59)))
    ensures StateAfter(actions).shared.ended == map[1 := End(60, 60)]
  {
    ClosingNamesOne();
    actions := CloserComes();
    closed, actions := CloseUndone(actions, 59, Second(CLOSING, CloseEnd), 2, CLOSING, 59, 60);
  }
}
