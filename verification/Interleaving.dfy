/** The forked children and their two directory locks, interleaved one step at a time with each other and
    with the parent, which serves UDP requests without taking any lock (server.c:135-185).

    A step reads or writes one file that somebody else may write as well: login.txt, pass.txt or END. Reading
    END, reading the clock and writing END are separate steps, for parent and children alike. START files,
    bids, assets, directories of auctions and indexes are only ever written by the child that holds both
    locks, so what a step reads of those on the side cannot change under it, and making the three directories
    of an auction is one step. */
module Interleaving {
  import opened Text
  import opened Domain
  import opened LazyServer
  import opened Invariants

  // ---------- Files ----------

  /** The START file appears after the directory, the asset after START. */
  datatype CoreAuction = CoreAuction(start: Option<Start>, bids: map<nat, Bid>, asset: Option<string>)

  /** What only children write, inside both locks: auction directories, START, bids, assets and the two indexes. */
  datatype Core = Core(auctions: map<nat, CoreAuction>, hosted: set<(string, nat)>, bidded: set<(string, nat)>)

  /** What the parent writes as well: passwords, logins and END files. */
  datatype Shared = Shared(pass: map<string, string>, login: set<string>, ended: map<nat, End>)

  const NO_CORE := Core(map[], {}, {})

  ghost function NextCoreId(c: Core): nat { MaxOf(c.auctions.Keys) + 1 }

  predicate Biddable(c: Core, id: nat, value: nat, uid: string)
  {
    && id in c.auctions && c.auctions[id].start.Some? && (uid, id) !in c.hosted
    && value > c.auctions[id].start.value.startValue && forall v | v in c.auctions[id].bids :: value > v
  }

  function AddBid(c: Core, id: nat, value: nat, uid: string, now: nat): Core
  {
    if id in c.auctions && c.auctions[id].start.Some? then
      var a := c.auctions[id];
      c.(auctions := c.auctions[id := a.(bids := a.bids[value := Bid(uid, now, now - a.start.value.startTime)])])
    else c
  }

  function StartOf(r: Request, now: nat): Start
    requires r.Open?
  {
    Start(r.uid, r.name, r.fname, r.startValue, r.timeActive, now)
  }

  // ---------- A child's program ----------

  /** `passed`: did every check of accounts and of END succeed; `stamp`: the clock reading put in a file. */
  datatype Outcome = Outcome(passed: bool, stamp: nat)

  datatype Pc =
    | OpenExists | OpenPassword | OpenLogin | OpenScan
    | OpenHosted(id: nat) | OpenMkdir(id: nat) | OpenStart(id: nat) | OpenAsset(id: nat, stamp: nat)
    | BidLogin | BidPassword | BidSee | BidClock | BidExpire | BidHosted | BidScan | BidWrite | BidIndex(stamp: nat)
    | CloseLogin | ClosePassword | CloseExists | CloseHosted | CloseSee | CloseClock | CloseExpire | CloseEnd
    | AssetRead
    | Finished(outcome: Outcome)

  const REFUSED := Finished(Outcome(false, 0))

  predicate IsTcp(r: Request) { r.Open? || r.BidOn? || r.Close? || r.ShowAsset? }

  function FirstPc(r: Request): Pc
    requires IsTcp(r)
  {
    match r
    case Open(_, _, _, _, _, _, _) => OpenExists
    case BidOn(_, _, _, _) => BidLogin
    case Close(_, _, _) => CloseLogin
    case ShowAsset(_) => AssetRead
  }

  predicate Fits(r: Request, pc: Pc)
  {
    match pc
    case OpenExists | OpenPassword | OpenLogin | OpenScan => r.Open?
    case OpenHosted(_) | OpenMkdir(_) | OpenStart(_) | OpenAsset(_, _) => r.Open?
    case BidLogin | BidPassword | BidSee | BidClock | BidExpire | BidHosted => r.BidOn?
    case BidScan | BidWrite | BidIndex(_) => r.BidOn?
    case CloseLogin | ClosePassword | CloseExists | CloseHosted | CloseSee | CloseClock | CloseExpire | CloseEnd =>
      r.Close? && AllDigits(r.aidText)
    case AssetRead => r.ShowAsset?
    case Finished(_) => IsTcp(r)
  }

  function Check(passed: bool, next: Pc): Pc { if passed then next else REFUSED }

  predicate OwnPassword(sh: Shared, uid: string, pass: string) { uid in sh.pass && sh.pass[uid] == pass }

  /** The auction is there and its time ran out. */
  predicate Overdue(c: Core, id: nat, now: nat)
  {
    id in c.auctions && c.auctions[id].start.Some? && now >= Deadline(c.auctions[id].start.value)
  }

  /** The auction is there and its time is running. */
  predicate InTime(c: Core, id: nat, now: nat)
  {
    id in c.auctions && c.auctions[id].start.Some? && now < Deadline(c.auctions[id].start.value)
  }

  /** END as `ongoing_auction` writes it. */
  function Expire(c: Core, sh: Shared, id: nat): Shared
  {
    if id in c.auctions && c.auctions[id].start.Some? then
      var start := c.auctions[id].start.value;
      sh.(ended := sh.ended[id := End(Deadline(start), start.timeActive)])
    else sh
  }

  /** END as `close_auction` writes it. */
  function EndEarly(c: Core, sh: Shared, id: nat, now: nat): Shared
  {
    if id in c.auctions && c.auctions[id].start.Some? then
      sh.(ended := sh.ended[id := End(now, now - c.auctions[id].start.value.startTime)])
    else sh
  }

  /** `store_file`. */
  function Store(c: Core, id: nat, asset: Option<string>): Core
  {
    if id in c.auctions then c.(auctions := c.auctions[id := c.auctions[id].(asset := asset)]) else c
  }

  /** One step of a child inside both locks. */
  ghost function Work(c: Core, sh: Shared, r: Request, pc: Pc, now: nat): (Core, Shared, Pc)
    requires Fits(r, pc) && !pc.Finished?
  {
    match pc
    case OpenExists => (c, sh, Check(r.uid in sh.pass, OpenPassword))
    case OpenPassword => (c, sh, Check(OwnPassword(sh, r.uid, r.pass), OpenLogin))
    case OpenLogin => (c, sh, Check(r.uid in sh.login, OpenScan))
    case OpenScan => (c, sh, OpenHosted(NextCoreId(c)))
    case OpenHosted(id) => (c.(hosted := c.hosted + {(r.uid, id)}), sh, OpenMkdir(id))
    case OpenMkdir(id) => (c.(auctions := c.auctions[id := CoreAuction(None, map[], None)]), sh, OpenStart(id))
    case OpenStart(id) =>
      (c.(auctions := c.auctions[id := CoreAuction(Some(StartOf(r, now)), map[], None)]), sh, OpenAsset(id, now))
    case OpenAsset(id, stamp) => (Store(c, id, StoredAsset(r.fname, r.upload)), sh, Finished(Outcome(true, stamp)))
    case BidLogin => (c, sh, Check(r.uid in sh.login, BidPassword))
    case BidPassword => (c, sh, Check(OwnPassword(sh, r.uid, r.pass), BidSee))
    case BidSee => (c, sh, Check(r.aid !in sh.ended, BidClock))
    case BidClock => (c, sh, if Overdue(c, r.aid, now) then BidExpire else Check(InTime(c, r.aid, now), BidHosted))
    case BidExpire => (c, Expire(c, sh, r.aid), REFUSED)
    case BidHosted => (c, sh, if (r.uid, r.aid) in c.hosted then Finished(Outcome(true, now)) else BidScan)
    case BidScan => (c, sh, if Biddable(c, r.aid, r.value, r.uid) then BidWrite else Finished(Outcome(true, now)))
    case BidWrite => (AddBid(c, r.aid, r.value, r.uid, now), sh, BidIndex(now))
    case BidIndex(stamp) => (c.(bidded := c.bidded + {(r.uid, r.aid)}), sh, Finished(Outcome(true, stamp)))
    case CloseLogin => (c, sh, Check(r.uid in sh.login, ClosePassword))
    case ClosePassword => (c, sh, Check(OwnPassword(sh, r.uid, r.pass), CloseExists))
    case CloseExists =>
      var id := Num(r.aidText);
      (c, sh, Check(r.aidText == "" || (r.aidText == Pad3(id) && id in c.auctions), CloseHosted))
    case CloseHosted => (c, sh, Check((r.uid, Num(r.aidText)) in c.hosted, CloseSee))
    case CloseSee => (c, sh, Check(Num(r.aidText) !in sh.ended, CloseClock))
    case CloseClock =>
      (c, sh, if Overdue(c, Num(r.aidText), now) then CloseExpire else Check(InTime(c, Num(r.aidText), now), CloseEnd))
    case CloseExpire => (c, Expire(c, sh, Num(r.aidText)), REFUSED)
    case CloseEnd => (c, EndEarly(c, sh, Num(r.aidText), now), Finished(Outcome(true, now)))
    case AssetRead => (c, sh, Finished(Outcome(true, now)))
  }

  // ---------- Children run one after another ----------

  /** The whole effect of a request on the core files, given how its checks came out. */
  ghost function Serial(c: Core, r: Request, o: Outcome): Core
  {
    if !o.passed then c
    else if r.Open? then
      var id := NextCoreId(c);
      c.(hosted := c.hosted + {(r.uid, id)},
         auctions := c.auctions[id := CoreAuction(Some(StartOf(r, o.stamp)), map[], StoredAsset(r.fname, r.upload))])
    else if r.BidOn? && Biddable(c, r.aid, r.value, r.uid) then
      AddBid(c, r.aid, r.value, r.uid, o.stamp).(bidded := c.bidded + {(r.uid, r.aid)})
    else c
  }

  datatype Done = Done(pid: nat, req: Request, outcome: Outcome)

  ghost function Replay(history: seq<Done>): Core
  {
    if history == [] then NO_CORE
    else
      var last := history[|history| - 1];
      Serial(Replay(history[..|history| - 1]), last.req, last.outcome)
  }

  // ---------- The interleaved system ----------

  datatype Phase = Waiting | HasAuctions | Inside(pc: Pc) | LeftAuctions | Exited

  datatype Child = Child(req: Request, phase: Phase)

  /** Where the parent is in its look at an auction: it has seen no END, or has found the time to be over. */
  datatype Parent = Idle | SawNoEnd(id: nat) | FoundOverdue(id: nat)

  /** `entered` and `history` only record: who got both locks, in order, and who released them. */
  datatype Global = Global(core: Core, shared: Shared, parent: Parent,
                           auctionsLock: Option<nat>, usersLock: Option<nat>, children: map<nat, Child>,
                           entered: seq<nat>, history: seq<Done>)

  const INITIAL := Global(NO_CORE, Shared(map[], {}, map[]), Idle, None, None, map[], [], [])

  /** The steps of UDP handlers: writes of accounts, and the steps of a look at an auction. */
  datatype ParentStep =
    | PutPass(uid: string, pass: string) | PutLogin(uid: string) | RemoveLogin(uid: string) | RemovePass(uid: string)
    | SeeEnd(id: nat) | ReadClock(now: nat) | WriteEnd

  datatype Action =
    | Fork(pid: nat, req: Request)
    | LockAuctions(pid: nat) | LockUsers(pid: nat)
    | Go(pid: nat, now: nat)
    | UnlockAuctions(pid: nat) | UnlockUsers(pid: nat)
    | Udp(step: ParentStep)

  predicate In(g: Global, pid: nat) { pid in g.children && g.children[pid].phase.Inside? }

  predicate Enabled(g: Global, a: Action)
  {
    match a
    case Fork(pid, req) => pid !in g.children && IsTcp(req) && ValidRequest(req)
    case LockAuctions(pid) => pid in g.children && g.children[pid].phase == Waiting && g.auctionsLock.None?
    case LockUsers(pid) =>
      pid in g.children && IsTcp(g.children[pid].req) && g.children[pid].phase == HasAuctions && g.usersLock.None?
    case Go(pid, _) => In(g, pid) && !g.children[pid].phase.pc.Finished? &&
        Fits(g.children[pid].req, g.children[pid].phase.pc)
    case UnlockAuctions(pid) => In(g, pid) && g.children[pid].phase.pc.Finished?
    case UnlockUsers(pid) => pid in g.children && g.children[pid].phase == LeftAuctions
    case Udp(ReadClock(_)) => g.parent.SawNoEnd?
    case Udp(WriteEnd) => g.parent.FoundOverdue?
    case Udp(_) => g.parent.Idle?
  }

  function SetPhase(g: Global, pid: nat, phase: Phase): Global
    requires pid in g.children
  {
    g.(children := g.children[pid := g.children[pid].(phase := phase)])
  }

  /** A step of the parent that may take it. */
  function ParentMove(c: Core, sh: Shared, parent: Parent, w: ParentStep): (Shared, Parent)
  {
    match w
    case PutPass(uid, pass) => (sh.(pass := sh.pass[uid := pass]), Idle)
    case PutLogin(uid) => (sh.(login := sh.login + {uid}), Idle)
    case RemoveLogin(uid) => (sh.(login := sh.login - {uid}), Idle)
    case RemovePass(uid) => (sh.(pass := sh.pass - {uid}), Idle)
    case SeeEnd(id) => (sh, if id in sh.ended then Idle else SawNoEnd(id))
    case ReadClock(now) =>
      (sh, if parent.SawNoEnd? && Overdue(c, parent.id, now) then FoundOverdue(parent.id) else Idle)
    case WriteEnd => (if parent.FoundOverdue? then Expire(c, sh, parent.id) else sh, Idle)
  }

  ghost function Do(g: Global, a: Action): Global
    requires Enabled(g, a)
  {
    match a
    case Fork(pid, req) => g.(children := g.children[pid := Child(req, Waiting)])
    case LockAuctions(pid) => SetPhase(g, pid, HasAuctions).(auctionsLock := Some(pid))
    case LockUsers(pid) =>
      SetPhase(g, pid, Inside(FirstPc(g.children[pid].req))).(usersLock := Some(pid), entered := g.entered + [pid])
    case Go(pid, now) =>
      var child := g.children[pid];
      var (core, shared, pc) := Work(g.core, g.shared, child.req, child.phase.pc, now);
      SetPhase(g, pid, Inside(pc)).(core := core, shared := shared)
    case UnlockAuctions(pid) =>
      var child := g.children[pid];
      SetPhase(g, pid, LeftAuctions)
        .(auctionsLock := None, history := g.history + [Done(pid, child.req, child.phase.pc.outcome)])
    case UnlockUsers(pid) => SetPhase(g, pid, Exited).(usersLock := None)
    case Udp(w) =>
      var (shared, parent) := ParentMove(g.core, g.shared, g.parent, w);
      g.(shared := shared, parent := parent)
  }

  ghost predicate Schedule(actions: seq<Action>)
    decreases |actions|, 0
  {
    actions == [] ||
    (Schedule(actions[..|actions| - 1]) && Enabled(StateAfter(actions[..|actions| - 1]), actions[|actions| - 1]))
  }

  /** The state a schedule leads to. */
  ghost function StateAfter(actions: seq<Action>): Global
    requires Schedule(actions)
    decreases |actions|, 1
  {
    if actions == [] then INITIAL
    else Do(StateAfter(actions[..|actions| - 1]), actions[|actions| - 1])
  }

  // ---------- The invariant ----------

  /** How far the insider has got, counted from the core files as they were when it entered. */
  ghost predicate Progress(base: Core, r: Request, pc: Pc, core: Core)
  {
    match pc
    case OpenHosted(id) => core == base && id == NextCoreId(base)
    case OpenMkdir(id) => id == NextCoreId(base) && r.Open? && core == base.(hosted := base.hosted + {(r.uid, id)})
    case OpenStart(id) =>
      id == NextCoreId(base) && r.Open? &&
      core == base.(hosted := base.hosted + {(r.uid, id)},
                    auctions := base.auctions[id := CoreAuction(None, map[], None)])
    case OpenAsset(id, stamp) =>
      id == NextCoreId(base) && r.Open? &&
      core == base.(hosted := base.hosted + {(r.uid, id)},
                    auctions := base.auctions[id := CoreAuction(Some(StartOf(r, stamp)), map[], None)])
    case BidWrite => core == base && r.BidOn? && Biddable(base, r.aid, r.value, r.uid)
    case BidIndex(stamp) =>
      r.BidOn? && Biddable(base, r.aid, r.value, r.uid) && core == AddBid(base, r.aid, r.value, r.uid, stamp)
    case BidScan => core == base && r.BidOn?
    case Finished(o) => core == Serial(base, r, o)
    case _ => core == base
  }

  ghost predicate LocksOk(g: Global)
  {
    && (forall p | p in g.children ::
          ((g.children[p].phase == HasAuctions || g.children[p].phase.Inside?) <==> g.auctionsLock == Some(p)) &&
          ((g.children[p].phase == LeftAuctions || g.children[p].phase.Inside?) <==> g.usersLock == Some(p)))
    && (g.auctionsLock.Some? ==> g.auctionsLock.value in g.children)
    && (g.usersLock.Some? ==> g.usersLock.value in g.children)
  }

  /** The child between its second lock and its first unlock, if there is one. */
  ghost function Insider(g: Global): Option<nat>
  {
    if g.usersLock.Some? && In(g, g.usersLock.value) then g.usersLock else None
  }

  function Pids(history: seq<Done>): seq<nat> { seq(|history|, k requires 0 <= k < |history| => history[k].pid) }

  ghost predicate CoreOk(g: Global)
  {
    match Insider(g)
    case None => g.core == Replay(g.history) && g.entered == Pids(g.history)
    case Some(p) =>
      Fits(g.children[p].req, g.children[p].phase.pc) &&
      Progress(Replay(g.history), g.children[p].req, g.children[p].phase.pc, g.core) &&
      g.entered == Pids(g.history) + [p]
  }

  ghost predicate GInv(g: Global)
  {
    LocksOk(g) && CoreOk(g) && forall p | p in g.children :: IsTcp(g.children[p].req) && ValidRequest(g.children[p].req)
  }

  lemma OpenProgresses(base: Core, c: Core, sh: Shared, r: Request, pc: Pc, now: nat)
    requires Fits(r, pc) && !pc.Finished? && r.Open? && Progress(base, r, pc, c)
    ensures Progress(base, r, Work(c, sh, r, pc, now).2, Work(c, sh, r, pc, now).0)
  {
  }

  lemma WorkProgresses(base: Core, c: Core, sh: Shared, r: Request, pc: Pc, now: nat)
    requires Fits(r, pc) && !pc.Finished? && Progress(base, r, pc, c)
    ensures Fits(r, Work(c, sh, r, pc, now).2)
    ensures Progress(base, r, Work(c, sh, r, pc, now).2, Work(c, sh, r, pc, now).0)
  {
    if r.Open? { OpenProgresses(base, c, sh, r, pc, now); }
  }

  lemma DoKeepsLocks(g: Global, a: Action)
    requires LocksOk(g) && Enabled(g, a)
    requires forall p | p in g.children :: IsTcp(g.children[p].req)
    ensures LocksOk(Do(g, a))
  {
  }

  lemma GoKeepsCore(g: Global, p: nat, now: nat)
    requires GInv(g) && Enabled(g, Go(p, now))
    ensures CoreOk(Do(g, Go(p, now)))
  {
    assert Insider(g) == Some(p);
    WorkProgresses(Replay(g.history), g.core, g.shared, g.children[p].req, g.children[p].phase.pc, now);
    assert Insider(Do(g, Go(p, now))) == Some(p);
  }

  lemma UnlockKeepsCore(g: Global, p: nat)
    requires GInv(g) && Enabled(g, UnlockAuctions(p))
    ensures CoreOk(Do(g, UnlockAuctions(p)))
  {
    var g' := Do(g, UnlockAuctions(p));
    assert g'.history[..|g'.history| - 1] == g.history;
    assert Pids(g'.history) == Pids(g.history) + [p];
  }

  lemma DoKeepsCore(g: Global, a: Action)
    requires GInv(g) && Enabled(g, a)
    ensures CoreOk(Do(g, a))
  {
    match a
    case Go(p, now) => GoKeepsCore(g, p, now);
    case UnlockAuctions(p) => UnlockKeepsCore(g, p);
    case _ =>
  }

  lemma {:induction false} ReachedGInv(actions: seq<Action>)
    requires Schedule(actions)
    ensures GInv(StateAfter(actions))
  {
    if actions != [] {
      var n := |actions| - 1;
      ReachedGInv(actions[..n]);
      DoKeepsLocks(StateAfter(actions[..n]), actions[n]);
      DoKeepsCore(StateAfter(actions[..n]), actions[n]);
    } else {
      assert Pids([]) == [];
    }
  }

  // ---------- Main results ----------

  /** At most one child is ever inside `process_tcp_request`. */
  lemma MutualExclusion(actions: seq<Action>, p: nat, q: nat)
    requires Schedule(actions) && In(StateAfter(actions), p) && In(StateAfter(actions), q)
    ensures p == q
  {
    ReachedGInv(actions);
    var g := StateAfter(actions);
    assert g.usersLock == Some(p) && g.usersLock == Some(q);
  }

  predicate IsMoveOf(a: Action, p: nat)
  {
    match a
    case LockAuctions(pid) => pid == p
    case LockUsers(pid) => pid == p
    case Go(pid, _) => pid == p
    case UnlockAuctions(pid) => pid == p
    case UnlockUsers(pid) => pid == p
    case _ => false
  }

  /** The fixed order of the locks rules out deadlock: while a child has not exited, some child can move. */
  lemma NoDeadlock(actions: seq<Action>, p: nat) returns (q: nat, a: Action)
    requires Schedule(actions) && p in StateAfter(actions).children && StateAfter(actions).children[p].phase != Exited
    ensures q in StateAfter(actions).children && IsMoveOf(a, q) && Enabled(StateAfter(actions), a)
  {
    ReachedGInv(actions);
    var g := StateAfter(actions);
    if g.usersLock.Some? {
      q := g.usersLock.value;
      a := if g.children[q].phase == LeftAuctions then UnlockUsers(q)
           else if g.children[q].phase.pc.Finished? then UnlockAuctions(q) else Go(q, 0);
    } else if g.auctionsLock.Some? {
      q := g.auctionsLock.value;
      a := LockUsers(q);
    } else {
      q, a := p, LockAuctions(p);
    }
  }

  function PcStepsLeft(pc: Pc): nat
  {
    match pc
    case OpenExists => 10 case OpenPassword => 9 case OpenLogin => 8 case OpenScan => 7
    case OpenHosted(_) => 6 case OpenMkdir(_) => 5 case OpenStart(_) => 4 case OpenAsset(_, _) => 3
    case BidLogin => 10 case BidPassword => 9 case BidSee => 8 case BidClock => 7 case BidExpire => 6
    case BidHosted => 6 case BidScan => 5 case BidWrite => 4 case BidIndex(_) => 3
    case CloseLogin => 10 case ClosePassword => 9 case CloseExists => 8 case CloseHosted => 7
    case CloseSee => 6 case CloseClock => 5 case CloseExpire => 4 case CloseEnd => 4
    case AssetRead => 3
    case Finished(_) => 2
  }

  /** An upper bound on the moves a child still has to make. */
  function StepsLeft(child: Child): nat
  {
    match child.phase
    case Waiting => 12
    case HasAuctions => 11
    case Inside(pc) => PcStepsLeft(pc)
    case LeftAuctions => 1
    case Exited => 0
  }

  lemma OthersStay(g: Global, a: Action, p: nat)
    requires Enabled(g, a) && p in g.children && !IsMoveOf(a, p)
    ensures p in Do(g, a).children && Do(g, a).children[p] == g.children[p]
  {
  }

  lemma OwnMoveAdvances(g: Global, a: Action, p: nat)
    requires Enabled(g, a) && p in g.children && IsMoveOf(a, p)
    ensures p in Do(g, a).children && StepsLeft(Do(g, a).children[p]) < StepsLeft(g.children[p])
  {
    if a.Go? { WorkAdvances(g.core, g.shared, g.children[p].req, g.children[p].phase.pc, a.now); }
  }

  /** Every move of a child brings it closer to its exit and no other move changes how far it is, so a
      child exits after at most twelve moves of its own. */
  lemma MovesFinish(actions: seq<Action>, a: Action, p: nat)
    requires Schedule(actions) && Enabled(StateAfter(actions), a) && p in StateAfter(actions).children
    ensures var g, g' := StateAfter(actions), Do(StateAfter(actions), a);
            p in g'.children && StepsLeft(g.children[p]) <= 12 &&
            if IsMoveOf(a, p) then StepsLeft(g'.children[p]) < StepsLeft(g.children[p])
            else g'.children[p] == g.children[p]
  {
    if IsMoveOf(a, p) { OwnMoveAdvances(StateAfter(actions), a, p); } else { OthersStay(StateAfter(actions), a, p); }
  }

  lemma WorkAdvances(c: Core, sh: Shared, r: Request, pc: Pc, now: nat)
    requires Fits(r, pc) && !pc.Finished?
    ensures PcStepsLeft(Work(c, sh, r, pc, now).2) < PcStepsLeft(pc)
  {
  }

  /** Main result: whenever no child is between its locks, the auction directories, START files, bids,
      hosted and bidded entries are those of running the finished children one after another, in the
      order they got the locks, with the outcomes their checks had. While one is inside, they are that
      plus the part of its own work it has done. */
  lemma EveryInterleavingIsSerial(actions: seq<Action>)
    requires Schedule(actions)
    ensures var g := StateAfter(actions);
            if forall p | p in g.children :: !In(g, p)
            then g.core == Replay(g.history) && g.entered == Pids(g.history)
            else exists p: nat :: In(g, p) && g.entered == Pids(g.history) + [p] &&
                                  Progress(Replay(g.history), g.children[p].req, g.children[p].phase.pc, g.core)
  {
    ReachedGInv(actions);
    var g := StateAfter(actions);
    if p :| p in g.children && In(g, p) {
      assert g.usersLock == Some(p) && Insider(g) == Some(p);
    } else {
      assert Insider(g) == None;
    }
  }

  // ---------- What the serial order gives ----------

  ghost predicate CoreInv(c: Core)
  {
    && (forall id: nat :: id in c.auctions <==> 1 <= id <= |c.auctions|)
    && (forall id | id in c.auctions :: c.auctions[id].start.Some?)
    && (forall uid, id: nat :: (uid, id) in c.hosted <==> id in c.auctions && c.auctions[id].start.value.owner == uid)
    && (forall uid, id: nat :: (uid, id) in c.bidded <==> id in c.auctions && HasBidBy(c.auctions[id].bids, uid))
  }

  lemma NextCoreIdIsFresh(c: Core)
    requires CoreInv(c)
    ensures NextCoreId(c) == |c.auctions| + 1 && NextCoreId(c) !in c.auctions
  {
    assert |c.auctions| == |c.auctions.Keys|;
    MaxOfDense(c.auctions.Keys);
  }

  lemma SerialOpenKeeps(c: Core, r: Request, o: Outcome)
    requires CoreInv(c) && r.Open? && o.passed
    ensures CoreInv(Serial(c, r, o))
  {
    NextCoreIdIsFresh(c);
    var c', id := Serial(c, r, o), NextCoreId(c);
    assert |c'.auctions| == |c.auctions| + 1;
    forall uid
      ensures !HasBidBy(c'.auctions[id].bids, uid)
    {
    }
  }

  lemma SerialBidKeeps(c: Core, r: Request, o: Outcome)
    requires CoreInv(c) && r.BidOn? && o.passed && Biddable(c, r.aid, r.value, r.uid)
    ensures CoreInv(Serial(c, r, o))
  {
    var c' := Serial(c, r, o);
    var a, a' := c.auctions[r.aid], c'.auctions[r.aid];
    assert c'.auctions.Keys == c.auctions.Keys;
    assert |c'.auctions| == |c'.auctions.Keys| && |c.auctions| == |c.auctions.Keys|;
    forall uid
      ensures HasBidBy(a'.bids, uid) == (HasBidBy(a.bids, uid) || uid == r.uid)
    {
      assert a'.bids[r.value].bidder == r.uid;
      if HasBidBy(a.bids, uid) {
        var v: nat :| v in a.bids && a.bids[v].bidder == uid;
        assert v in a'.bids && a'.bids[v].bidder == uid;
      }
    }
  }

  lemma {:induction false} ReplayInv(history: seq<Done>)
    ensures CoreInv(Replay(history))
  {
    if history != [] {
      var n := |history| - 1;
      var r, o := history[n].req, history[n].outcome;
      ReplayInv(history[..n]);
      var c := Replay(history[..n]);
      if o.passed && r.Open? {
        SerialOpenKeeps(c, r, o);
      } else if o.passed && r.BidOn? && Biddable(c, r.aid, r.value, r.uid) {
        SerialBidKeeps(c, r, o);
      }
    }
  }

  /** Whenever no child is between its locks, identifiers are exactly 1..n, every auction has its START
      file, and both indexes agree with the auctions. */
  lemma QuietStatesAreConsistent(actions: seq<Action>)
    requires Schedule(actions) && forall p | p in StateAfter(actions).children :: !In(StateAfter(actions), p)
    ensures CoreInv(StateAfter(actions).core)
  {
    EveryInterleavingIsSerial(actions);
    ReplayInv(StateAfter(actions).history);
  }

  /** In every reachable state, busy or quiet, identifiers are exactly 1..n, and the directory a child is
      about to make does not exist yet. */
  lemma IdsNeverCollide(actions: seq<Action>)
    requires Schedule(actions)
    ensures var g := StateAfter(actions);
            (forall id: nat :: id in g.core.auctions <==> 1 <= id <= |g.core.auctions|) &&
            forall p | In(g, p) && g.children[p].phase.pc.OpenMkdir? ::
              g.children[p].phase.pc.id == |g.core.auctions| + 1
  {
    ReachedGInv(actions);
    var g := StateAfter(actions);
    var base := Replay(g.history);
    ReplayInv(g.history);
    NextCoreIdIsFresh(base);
    if Insider(g).Some? {
      ProgressDense(base, g.children[Insider(g).value].req, g.children[Insider(g).value].phase.pc, g.core);
    }
    forall p | In(g, p) && g.children[p].phase.pc.OpenMkdir?
      ensures g.children[p].phase.pc.id == |g.core.auctions| + 1
    {
      assert Insider(g) == Some(p);
    }
  }

  lemma ProgressDense(base: Core, r: Request, pc: Pc, c: Core)
    requires CoreInv(base) && Progress(base, r, pc, c)
    ensures forall id: nat :: id in c.auctions <==> 1 <= id <= |c.auctions|
  {
    ProgressKeys(base, r, pc, c);
    NextCoreIdIsFresh(base);
    assert |c.auctions| == |c.auctions.Keys| && |base.auctions| == |base.auctions.Keys|;
  }

  lemma ProgressKeys(base: Core, r: Request, pc: Pc, c: Core)
    requires Progress(base, r, pc, c)
    ensures c.auctions.Keys == base.auctions.Keys || c.auctions.Keys == base.auctions.Keys + {NextCoreId(base)}
  {
  }

  /** Whatever anybody does next, bids on file stay, and a new bid is above the start value and above
      every bid on file, so no bid file is ever overwritten. */
  lemma BidsOnlyRise(actions: seq<Action>, a: Action, id: nat, value: nat)
    requires Schedule(actions) && Enabled(StateAfter(actions), a)
    requires id in StateAfter(actions).core.auctions
    ensures var c, c' := StateAfter(actions).core, Do(StateAfter(actions), a).core;
            id in c'.auctions &&
            (value in c.auctions[id].bids ==>
                value in c'.auctions[id].bids && c'.auctions[id].bids[value] == c.auctions[id].bids[value]) &&
            (value !in c.auctions[id].bids && value in c'.auctions[id].bids ==>
               c.auctions[id].start.Some? && value > c.auctions[id].start.value.startValue &&
               forall v | v in c.auctions[id].bids :: value > v)
  {
    ReachedGInv(actions);
    var g := StateAfter(actions);
    if a.Go? {
      assert Insider(g) == Some(a.pid);
      ReplayInv(g.history);
      NextCoreIdIsFresh(Replay(g.history));
      WorkBids(Replay(g.history), g.core, g.shared, g.children[a.pid].req, g.children[a.pid].phase.pc, a.now, id,
        value);
    }
  }

  /** What an auction's bids and START value are after a step that does not write a bid into it. */
  lemma WorkKeepsBids(base: Core, c: Core, sh: Shared, r: Request, pc: Pc, now: nat, id: nat)
    requires Fits(r, pc) && !pc.Finished? && Progress(base, r, pc, c) && NextCoreId(base) !in base.auctions
    requires !(pc.BidWrite? && r.aid == id)
    ensures var c' := Work(c, sh, r, pc, now).0;
            if id in c.auctions then
              id in c'.auctions && c'.auctions[id].bids == c.auctions[id].bids &&
              (c.auctions[id].start.Some? ==> c'.auctions[id].start == c.auctions[id].start)
            else id in c'.auctions ==> c'.auctions[id].bids == map[]
  {
  }

  lemma WorkWritesBid(base: Core, c: Core, sh: Shared, r: Request, now: nat)
    requires r.BidOn? && Progress(base, r, BidWrite, c)
    ensures Biddable(c, r.aid, r.value, r.uid)
    ensures Work(c, sh, r, BidWrite, now).0 == AddBid(c, r.aid, r.value, r.uid, now)
  {
  }

  lemma WorkBids(base: Core, c: Core, sh: Shared, r: Request, pc: Pc, now: nat, id: nat, value: nat)
    requires Fits(r, pc) && !pc.Finished? && Progress(base, r, pc, c) && NextCoreId(base) !in base.auctions
    requires id in c.auctions
    ensures var c' := Work(c, sh, r, pc, now).0;
            id in c'.auctions &&
            (value in c.auctions[id].bids ==>
                value in c'.auctions[id].bids && c'.auctions[id].bids[value] == c.auctions[id].bids[value]) &&
            (value !in c.auctions[id].bids && value in c'.auctions[id].bids ==>
               c.auctions[id].start.Some? && value > c.auctions[id].start.value.startValue &&
               forall v | v in c.auctions[id].bids :: value > v)
  {
    if pc.BidWrite? && r.aid == id {
      WorkWritesBid(base, c, sh, r, now);
    } else {
      WorkKeepsBids(base, c, sh, r, pc, now, id);
    }
  }

  /** This action writes END of auction `id`. */
  predicate WritesEnd(g: Global, a: Action, id: nat)
  {
    match a
    case Udp(WriteEnd) => g.parent == FoundOverdue(id)
    case Go(p, _) =>
      In(g, p) &&
      var r, pc := g.children[p].req, g.children[p].phase.pc;
      (pc.BidExpire? && r.BidOn? && r.aid == id) ||
      ((pc.CloseExpire? || pc.CloseEnd?) && r.Close? && AllDigits(r.aidText) && Num(r.aidText) == id)
    case _ => false
  }

  /** END files are never removed, and only these actions make or change them. */
  lemma EndsRemain(g: Global, a: Action, id: nat)
    requires Enabled(g, a)
    ensures id in g.shared.ended ==> id in Do(g, a).shared.ended
    ensures !WritesEnd(g, a, id) ==>
              (id in Do(g, a).shared.ended ==> id in g.shared.ended && Do(g, a).shared.ended[id] == g.shared.ended[id])
  {
  }

  // ---------- The request-at-a-time server is one of these serial runs ----------

  function CoreOf(s: State): Core
  {
    Core(map id | id in s.auctions ::
           CoreAuction(Some(s.auctions[id].start), s.auctions[id].bids, s.auctions[id].asset),
         set uid, id | uid in s.users && id in s.users[uid].hosted :: (uid, id),
         set uid, id | uid in s.users && id in s.users[uid].bidded :: (uid, id))
  }

  predicate ChecksPass(s: State, r: Request, t1: nat)
  {
    match r
    case Open(uid, pass, _, _, _, _, _) => Exists(s, uid) && PasswordOk(s, uid, pass) && LoggedIn(s, uid)
    case BidOn(uid, pass, id, _) => LoggedIn(s, uid) && PasswordOk(s, uid, pass) && Ongoing(s, id, t1)
    case Close(uid, pass, aidText) =>
      LoggedIn(s, uid) && PasswordOk(s, uid, pass) && AllDigits(aidText) && DirectoryExists(s, aidText) &&
      Num(aidText) in s.users[uid].hosted && Ongoing(s, Num(aidText), t1)
    case ShowAsset(_) => true
    case _ => false
  }

  lemma CoreOfNotice(s: State, ids: set<nat>, now: nat)
    ensures CoreOf(Notice(s, ids, now)) == CoreOf(s)
  {
  }

  lemma CoreOfAccounts(s: State, uid: string, u: User)
    requires u.hosted == HostedOf(s, uid) && u.bidded == BiddedOf(s, uid)
    ensures CoreOf(SetUser(s, uid, u)) == CoreOf(s)
  {
  }

  lemma CoreOfOpen(s: State, r: Request, now: nat)
    requires r.Open? && r.uid in s.users
    ensures CoreOf(CreateAuction(s, StartOf(r, now), r.upload)) == Serial(CoreOf(s), r, Outcome(true, now))
  {
    assert CoreOf(s).auctions.Keys == s.auctions.Keys;
  }

  lemma CoreOfBid(s: State, id: nat, value: nat, uid: string, now: nat)
    requires id in s.auctions && uid in s.users
    ensures CoreOf(PlaceBid(s, id, value, uid, now)) ==
            AddBid(CoreOf(s), id, value, uid, now).(bidded := CoreOf(s).bidded + {(uid, id)})
  {
  }

  lemma BidIsSerial(s: State, r: Request, t1: nat, t2: nat)
    requires r.BidOn?
    ensures CoreOf(BidStep(s, r.uid, r.pass, r.aid, r.value, t1, t2).0) ==
            Serial(CoreOf(s), r, Outcome(ChecksPass(s, r, t1), t2))
  {
    CoreOfNotice(s, {r.aid}, t1);
    if ChecksPass(s, r, t1) {
      assert Notice(s, {r.aid}, t1).auctions == s.auctions;
      assert (r.uid, r.aid) in CoreOf(s).hosted <==> r.aid in s.users[r.uid].hosted;
      CoreOfBid(s, r.aid, r.value, r.uid, t2);
    }
  }

  /** The request-at-a-time model does to the core files what the serial replay says, given the outcome of
      its own checks; requests other than open and bid leave the core files alone. */
  lemma AtomicIsSerial(s: State, r: Request, t1: nat, t2: nat)
    requires ValidRequest(r)
    ensures CoreOf(Step(s, r, t1, t2).0) == Serial(CoreOf(s), r, Outcome(ChecksPass(s, r, t1), t2))
  {
    match r
    case Login(uid, pass) =>
      var u := if uid in s.users then s.users[uid] else User(None, false, {}, {});
      CoreOfAccounts(s, uid, u.(pass := Some(pass), login := true));
      CoreOfAccounts(s, uid, u.(login := !u.login));
    case Logout(uid, pass) => if uid in s.users { CoreOfAccounts(s, uid, s.users[uid].(login := !s.users[uid].login)); }
    case Unregister(uid, pass) =>
      if uid in s.users { CoreOfAccounts(s, uid, s.users[uid].(pass := None, login := false)); }
    case MyAuctions(uid) => CoreOfNotice(s, HostedOf(s, uid), t1);
    case MyBids(uid) => CoreOfNotice(s, BiddedOf(s, uid), t1);
    case List(_) => CoreOfNotice(s, s.auctions.Keys, t1);
    case ShowRecord(id) => CoreOfNotice(s, {id}, t1);
    case Open(uid, pass, _, _, _, _, _) => if uid in s.users { CoreOfOpen(s, r, t2); }
    case BidOn(_, _, _, _) => BidIsSerial(s, r, t1, t2);
    case Close(_, _, aidText) =>
      CoreOfNotice(s, {Num(aidText)}, t1);
      if Num(aidText) in s.auctions { assert CoreOf(CloseAuction(s, Num(aidText), t2)) == CoreOf(s); }
    case ShowAsset(_) =>
  }
}
