/** The server as its code works: END_aid.txt is written by whichever request first looks at an
    auction after its time ran out. One function per request handler. */
module LazyServer {
  import opened Text
  import opened Domain

  // ---------- Accounts (udp_functions.c:3-96) ----------

  predicate Exists(s: State, uid: string) { uid in s.users && s.users[uid].pass.Some? }

  predicate PasswordOk(s: State, uid: string, pass: string) { uid in s.users && s.users[uid].pass == Some(pass) }

  predicate LoggedIn(s: State, uid: string) { uid in s.users && s.users[uid].login }

  function SetUser(s: State, uid: string, u: User): State { s.(users := s.users[uid := u]) }

  /** `create_user`: directories of a former life are kept. */
  function CreateUser(s: State, uid: string, pass: string): State
  {
    var u := if uid in s.users then s.users[uid] else User(None, false, {}, {});
    SetUser(s, uid, u.(pass := Some(pass), login := true))
  }

  /** `change_user_login` flips the presence of login.txt. */
  function ToggleLogin(s: State, uid: string): State
    requires uid in s.users
  {
    SetUser(s, uid, s.users[uid].(login := !s.users[uid].login))
  }

  function DeleteUser(s: State, uid: string): State
    requires uid in s.users
  {
    SetUser(s, uid, s.users[uid].(pass := None, login := false))
  }

  function LoginStep(s: State, uid: string, pass: string): (State, Reply)
  {
    if !Exists(s, uid) then (CreateUser(s, uid, pass), Reg)
    else if !PasswordOk(s, uid, pass) then (s, Nok)
    else if LoggedIn(s, uid) then (s, Nok)
    else (ToggleLogin(s, uid), Ok)
  }

  function LogoutStep(s: State, uid: string, pass: string): (State, Reply)
  {
    if !Exists(s, uid) then (s, Unr)
    else if !PasswordOk(s, uid, pass) then (s, Nok)
    else if !LoggedIn(s, uid) then (s, Nok)
    else (ToggleLogin(s, uid), Ok)
  }

  function UnregisterStep(s: State, uid: string, pass: string): (State, Reply)
  {
    if !Exists(s, uid) then (s, Nok)
    else if !PasswordOk(s, uid, pass) then (s, Nok)
    else if !LoggedIn(s, uid) then (s, Nok)
    else (DeleteUser(s, uid), Ok)
  }

  // ---------- Lazy expiry (aux_functions.c:468-512) ----------

  function Deadline(start: Start): nat { start.startTime + start.timeActive }

  /** The auction after `ongoing_auction` looked at it. */
  function Noticed(a: Auction, now: nat): Auction
  {
    if a.end.None? && now >= Deadline(a.start) then a.(end := Some(End(Deadline(a.start), a.start.timeActive))) else a
  }

  /** The state after `ongoing_auction` looked at all of `ids`. */
  function Notice(s: State, ids: set<nat>, now: nat): State
  {
    s.(auctions := map id | id in s.auctions :: if id in ids then Noticed(s.auctions[id], now) else s.auctions[id])
  }

  /** What `ongoing_auction` returns. */
  predicate Ongoing(s: State, id: nat, now: nat)
  {
    id in s.auctions && Noticed(s.auctions[id], now).end.None?
  }

  // ---------- Lists and records (udp_functions.c:100-197) ----------

  function Statuses(s: State, ids: set<nat>, now: nat): map<nat, bool>
  {
    map id | id in ids :: Ongoing(s, id, now)
  }

  /** `exists_auctions` throws away the first directory entry it reads. */
  predicate SeesAuctions(s: State, firstEntry: Option<nat>)
  {
    exists id :: id in s.auctions && firstEntry != Some(id)
  }

  function ListStep(s: State, firstEntry: Option<nat>, now: nat): (State, Reply)
  {
    if !SeesAuctions(s, firstEntry) then (s, Nok)
    else (Notice(s, s.auctions.Keys, now), Listed(Statuses(s, s.auctions.Keys, now)))
  }

  function OwnListStep(s: State, uid: string, ids: set<nat>, now: nat): (State, Reply)
  {
    if !LoggedIn(s, uid) then (s, Nlg)
    else if ids == {} then (s, Nok)
    else (Notice(s, ids, now), Listed(Statuses(s, ids, now)))
  }

  function HostedOf(s: State, uid: string): set<nat> { if uid in s.users then s.users[uid].hosted else {} }

  function BiddedOf(s: State, uid: string): set<nat> { if uid in s.users then s.users[uid].bidded else {} }

  function RecordStep(s: State, id: nat, now: nat): (State, Reply)
  {
    if id !in s.auctions then (s, Nok)
    else
      var a := Noticed(s.auctions[id], now);
      (Notice(s, {id}, now), Record(a.start, a.bids, a.end))
  }

  // ---------- Open, bid, close, show asset (tcp_functions.c) ----------

  /** The largest of a set of identifiers, 0 when there is none. */
  ghost function MaxOf(ids: set<nat>): (m: nat)
    ensures forall id | id in ids :: id <= m
    ensures ids == {} ==> m == 0
    ensures ids != {} ==> m in ids
  {
    if ids == {} then 0
    else
      var id :| id in ids;
      var rest := MaxOf(ids - {id});
      assert ids == ids - {id} + {id};
      if id > rest then id else rest
  }

  ghost function NextId(s: State): nat { MaxOf(s.auctions.Keys) + 1 }

  /** Of the identifiers 1..n the largest is n, so the next one is unused. */
  lemma MaxOfDense(ids: set<nat>)
    requires forall id: nat :: id in ids <==> 1 <= id <= |ids|
    ensures MaxOf(ids) == |ids| && MaxOf(ids) + 1 !in ids
  {
    if ids != {} { assert |ids| in ids; }
  }

  ghost function CreateAuction(s: State, start: Start, upload: Upload): State
    requires start.owner in s.users
  {
    var id := NextId(s);
    var u := s.users[start.owner];
    SetUser(s, start.owner, u.(hosted := u.hosted + {id}))
      .(auctions := s.auctions[id := Auction(start, map[], None, StoredAsset(start.fname, upload))])
  }

  /** A failed upload answers NOK but everything `create_auction` made so far stays. */
  ghost function OpenStep(s: State, r: Request, now: nat): (State, Reply)
    requires r.Open?
  {
    if !Exists(s, r.uid) then (s, Nok)
    else if !PasswordOk(s, r.uid, r.pass) then (s, Nok)
    else if !LoggedIn(s, r.uid) then (s, Nlg)
    else
      var start := Start(r.uid, r.name, r.fname, r.startValue, r.timeActive, now);
      (CreateAuction(s, start, r.upload), if UploadSucceeds(r.fname, r.upload) then Opened(NextId(s)) else Nok)
  }

  /** `bid_accepted`: above the start value and every bid on file. */
  predicate Outbids(a: Auction, value: nat)
  {
    value > a.start.startValue && forall v | v in a.bids :: value > v
  }

  function PlaceBid(s: State, id: nat, value: nat, uid: string, now: nat): State
    requires id in s.auctions && uid in s.users
  {
    var a := s.auctions[id];
    var u := s.users[uid];
    var bid := Bid(uid, now, now - a.start.startTime);
    SetUser(s, uid, u.(bidded := u.bidded + {id})).(auctions := s.auctions[id := a.(bids := a.bids[value := bid])])
  }

  function BidStep(s: State, uid: string, pass: string, id: nat, value: nat, t1: nat, t2: nat): (State, Reply)
  {
    if !LoggedIn(s, uid) then (s, Nlg)
    else if !PasswordOk(s, uid, pass) then (s, Nok)
    else
      var s1 := Notice(s, {id}, t1);
      if !Ongoing(s, id, t1) then (s1, Nok)
      else if id in s.users[uid].hosted then (s1, Ilg)
      else if Outbids(s.auctions[id], value) then (PlaceBid(s1, id, value, uid, t2), Acc)
      else (s1, Ref)
  }

  /** `exists_auction`: is there a directory of this name; the empty name is the auctions directory itself. */
  predicate DirectoryExists(s: State, aidText: string)
    requires AllDigits(aidText)
  {
    aidText == "" || (aidText == Pad3(Num(aidText)) && Num(aidText) in s.auctions)
  }

  lemma DirectoryOfId(s: State, id: nat)
    ensures AllDigits(Pad3(id)) && Num(Pad3(id)) == id
    ensures DirectoryExists(s, Pad3(id)) <==> id in s.auctions
  {
    AtoiPad(id, 3, "");
    DigitSpanOf(Pad3(id), "");
    assert Pad3(id) + "" == Pad3(id);
  }

  function CloseAuction(s: State, id: nat, now: nat): State
    requires id in s.auctions
  {
    var a := s.auctions[id];
    s.(auctions := s.auctions[id := a.(end := Some(End(now, now - a.start.startTime)))])
  }

  function CloseStep(s: State, uid: string, pass: string, aidText: string, t1: nat, t2: nat): (State, Reply)
    requires AllDigits(aidText)
  {
    var id := Num(aidText);
    if !LoggedIn(s, uid) then (s, Nlg)
    else if !PasswordOk(s, uid, pass) then (s, Nok)
    else if !DirectoryExists(s, aidText) then (s, Eau)
    else if id !in s.users[uid].hosted then (s, Eow)
    else if !Ongoing(s, id, t1) then (Notice(s, {id}, t1), Ended)
    else (CloseAuction(s, id, t2), Ok)
  }

  /** `handle_show_asset` reads only. */
  function AssetReply(s: State, aidText: string): Reply
    requires AllDigits(aidText) && aidText != ""
  {
    if !DirectoryExists(s, aidText) then Nok
    else
      var a := s.auctions[Num(aidText)];
      if a.asset.None? then NoAsset else Asset(a.start.fname, a.asset.value)
  }

  // ---------- One request, and a run of them ----------

  ghost function Step(s: State, r: Request, t1: nat, t2: nat): (State, Reply)
    requires ValidRequest(r)
  {
    match r
    case Login(uid, pass) => LoginStep(s, uid, pass)
    case Logout(uid, pass) => LogoutStep(s, uid, pass)
    case Unregister(uid, pass) => UnregisterStep(s, uid, pass)
    case MyAuctions(uid) => OwnListStep(s, uid, HostedOf(s, uid), t1)
    case MyBids(uid) => OwnListStep(s, uid, BiddedOf(s, uid), t1)
    case List(firstEntry) => ListStep(s, firstEntry, t1)
    case ShowRecord(aid) => RecordStep(s, aid, t1)
    case Open(_, _, _, _, _, _, _) => OpenStep(s, r, t2)
    case Close(uid, pass, aidText) => CloseStep(s, uid, pass, aidText, t1, t2)
    case BidOn(uid, pass, aid, value) => BidStep(s, uid, pass, aid, value, t1, t2)
    case ShowAsset(aidText) => (s, AssetReply(s, aidText))
  }

  /** The state a fresh server is in after a run. */
  ghost function Reached(run: seq<Event>): State
    requires ValidRun(run)
  {
    if run == [] then EMPTY
    else
      var k := |run| - 1;
      Step(Reached(run[..k]), run[k].req, run[k].t1, run[k].t2).0
  }

  /** What request `k` of a run does. */
  ghost function StepAt(run: seq<Event>, k: nat): (State, Reply)
    requires ValidRun(run) && k < |run|
  {
    Step(Reached(run[..k]), run[k].req, run[k].t1, run[k].t2)
  }

  ghost function ReplyAt(run: seq<Event>, k: nat): Reply
    requires ValidRun(run) && k < |run|
  {
    StepAt(run, k).1
  }
}
