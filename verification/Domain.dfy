/** What the server stores, what clients ask and what it answers. */
module Domain {
  import opened Text

  datatype Option<+T> = None | Some(value: T)

  // ---------- Stored data ----------

  /** The contents of START_aid.txt. Times are the seconds `time` returns. */
  datatype Start = Start(owner: string, name: string, fname: string, startValue: nat, timeActive: nat, startTime: nat)

  /** The contents of bids/value.txt; `secs` is the time stamp minus the start time. */
  datatype Bid = Bid(bidder: string, time: nat, secs: int)

  /** The contents of END_aid.txt. */
  datatype End = End(time: nat, secs: int)

  /** `asset` is the one file in asset/, absent when its name could not be opened for writing. */
  datatype Auction = Auction(start: Start, bids: map<nat, Bid>, end: Option<End>, asset: Option<string>)

  /** A directory users/uid; it survives unregistering, which only removes pass.txt and login.txt. */
  datatype User = User(pass: Option<string>, login: bool, hosted: set<nat>, bidded: set<nat>)

  datatype State = State(users: map<string, User>, auctions: map<nat, Auction>)

  const EMPTY := State(map[], map[])

  // ---------- Requests ----------

  /** What `store_file` got from the socket: the bytes it wrote, and whether all the announced bytes
      and the closing newline arrived. */
  datatype Upload = Upload(received: string, complete: bool)

  /** `firstEntry` of List is the auction, if any, that the directory scan of `exists_auctions` happens
      to return first. Close and ShowAsset keep the identifier as text, since the server looks up a
      directory of exactly that name. */
  datatype Request =
    | Login(uid: string, pass: string)
    | Logout(uid: string, pass: string)
    | Unregister(uid: string, pass: string)
    | MyAuctions(uid: string)
    | MyBids(uid: string)
    | List(firstEntry: Option<nat>)
    | ShowRecord(aid: nat)
    | Open(uid: string, pass: string, name: string, fname: string, startValue: nat, timeActive: nat, upload: Upload)
    | Close(uid: string, pass: string, aidText: string)
    | BidOn(uid: string, pass: string, aid: nat, value: nat)
    | ShowAsset(aidText: string)

  datatype Reply =
    | Ok | Reg | Nok | Nlg | Unr
    | Acc | Ref | Ilg
    | Eau | Eow | Ended
    | Opened(aid: nat)
    | Listed(entries: map<nat, bool>)
    | Record(start: Start, bids: map<nat, Bid>, end: Option<End>)
    | Asset(fname: string, bytes: string)
    | NoAsset

  /** The requests that only ask. */
  predicate IsQuery(r: Request)
  {
    r.List? || r.MyAuctions? || r.MyBids? || r.ShowRecord? || r.ShowAsset?
  }

  // ---------- Field formats ----------

  predicate GoodUid(s: string) { |s| == 6 && AllDigits(s) }

  predicate GoodPass(s: string) { |s| == 8 && AllAlnum(s) }

  predicate GoodName(s: string)
  {
    1 <= |s| <= 10 && forall i | 0 <= i < |s| :: IsAlnum(s[i]) || s[i] == '_' || s[i] == '-'
  }

  predicate GoodFname(s: string)
  {
    1 <= |s| <= 24 && forall i | 0 <= i < |s| :: IsAlnum(s[i]) || s[i] == '.' || s[i] == '_' || s[i] == '-'
  }

  predicate GoodAidText(s: string) { |s| <= 3 && AllDigits(s) }

  /** A request as the server's parsers let it through. */
  predicate ValidRequest(r: Request)
  {
    match r
    case Login(uid, pass) => GoodUid(uid) && GoodPass(pass)
    case Logout(uid, pass) => GoodUid(uid) && GoodPass(pass)
    case Unregister(uid, pass) => GoodUid(uid) && GoodPass(pass)
    case MyAuctions(uid) => GoodUid(uid)
    case MyBids(uid) => GoodUid(uid)
    case List(_) => true
    case ShowRecord(aid) => aid <= 999
    case Open(uid, pass, name, fname, startValue, timeActive, _) =>
      GoodUid(uid) && GoodPass(pass) && GoodName(name) && GoodFname(fname) &&
      startValue <= 999999 && timeActive <= 99999
    case Close(uid, pass, aidText) => GoodUid(uid) && GoodPass(pass) && GoodAidText(aidText)
    case BidOn(uid, pass, aid, value) => GoodUid(uid) && GoodPass(pass) && aid <= 999 && value <= 999999
    case ShowAsset(aidText) => GoodAidText(aidText) && aidText != ""
  }

  /** The two names every directory holds. As names of assets they pass the file name check, but `fopen`
      for writing fails on them. */
  predicate IsDot(name: string) { name == "." || name == ".." }

  /** What asset/ holds after `create_auction`. */
  function StoredAsset(fname: string, upload: Upload): Option<string>
  {
    if IsDot(fname) then None else Some(upload.received)
  }

  /** Whether `store_file` returns nonzero. It returns the byte count, so an empty asset reads as failure. */
  predicate UploadSucceeds(fname: string, upload: Upload)
  {
    !IsDot(fname) && upload.complete && upload.received != ""
  }

  // ---------- Runs ----------

  /** A request with the clock read when the handler checks (t1) and when it stamps a file (t2). */
  datatype Event = Event(req: Request, t1: nat, t2: nat)

  /** The clock never runs backwards. */
  predicate Timely(run: seq<Event>)
  {
    (forall k | 0 <= k < |run| :: run[k].t1 <= run[k].t2) &&
    (forall j, k | 0 <= j < k < |run| :: run[j].t2 <= run[k].t1)
  }

  predicate ValidRun(run: seq<Event>)
  {
    Timely(run) && forall k | 0 <= k < |run| :: ValidRequest(run[k].req)
  }

  function EndTime(run: seq<Event>): nat { if run == [] then 0 else run[|run| - 1].t2 }

  lemma ValidPrefix(run: seq<Event>, k: nat)
    requires ValidRun(run) && k <= |run|
    ensures ValidRun(run[..k])
    ensures k < |run| ==> EndTime(run[..k]) <= run[k].t1 <= run[k].t2
  {
  }
}
