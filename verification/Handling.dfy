/** What handling a request means, from the text that comes in to the text that goes out, and the facts
    about states, listings and texts that the handlers of FileServer rest on. */
module Handling {
  import opened Text
  import opened Domain
  import opened LazyServer
  import opened Invariants
  import opened FileText
  import opened Wire
  import opened Paths
  import opened FileView
  import opened Streams
  import opened Requests

  // ---------- Facts the methods use ----------

  lemma RootsMirror()
    ensures Mirrors(map[Name(UsersRoot) := Dir, Name(AuctionsRoot) := Dir], map[UsersRoot := Dir, AuctionsRoot := Dir])
    ensures forall cal :: Shown(map[UsersRoot := Dir, AuctionsRoot := Dir], EMPTY, cal)
    ensures Inv(EMPTY, 0)
  {
  }

  lemma SortedMore(names: seq<string>, name: string)
    requires Sorted(names) && forall n | n in names :: LexLess(n, name)
    ensures Sorted(names + [name])
  {
  }

  lemma SortedDiffer(names: seq<string>)
    requires Sorted(names)
    ensures forall i, j | 0 <= i < j < |names| :: names[i] != names[j]
  {
    forall i, j | 0 <= i < j < |names|
      ensures names[i] != names[j]
    {
      LexTrichotomy(names[i], names[j]);
    }
  }

  lemma GoodUidLocs(uid: string)
    requires GoodUid(uid)
    ensures Plain(uid)
  {
  }

  lemma FnameIsPlain(fname: string)
    requires GoodFname(fname)
    ensures Plain(fname)
  {
  }

  // ---------- The loops over directory entries ----------

  function SetOf(ids: seq<nat>): set<nat> { set id | id in ids }

  /** A scan that keeps the largest number met. */
  method MaxNumber(names: seq<string>) returns (max: nat)
    ensures max == MaxOf(SetOf(Numbers(names)))
  {
    max := 0;
    for i := 0 to |names|
      invariant max == MaxOf(SetOf(Numbers(names[..i])))
    {
      NumbersStep(names, i);
      if names[i] != "." && names[i] != ".." {
        MaxMore(Numbers(names[..i]), Atoi(names[i]));
        var n := Atoi(names[i]);
        if n > max { max := n; }
      }
    }
    assert names[..|names|] == names;
  }

  lemma MaxMore(ns: seq<nat>, n: nat)
    ensures var max := MaxOf(SetOf(ns)); MaxOf(SetOf(ns + [n])) == if n > max then n else max
  {
    assert SetOf(ns + [n]) == SetOf(ns) + {n};
    assert n in SetOf(ns + [n]);
    var more := MaxOf(SetOf(ns + [n]));
    if SetOf(ns) != {} { assert MaxOf(SetOf(ns)) in SetOf(ns + [n]); }
  }

  method HasNumber(names: seq<string>, id: nat) returns (b: bool)
    ensures b == (id in SetOf(Numbers(names)))
  {
    for i := 0 to |names|
      invariant id !in Numbers(names[..i])
    {
      NumbersStep(names, i);
      if names[i] != "." && names[i] != ".." {
        if Atoi(names[i]) == id {
          NumberIsMet(names, i);
          return true;
        }
      }
    }
    assert names[..|names|] == names;
    return false;
  }

  lemma NumberIsMet(names: seq<string>, i: nat)
    requires i < |names| && !IsDot(names[i])
    ensures Atoi(names[i]) in Numbers(names)
  {
    NumbersIn(names);
    assert names[i] in names;
  }

  method OnlyDots(names: seq<string>) returns (b: bool)
    ensures b == (SetOf(Numbers(names)) == {})
  {
    for i := 0 to |names|
      invariant Numbers(names[..i]) == []
    {
      NumbersStep(names, i);
      if names[i] != "." && names[i] != ".." {
        NumberIsMet(names, i);
        assert Atoi(names[i]) in SetOf(Numbers(names));
        return false;
      }
    }
    assert names[..|names|] == names;
    return true;
  }

  method FirstName(names: seq<string>) returns (name: Option<string>)
    ensures match name
            case None => forall n | n in names :: IsDot(n)
            case Some(n) => n in names && !IsDot(n)
  {
    for i := 0 to |names|
      invariant forall j | 0 <= j < i :: IsDot(names[j])
    {
      if names[i] != "." && names[i] != ".." { return Some(names[i]); }
    }
    return None;
  }

  /** The numbers any listing of a directory meets are the numbers on record. */
  lemma ListingMeets(names: seq<string>, view: View, s: State, cal: Calendar, dir: Loc)
    requires IsListing(names, view, dir) && Shown(view, s, cal) && Scanned(dir) && GoodLoc(dir)
    requires forall l | l in view :: GoodLoc(l)
    ensures SetOf(Numbers(names)) == DirNumbers(s, dir)
  {
    ListingNumbers(names, view, s, cal, dir);
    NumbersIn(names);
    forall n | n in DirNumbers(s, dir)
      ensures n in Numbers(names)
    {
      EntryTexts(dir, n);
    }
  }

  /** All but the first name of a listing meet the auctions other than the one of the first name. */
  lemma SeenAfterFirst(names: seq<string>, view: View, s: State, cal: Calendar, firstEntry: Option<nat>)
    requires IsListing(names, view, AuctionsRoot) && Shown(view, s, cal) && forall l | l in view :: GoodLoc(l)
    requires names != [] && firstEntry == if IsDot(names[0]) then None else Some(Atoi(names[0]))
    ensures (SetOf(Numbers(names[1..])) == {}) == !SeesAuctions(s, firstEntry)
  {
    ListingNumbers(names, view, s, cal, AuctionsRoot);
    var rest := SetOf(Numbers(names[1..]));
    forall n: nat
      ensures n in rest <==> n in s.auctions && firstEntry != Some(n)
    {
      RestMeets(names, s, firstEntry, n);
    }
    if rest != {} {
      var n :| n in rest;
      assert n in s.auctions && firstEntry != Some(n);
    }
  }

  /** An unseen auction is the only one. */
  lemma UnseenAreFew(s: State, firstEntry: Option<nat>)
    requires !SeesAuctions(s, firstEntry)
    ensures |s.auctions| <= 1
  {
    if id :| id in s.auctions {
      assert s.auctions.Keys == {id};
      assert |s.auctions| == |s.auctions.Keys|;
    } else {
      assert s.auctions.Keys == {};
      assert |s.auctions| == |s.auctions.Keys|;
    }
  }

  lemma RestMeets(names: seq<string>, s: State, firstEntry: Option<nat>, n: nat)
    requires forall i, j | 0 <= i < j < |names| :: names[i] != names[j]
    requires forall name | name in names && !IsDot(name) :: Atoi(name) in s.auctions && name == Pad3(Atoi(name))
    requires forall id | id in s.auctions :: Pad3(id) in names && !IsDot(Pad3(id))
    requires names != [] && firstEntry == if IsDot(names[0]) then None else Some(Atoi(names[0]))
    ensures n in Numbers(names[1..]) <==> n in s.auctions && firstEntry != Some(n)
  {
    NumbersIn(names[1..]);
    AtoiOfNames(n);
    if n in Numbers(names[1..]) {
      var name :| name in names[1..] && !IsDot(name) && Atoi(name) == n;
      var j :| 1 <= j < |names| && names[j] == name;
      assert names[j] in names && names[0] in names;
    }
    if n in s.auctions && firstEntry != Some(n) {
      assert Pad3(n) in names && Pad3(n) != names[0];
      assert Pad3(n) in names[1..];
    }
  }

  ghost predicate PaddedNames(names: seq<string>)
  {
    forall i | 0 <= i < |names| && !IsDot(names[i]) :: names[i] == Pad3(Atoi(names[i]))
  }

  lemma NamesArePadded(names: seq<string>, view: View, s: State, cal: Calendar)
    requires IsListing(names, view, AuctionsRoot) && Shown(view, s, cal) && forall l | l in view :: GoodLoc(l)
    ensures PaddedNames(names)
  {
    ListingNumbers(names, view, s, cal, AuctionsRoot);
    assert forall i | 0 <= i < |names| :: names[i] in names;
  }

  lemma NumberIsKey(names: seq<string>, i: nat, keys: set<nat>)
    requires i < |names| && !IsDot(names[i]) && Numbers(names) == Ascending(keys)
    ensures Atoi(names[i]) in keys
  {
    NumbersIn(names);
    AscendingIs(keys);
    assert names[i] in names;
  }

  // ---------- What can be read back ----------

  ghost predicate StartsAreWords(s: State) { forall id | id in s.auctions :: WordFields(s.auctions[id].start) }

  lemma InvIsReadable(s: State, now: nat)
    requires Inv(s, now)
    ensures StartsAreWords(s)
  {
  }

  lemma OutbidsBar(a: Auction, value: nat, maxBid: nat, bar: nat)
    requires maxBid == MaxOf(a.bids.Keys)
    requires bar == if maxBid > a.start.startValue then maxBid else a.start.startValue
    ensures Outbids(a, value) <==> value > bar
  {
  }

  lemma AuctionPath(fs: map<string, Node>, view: View, s: State, cal: Calendar, aidText: string)
    requires Mirrors(fs, view) && Shown(view, s, cal) && AllDigits(aidText)
    ensures var path := Name(AuctionsRoot) + "/" + aidText;
            var resolved := if path[|path| - 1] == '/' then path[..|path| - 1] else path;
            (resolved in fs && fs[resolved].Dir?) == DirectoryExists(s, aidText)
  {
    var root := Name(AuctionsRoot);
    var path := root + "/" + aidText;
    if aidText == "" {
      assert path[..|path| - 1] == root;
      ShownAt(view, s, cal, AuctionsRoot);
      assert AuctionsRoot in view;
    } else {
      assert path[|path| - 1] == aidText[|aidText| - 1];
      DirectoryPath(fs, view, s, cal, aidText);
    }
  }

  lemma DirectoryPath(fs: map<string, Node>, view: View, s: State, cal: Calendar, aidText: string)
    requires Mirrors(fs, view) && Shown(view, s, cal) && AllDigits(aidText) && aidText != ""
    ensures var path := Name(AuctionsRoot) + "/" + aidText;
            (path in fs && fs[path].Dir?) == (aidText == Pad3(Num(aidText)) && Num(aidText) in s.auctions)
  {
    var path, id := Name(AuctionsRoot) + "/" + aidText, Num(aidText);
    if path in fs { DirectoryNamed(fs, view, s, cal, aidText); }
    if aidText == Pad3(id) && id in s.auctions {
      ShownAt(view, s, cal, AuctionDir(id));
      ChildPath(AuctionsRoot, AuctionDir(id), aidText);
    }
  }

  /** A path of digits under the auctions directory belongs to the auction of that number. */
  lemma DirectoryNamed(fs: map<string, Node>, view: View, s: State, cal: Calendar, aidText: string)
    requires Mirrors(fs, view) && Shown(view, s, cal) && AllDigits(aidText) && aidText != ""
    requires Name(AuctionsRoot) + "/" + aidText in fs
    ensures aidText == Pad3(Num(aidText)) && Num(aidText) in s.auctions
  {
    var path := Name(AuctionsRoot) + "/" + aidText;
    var l :| l in view && Name(l) == path;
    DigitsArePlain(aidText);
    PathIsEntry(Name(AuctionsRoot), aidText);
    EntryIsChild(AuctionsRoot, l);
    ChildrenOf(AuctionsRoot, l, aidText);
    ShownAt(view, s, cal, l);
    DirectoryOfId(s, l.id);
  }

  lemma ShownUserDirs(view: View, s: State, cal: Calendar, uid: string)
    requires Shown(view, s, cal) && Plain(uid)
    ensures UserDir(uid) in view ==> view[UserDir(uid)] == Dir
    ensures HostedDir(uid) in view ==> view[HostedDir(uid)] == Dir
    ensures BiddedDir(uid) in view ==> view[BiddedDir(uid)] == Dir
  {
    ShownAt(view, s, cal, UserDir(uid));
    ShownAt(view, s, cal, HostedDir(uid));
    ShownAt(view, s, cal, BiddedDir(uid));
  }

  lemma FreshLocs(view: View, s: State, cal: Calendar, id: nat)
    requires Shown(view, s, cal) && id !in s.auctions
    ensures AuctionDir(id) !in view && AssetDir(id) !in view && BidsDir(id) !in view
  {
    ShownAt(view, s, cal, AuctionDir(id));
    ShownAt(view, s, cal, AssetDir(id));
    ShownAt(view, s, cal, BidsDir(id));
  }

  /** An upload as `store_file` may report it for these bytes on the socket. */
  ghost predicate UploadFrom(incoming: string, fsize: nat, u: Upload)
  {
    && u.received == (if |incoming| >= fsize then incoming[..fsize] else incoming)
    && (|incoming| > fsize ==> (u.complete <==> incoming[fsize] == '\n'))
    && (|incoming| < fsize ==> !u.complete)
  }

  /** For names that are never opened the upload plays no role. */
  ghost function EmptyUpload(incoming: string, fsize: nat): (u: Upload)
    ensures UploadFrom(incoming, fsize, u)
  {
    Upload(if |incoming| >= fsize then incoming[..fsize] else incoming, |incoming| > fsize && incoming[fsize] == '\n')
  }

  /** What `create_auction` makes of the result of `store_file`: an empty asset counts as failed. */
  ghost function StoredUpload(s: string, fsize: nat, fname: string, file: string, r: nat): (u: Upload)
    requires !IsDot(fname)
    requires if |s| > fsize then file == s[..fsize] && r == (if s[fsize] == '\n' then fsize else 0)
             else if |s| < fsize then file == s && r == 0 else file == s && (r == fsize || r == 0)
    ensures UploadFrom(s, fsize, u) && u.received == file
    ensures UploadSucceeds(fname, u) <==> r != 0
  {
    Upload(file, r != 0 || (fsize == 0 && s != "" && s[0] == '\n'))
  }

  // ---------- Facts about handlers ----------

  function Coded(result: (State, Reply)): (State, string) { (result.0, Status(result.1)) }

  /** What a handler does: a text that is no request gets the error reply and changes nothing; a request
      does what the state model says, and the reply is the printed reply of the model. */
  ghost predicate Answered(ok: bool, req: Request, now: nat, s: State, s': State, reply: string, order: seq<nat>,
                           cal: Calendar)
  {
    if ok then Answers(s, req, now, now, s', reply, order, cal)
    else s' == s && reply == StatusLine(Verb(req), "ERR")
  }

  ghost predicate Answers(s: State, req: Request, t1: nat, t2: nat, s': State, reply: string, order: seq<nat>,
                          cal: Calendar)
  {
    && ValidRequest(req)
    && var (after, p) := Step(s, req, t1, t2);
       s' == after && (p.Record? ==> Enumerates(order, p.bids)) && reply == Printed(req, p, order, cal)
  }

  /** A list reply in the making: `ids` have been looked at and printed. */
  ghost predicate Listing(s: State, s': State, ids: seq<nat>, open: map<nat, bool>, now: nat, status: string)
  {
    && (forall id | id in ids :: id in open)
    && s' == Notice(s, SetOf(ids), now)
    && status == After(ListWords(ids, open))
  }

  lemma ListStart(s: State, open: map<nat, bool>, now: nat)
    ensures Listing(s, s, [], open, now, "")
  {
  }

  lemma ListRound(s: State, s': State, ids: seq<nat>, id: nat, open: map<nat, bool>, now: nat, status: string)
    requires Listing(s, s', ids, open, now, status) && id in open && open[id] == Ongoing(s, id, now)
    ensures Ongoing(s', id, now) == open[id]
    ensures Listing(s, Notice(s', {id}, now), ids + [id], open, now, status + " " + Pad3(id) + " " + OpenFlag(open[id]))
  {
    NoticeTwice(s, SetOf(ids), id, now);
    assert SetOf(ids + [id]) == SetOf(ids) + {id};
    ListTextMore(ids, id, open);
  }

  lemma ListEnd(s: State, s': State, keys: set<nat>, ids: seq<nat>, open: map<nat, bool>, now: nat, status: string)
    requires Listing(s, s', ids, open, now, status)
    requires ids == Ascending(keys) && open.Keys == keys
    ensures s' == Notice(s, keys, now) && status == ListedText(open)
  {
    AscendingIs(keys);
    assert SetOf(ids) == keys;
  }

  /** What a sorted scan of a directory of numbers meets. */
  lemma ScannedNames(names: seq<string>, view: View, s: State, cal: Calendar, dir: Loc)
    requires IsListing(names, view, dir) && Sorted(names) && Shown(view, s, cal)
    requires Scanned(dir) && !dir.BidsDir? && GoodLoc(dir) && forall l | l in view :: GoodLoc(l)
    requires forall n | n in DirNumbers(s, dir) :: n <= 999
    ensures Numbers(names) == Ascending(DirNumbers(s, dir))
    ensures forall i | 0 <= i < |names| && !IsDot(names[i]) ::
              Atoi(names[i]) in DirNumbers(s, dir) && names[i] == EntryText(dir, Atoi(names[i]))
  {
    SortedListing(names, view, s, cal, dir);
    ListingNumbers(names, view, s, cal, dir);
    assert forall i | 0 <= i < |names| :: names[i] in names;
  }

  /** The two indexes of a user. */
  predicate IsIndex(dir: Loc) { dir.HostedDir? || dir.BiddedDir? }

  /** The name without its last four characters, cut to three. */
  function CutName(name: string): string
  {
    var k := if |name| < 4 then 0 else |name| - 4;
    if k > 3 then name[..3] else name[..k]
  }

  lemma FetchRound(ids: seq<nat>, id: nat)
    requires id <= 999
    ensures Trailed(IdWords(ids + [id])) == Trailed(IdWords(ids)) + (CutName(IdTxt(id)) + " ")
  {
    Pad3Digits(id);
    assert CutName(IdTxt(id)) == Pad3(id);
    assert IdWords(ids + [id]) == IdWords(ids) + [Pad3(id)];
    TrailedAppend(IdWords(ids), Pad3(id));
  }

  lemma TokenIsId(ids: seq<nat>, keys: set<nat>, i: nat)
    requires ids == Ascending(keys) && i < |ids|
    ensures IdWords(ids)[i] == Pad3(ids[i]) && Atoi(IdWords(ids)[i]) == ids[i] && ids[i] in keys
  {
    AscendingIs(keys);
    AtoiOfNames(ids[i]);
    assert ids[i] in ids;
  }

  lemma IndexIsSmall(s: State, now: nat, dir: Loc)
    requires Inv(s, now) && |s.auctions| <= 999 && IsIndex(dir)
    ensures forall n | n in DirNumbers(s, dir) :: n <= 999
  {
  }

  /** The reply to a list request, whatever its verb. */
  ghost function ListLine(verb: string, p: Reply): string
  {
    if p.Listed? then OkLine(verb, ListedText(p.entries)) else StatusLine(verb, Status(p))
  }

  lemma ListReply(s: State, firstEntry: Option<nat>, now: nat, list: string, cal: Calendar)
    requires SeesAuctions(s, firstEntry)
    requires list == ListedText(Statuses(s, s.auctions.Keys, now)) + "\n"
    ensures "RLS OK" + list == Printed(List(firstEntry), LazyServer.ListStep(s, firstEntry, now).1, [], cal)
  {
  }

  predicate ListsFrom(req: Request, dir: Loc)
  {
    (req.MyAuctions? && dir == HostedDir(req.uid)) || (req.MyBids? && dir == BiddedDir(req.uid))
  }

  lemma OwnListAnswers(s: State, req: Request, dir: Loc, now: nat, s': State, reply: string, cal: Calendar)
    requires ListsFrom(req, dir) && ValidRequest(req)
    requires (s', reply) == ListOutcome(Verb(req), OwnListStep(s, req.uid, DirNumbers(s, dir), now))
    ensures Answers(s, req, now, now, s', reply, [], cal)
  {
  }

  ghost function ListOutcome(verb: string, result: (State, Reply)): (State, string)
  {
    (result.0, ListLine(verb, result.1))
  }

  /** Whatever was answered, the invariant is kept. */
  lemma AnswersKeep(s: State, req: Request, t0: nat, t1: nat, t2: nat, s': State, reply: string, order: seq<nat>,
                    cal: Calendar)
    requires Inv(s, t0) && t0 <= t1 <= t2 && Answers(s, req, t1, t2, s', reply, order, cal)
    ensures Inv(s', t2)
  {
    StepKeeps(s, req, t0, t1, t2);
  }

  // ---------- Records ----------

  /** `fscanf` of a START file and `sprintf` of what the record shows of it. */
  method StartInfo(text: string, ghost st: Start, ghost cal: Calendar) returns (info: string)
    requires text == StartText(st, cal) && WordFields(st)
    ensures info == After(HeadWords(st, cal))
  {
    ReadByInfo(st, cal);
    var f := Fscanf(text, INFO_FORMAT);
    info := HeadText(f[0].s, f[1].s, f[2].s, f[3].i, f[4].i, f[5].s, f[6].s);
    HeadTextIs(st, cal);
  }

  method BidInfo(text: string, ghost value: nat, ghost b: Bid, ghost cal: Calendar) returns (info: string)
    requires text == BidText(value, b, cal) && IsWord(b.bidder)
    ensures info == After(OneBidWords(value, b, cal))
  {
    BidRoundTrip(value, b, cal);
    var f := Fscanf(text, BID_INFO_FORMAT);
    info := OneBidText(f[0].s, f[1].i, f[2].s, f[3].s, f[4].i);
    OneBidTextIs(value, b, cal);
  }

  method EndInfo(text: string, ghost e: End, ghost cal: Calendar) returns (info: string)
    requires text == EndText(e, cal)
    ensures info == After(EndingWords(Some(e), cal))
  {
    EndRoundTrip(e, cal);
    var f := Fscanf(text, END_FORMAT);
    info := EndText3(f[0].s, f[1].s, f[2].i);
    EndTextIs(e, cal);
  }

  lemma ClosedHasEnd(s: State, id: nat, now: nat)
    requires id in s.auctions && !Ongoing(s, id, now)
    ensures var s' := Notice(s, {id}, now);
            id in s'.auctions && s'.auctions[id].end.Some? && s'.auctions[id].end == Noticed(s.auctions[id], now).end
  {
  }

  lemma BidNames(names: seq<string>, view: View, s: State, cal: Calendar, id: nat)
    requires IsListing(names, view, BidsDir(id)) && Shown(view, s, cal) && id in s.auctions
    requires forall l | l in view :: GoodLoc(l)
    ensures forall name | name in names && !IsDot(name) ::
        Atoi(name) in s.auctions[id].bids && name == ValueTxt(Atoi(name))
    ensures forall n | n in s.auctions[id].bids :: ValueTxt(n) in names && !IsDot(ValueTxt(n))
  {
    var dir := BidsDir(id);
    ListingNumbers(names, view, s, cal, dir);
    assert forall n: nat :: EntryText(dir, n) == ValueTxt(n);
  }

  function HeadText(owner: string, name: string, fname: string, value: int, time: int, date: string,
                    clock: string): string
  {
    " " + owner + " " + name + " " + fname + " " + IntText(value) + " " + (date + " " + clock) + " " + IntText(time)
  }

  lemma HeadTextIs(st: Start, cal: Calendar)
    ensures HeadText(st.owner, st.name, st.fname, st.startValue, st.timeActive, cal(st.startTime).date,
        cal(st.startTime).clock)
            == After(HeadWords(st, cal))
  {
    var w := HeadWords(st, cal);
    AfterSeven(w[0], w[1], w[2], w[3], w[4], w[5], w[6]);
  }

  lemma AfterFour(a: string, b: string, c: string, d: string)
    ensures After([a, b, c, d]) == " " + a + " " + b + " " + c + " " + d
  {
    assert After([d]) == " " + d;
    assert After([c, d]) == " " + c + After([d]);
    assert After([b, c, d]) == " " + b + After([c, d]);
  }

  lemma AfterSeven(a: string, b: string, c: string, d: string, e: string, f: string, g: string)
    ensures After([a, b, c, d, e, f, g]) == " " + a + " " + b + " " + c + " " + d + " " + (e + " " + f) + " " + g
  {
    AfterFour(a, b, c, d);
    AfterFour(e, f, g, "");
    AfterAppend([a, b, c, d], [e, f, g]);
    assert After([g]) == " " + g;
    assert After([f, g]) == " " + f + After([g]);
    assert [a, b, c, d] + [e, f, g] == [a, b, c, d, e, f, g];
  }

  function OneBidText(bidder: string, value: int, date: string, clock: string, secs: int): string
  {
    " B " + bidder + " " + IntText(value) + " " + (date + " " + clock) + " " + IntText(secs)
  }

  lemma OneBidTextIs(value: nat, b: Bid, cal: Calendar)
    ensures OneBidText(b.bidder, value, cal(b.time).date, cal(b.time).clock, b.secs) ==
        After(OneBidWords(value, b, cal))
  {
    var w := OneBidWords(value, b, cal);
    AfterFour(w[0], w[1], w[2], w[3]);
    assert After([w[5]]) == " " + w[5];
    assert After([w[4], w[5]]) == " " + w[4] + After([w[5]]);
    AfterAppend([w[0], w[1], w[2], w[3]], [w[4], w[5]]);
    assert [w[0], w[1], w[2], w[3]] + [w[4], w[5]] == w;
    assert " " + "B" + " " == " B ";
  }

  function EndText3(date: string, clock: string, secs: int): string
  {
    " E " + (date + " " + clock) + " " + IntText(secs)
  }

  lemma EndTextIs(e: End, cal: Calendar)
    ensures EndText3(cal(e.time).date, cal(e.time).clock, e.secs) == After(EndingWords(Some(e), cal))
  {
    AfterFour("E", cal(e.time).date, cal(e.time).clock, IntText(e.secs));
    assert " " + "E" + " " == " E ";
  }

  /** The bids printed after some names of the listing. */
  ghost predicate BidsPrinted(names: seq<string>, bids: map<nat, Bid>, order: seq<nat>, text: string, cal: Calendar)
  {
    && order == Numbers(names) && (forall v | v in order :: v in bids)
    && text == After(BidsWords(order, bids, cal))
  }

  lemma BidsRound(names: seq<string>, i: nat, bids: map<nat, Bid>, order: seq<nat>, text: string, cal: Calendar)
    requires i < |names| && BidsPrinted(names[..i], bids, order, text, cal)
    requires !IsDot(names[i]) ==> Atoi(names[i]) in bids
    ensures IsDot(names[i]) ==> BidsPrinted(names[..i + 1], bids, order, text, cal)
    ensures !IsDot(names[i]) ==>
              var v := Atoi(names[i]);
              BidsPrinted(names[..i + 1], bids, order + [v], text + After(OneBidWords(v, bids[v], cal)), cal)
  {
    NumbersStep(names, i);
    if !IsDot(names[i]) {
      var v := Atoi(names[i]);
      BidsWordsAppend(order, v, bids, cal);
      AfterAppend(BidsWords(order, bids, cal), OneBidWords(v, bids[v], cal));
    } else {
      assert order + [] == order;
    }
  }

  lemma BidsEnd(names: seq<string>, bids: map<nat, Bid>, order: seq<nat>, text: string, cal: Calendar)
    requires BidsPrinted(names, bids, order, text, cal)
    requires forall i, j | 0 <= i < j < |names| :: names[i] != names[j]
    requires forall name | name in names && !IsDot(name) :: Atoi(name) in bids && name == ValueTxt(Atoi(name))
    requires forall n | n in bids :: ValueTxt(n) in names && !IsDot(ValueTxt(n))
    ensures Enumerates(order, bids)
  {
    NumbersIn(names);
    NumbersDiffer(names);
    forall v: nat | v in bids
      ensures v in order
    {
      AtoiOfNames(v);
    }
  }

  lemma {:induction false} NumbersDiffer(names: seq<string>)
    requires forall i, j | 0 <= i < j < |names| :: names[i] != names[j]
    requires forall name | name in names && !IsDot(name) :: name == ValueTxt(Atoi(name))
    ensures forall i, j | 0 <= i < j < |Numbers(names)| :: Numbers(names)[i] != Numbers(names)[j]
  {
    if names != [] {
      var front, last := names[..|names| - 1], names[|names| - 1];
      assert forall name | name in front :: name in names;
      NumbersDiffer(front);
      NumbersIn(front);
      if !IsDot(last) {
        forall i | 0 <= i < |Numbers(front)|
          ensures Numbers(front)[i] != Atoi(last)
        {
          assert Numbers(front)[i] in Numbers(front);
          assert last in names;
        }
      }
    }
  }

  lemma AidIsSmall(buffer: string)
    requires HasAid(buffer)
    ensures AidOf(buffer) <= 999
  {
    ParseUdpIsValid(buffer, None);
    NumBound(buffer[4..][..DigitSpan(buffer[4..])]);
    assert Pow10(1) == 10 && Pow10(2) == 100 && Pow10(3) == 1000;
  }

  lemma BiddersAreWords(s: State, now: nat, id: nat)
    requires Inv(s, now) && id in s.auctions
    ensures forall v | v in s.auctions[id].bids :: IsWord(s.auctions[id].bids[v].bidder)
  {
  }

  lemma RecordReply(s: State, id: nat, now: nat, info: string, order: seq<nat>, cal: Calendar)
    requires id in s.auctions && Enumerates(order, s.auctions[id].bids)
    requires var a := s.auctions[id]; info == After(RecordWords(a.start, a.bids, order, Noticed(a, now).end, cal))
    ensures RecordStep(s, id, now).1.Record? && Enumerates(order, RecordStep(s, id, now).1.bids)
    ensures OkLine("RRC", info) == Printed(Request.ShowRecord(id), RecordStep(s, id, now).1, order, cal)
  {
  }

  // ---------- Open, bid and close ----------

  lemma LoginMeansPass(s: State, now: nat, uid: string)
    requires Inv(s, now)
    ensures LoggedIn(s, uid) ==> Exists(s, uid)
  {
  }

  lemma BidAnswers(s: State, req: Request, t1: nat, t2: nat, s': State, code: string, cal: Calendar)
    requires req.BidOn? && ValidRequest(req)
    requires (s', code) == Coded(BidStep(s, req.uid, req.pass, req.aid, req.value, t1, t2))
    ensures Answers(s, req, t1, t2, s', StatusLine("RBD", code), [], cal)
  {
  }

  lemma CloseAnswers(s: State, req: Request, t1: nat, t2: nat, s': State, code: string, cal: Calendar)
    requires req.Close? && ValidRequest(req)
    requires (s', code) == Coded(CloseStep(s, req.uid, req.pass, req.aidText, t1, t2))
    ensures Answers(s, req, t1, t2, s', StatusLine("RCL", code), [], cal)
  {
  }

  function OpenOutcome(result: (State, Reply)): (State, string)
  {
    (result.0, if result.1.Opened? then "OK " + Pad3(result.1.aid) else Status(result.1))
  }

  predicate MayOpen(s: State, uid: string, pass: string) { PasswordOk(s, uid, pass) && LoggedIn(s, uid) }

  lemma OpenAnswers(s: State, a: OpenArgs, upload: Upload, now: nat, s': State, code: string, cal: Calendar)
    requires GoodOpenArgs(a)
    requires (s', code) == OpenOutcome(OpenStep(s, OpenRequest(a, upload), now))
    ensures Answers(s, OpenRequest(a, upload), now, now, s', StatusLine("ROA", code), [], cal)
  {
  }

  // ---------- Assets ----------

  lemma AssetListing(names: seq<string>, view: View, s: State, cal: Calendar, id: nat)
    requires IsListing(names, view, AssetDir(id)) && Shown(view, s, cal) && id in s.auctions
    requires forall l | l in view :: GoodLoc(l)
    ensures forall name | name in names && !IsDot(name) ::
        name == s.auctions[id].start.fname && s.auctions[id].asset.Some?
    ensures forall name | name in names && !IsDot(name) :: !IsDot(name)
    ensures var fname := s.auctions[id].start.fname;
            s.auctions[id].asset.Some? && Plain(fname) && !IsDot(fname) ==> fname in names && !IsDot(fname)
  {
    var dir, fname := AssetDir(id), s.auctions[id].start.fname;
    forall name | name in names && !IsDot(name)
      ensures name == fname && s.auctions[id].asset.Some?
    {
      var l :| l in view && IsChild(dir, l, name);
      ChildrenOf(dir, l, name);
      ShownAt(view, s, cal, l);
    }
    if s.auctions[id].asset.Some? && Plain(fname) && !IsDot(fname) {
      ShownAt(view, s, cal, AssetFile(id, fname));
      assert IsChild(dir, AssetFile(id, fname), fname);
    }
  }

  lemma AssetFacts(s: State, now: nat, id: nat)
    requires Inv(s, now) && id in s.auctions
    ensures DirectoryExists(s, Pad3(id)) && Num(Pad3(id)) == id
    ensures GoodFname(s.auctions[id].start.fname)
    ensures s.auctions[id].asset.None? <==> IsDot(s.auctions[id].start.fname)
  {
    assert AuctionOk(s.auctions[id], s.users.Keys, now);
    DirectoryOfId(s, id);
  }

  function NameAndSize(p: Reply): string { if p.Asset? then " " + p.fname + " " + Dec(|p.bytes|) else "" }

  function BytesOf(p: Reply): string { if p.Asset? then p.bytes + "\n" else "" }

  lemma AssetSent(before: string, head: string, bytes: string)
    ensures before + head + bytes + "\n" == before + (head + bytes + "\n")
  {
  }

  lemma AssetAnswers(s: State, aid: string, now: nat, cal: Calendar)
    requires AllDigits(aid) && 1 <= |aid| <= 3 && DirectoryExists(s, aid)
    ensures aid == Pad3(Num(aid))
    ensures var p := AssetReply(s, aid);
            Answers(s, ShowAsset(aid), now, now, s, "RSA OK" + NameAndSize(p) + " " + BytesOf(p) + "\n", [], cal)
  {
    var req, p := ShowAsset(aid), AssetReply(s, aid);
    AssetPrinted(req, p, cal);
    AssetStep(s, aid, now);
    AnswersBy(s, req, now, s, p, Printed(req, p, [], cal), cal);
  }

  lemma AssetStep(s: State, aid: string, now: nat)
    requires AllDigits(aid) && 1 <= |aid| <= 3
    ensures Step(s, ShowAsset(aid), now, now) == (s, AssetReply(s, aid))
  {
  }

  lemma AnswersBy(s: State, req: Request, now: nat, s': State, p: Reply, reply: string, cal: Calendar)
    requires ValidRequest(req) && Step(s, req, now, now) == (s', p) && !p.Record?
    requires reply == Printed(req, p, [], cal)
    ensures Answers(s, req, now, now, s', reply, [], cal)
  {
  }

  lemma AssetPrinted(req: Request, p: Reply, cal: Calendar)
    requires req.ShowAsset? && (p.Asset? || p.NoAsset?)
    ensures Printed(req, p, [], cal) == "RSA OK" + NameAndSize(p) + " " + BytesOf(p) + "\n"
  {
    if p.Asset? { AssetWords("RSA", " ", "OK", "RSA OK", p.fname, Dec(|p.bytes|), p.bytes, "\n"); }
    assert " OK" + " " == " OK ";
    assert "RSA" + " OK" == "RSA OK";
  }

  lemma AssetWords(verb: string, space: string, ok: string, head: string, fname: string, size: string, bytes: string,
                   end: string)
    requires head == verb + space + ok
    ensures AssetWire(verb, space, ok, fname, size, bytes, end) ==
            head + (space + fname + space + size) + space + (bytes + end) + end
  {
  }

  // ---------- Dispatching ----------

  /** What any datagram does. */
  ghost predicate Dispatched(buffer: string, firstEntry: Option<nat>, now: nat, s: State, s': State, reply: string,
                             order: seq<nat>, cal: Calendar)
  {
    match ParseUdp(buffer, firstEntry)
    case Bad(text) => reply == text && s' == s
    case Good(req) => Answers(s, req, now, now, s', reply, order, cal)
  }

  /** The grammar of each command. */
  lemma ParsesAs(buffer: string, firstEntry: Option<nat>)
    requires |buffer| >= 4 && (buffer[3] == ' ' || (buffer[3] == '\n' && buffer[..3] == "LST"))
    ensures var uid, pass, f := UidPart(buffer), PassPart(buffer), ParseUdp(buffer, firstEntry);
            && (buffer[..3] == "LIN" ==> f == GoodIf(HasCredentials(buffer), Request.Login(uid, pass), "RLI"))
            && (buffer[..3] == "LOU" ==> f == GoodIf(HasCredentials(buffer), Request.Logout(uid, pass), "RLO"))
            && (buffer[..3] == "UNR" ==> f == GoodIf(HasCredentials(buffer), Request.Unregister(uid, pass), "RUR"))
            && (buffer[..3] == "LMA" ==> f == GoodIf(HasUid(buffer, '\n'), MyAuctions(uid), "RMA"))
            && (buffer[..3] == "LMB" ==> f == GoodIf(HasUid(buffer, '\n'), MyBids(uid), "RMB"))
            && (buffer[..3] == "LST" ==> f == GoodIf(buffer[3] == '\n', List(firstEntry), "RLS"))
            && (buffer[..3] == "SRC" ==> f == GoodIf(HasAid(buffer), Request.ShowRecord(AidPart(buffer)), "RRC"))
  {
    assert "LIN"[1] == 'I' && "LOU"[1] == 'O' && "UNR"[0] == 'U' && "SRC"[0] == 'S';
    assert "LMA"[1] == 'M' && "LMB"[1] == 'M' && "LMA"[2] == 'A' && "LMB"[2] == 'B' && "LST"[1] == 'S' &&
        "LIN"[0] == 'L';
  }

  predicate CommandIs(buffer: string, req: Request)
  {
    |buffer| >= 4 && (buffer[3] == ' ' || (buffer[3] == '\n' && buffer[..3] == "LST")) &&
    match req
    case Login(_, _) => buffer[..3] == "LIN"
    case Logout(_, _) => buffer[..3] == "LOU"
    case Unregister(_, _) => buffer[..3] == "UNR"
    case MyAuctions(_) => buffer[..3] == "LMA"
    case MyBids(_) => buffer[..3] == "LMB"
    case List(_) => buffer[..3] == "LST"
    case ShowRecord(_) => buffer[..3] == "SRC"
    case _ => false
  }

  lemma DispatchedAccount(buffer: string, req: Request, now: nat, s: State, s': State, reply: string, cal: Calendar)
    requires CommandIs(buffer, req) && (req.Login? || req.Logout? || req.Unregister?)
    requires req.uid == UidPart(buffer) && req.pass == PassPart(buffer)
    requires Answered(HasCredentials(buffer), req, now, s, s', reply, [], cal)
    ensures forall firstEntry :: Dispatched(buffer, firstEntry, now, s, s', reply, [], cal)
  {
    forall firstEntry
      ensures Dispatched(buffer, firstEntry, now, s, s', reply, [], cal)
    {
      ParsesAs(buffer, firstEntry);
    }
  }

  lemma DispatchedQuery(buffer: string, firstEntry: Option<nat>, ok: bool, req: Request, now: nat, s: State, s': State,
                        reply: string, order: seq<nat>, cal: Calendar)
    requires CommandIs(buffer, req) && IsQuery(req) && Answered(ok, req, now, s, s', reply, order, cal)
    requires match req
             case MyAuctions(uid) => uid == UidPart(buffer) && ok == HasUid(buffer, '\n')
             case MyBids(uid) => uid == UidPart(buffer) && ok == HasUid(buffer, '\n')
             case List(first) => first == firstEntry && ok == (buffer[3] == '\n')
             case ShowRecord(aid) => aid == AidPart(buffer) && ok == HasAid(buffer)
             case _ => true
    ensures Dispatched(buffer, firstEntry, now, s, s', reply, order, cal)
  {
    ParsesAs(buffer, firstEntry);
  }

  predicate OpensWith(s: string) { |CommandText(s)| >= 3 && CommandText(s)[..3] == "OPA" }

  ghost predicate UploadOf(s: string, upload: Upload)
  {
    var header := ParseOpen(Rest(s, 4));
    OpensWith(s) && header.OpenHeader? ==> UploadFrom(header.rest, header.args.fsize, upload)
  }

  /** Open reads only the later clock, and asking for an asset none. */
  lemma OneClockIsEnough(s: State, req: Request, t1: nat, t2: nat, s': State, reply: string, cal: Calendar)
    requires (req.Open? || req.ShowAsset?) && Answers(s, req, t2, t2, s', reply, [], cal)
    ensures Answers(s, req, t1, t2, s', reply, [], cal)
  {
  }

  /** The four ways `handle_bid` goes on for a logged-in user with the right password. */
  lemma BidCases(s: State, uid: string, pass: string, id: nat, value: nat, t1: nat, t2: nat)
    requires LoggedIn(s, uid) && PasswordOk(s, uid, pass)
    ensures var result := BidStep(s, uid, pass, id, value, t1, t2);
            if !Ongoing(s, id, t1) then result == (Notice(s, {id}, t1), Nok)
            else Notice(s, {id}, t1) == s && id in s.auctions &&
                 if id in s.users[uid].hosted then result == (s, Ilg)
                 else if Outbids(s.auctions[id], value) then result == (PlaceBid(s, id, value, uid, t2), Acc)
                 else result == (s, Ref)
  {
  }
}
