/** How the tree of small files stands for the server's state, and what each change of files means. */
module FileView {
  import opened Text
  import opened Domain
  import opened LazyServer
  import opened FileText
  import opened Wire
  import opened Paths

  datatype Node = Dir | File(text: string)

  /** Files keyed by what they are instead of by path string. */
  type View = map<Loc, Node>

  function DirIf(b: bool): Option<Node> { if b then Some(Dir) else None }

  function EmptyIf(b: bool): Option<Node> { if b then Some(File("")) else None }

  /** What the tree holds at a location when the server is in a given state. */
  function NodeAt(s: State, cal: Calendar, l: Loc): Option<Node>
  {
    match l
    case UsersRoot => Some(Dir)
    case AuctionsRoot => Some(Dir)
    case UserDir(uid) => DirIf(uid in s.users)
    case HostedDir(uid) => DirIf(uid in s.users)
    case BiddedDir(uid) => DirIf(uid in s.users)
    case PassFile(uid) =>
      if uid in s.users && s.users[uid].pass.Some? then Some(File(s.users[uid].pass.value)) else None
    case LoginFile(uid) => EmptyIf(uid in s.users && s.users[uid].login)
    case HostedFile(uid, id) => EmptyIf(uid in s.users && id in s.users[uid].hosted)
    case BiddedFile(uid, id) => EmptyIf(uid in s.users && id in s.users[uid].bidded)
    case AuctionDir(id) => DirIf(id in s.auctions)
    case AssetDir(id) => DirIf(id in s.auctions)
    case BidsDir(id) => DirIf(id in s.auctions)
    case AssetFile(id, fname) =>
      if id in s.auctions && s.auctions[id].start.fname == fname && s.auctions[id].asset.Some?
      then Some(File(s.auctions[id].asset.value)) else None
    case BidFile(id, value) =>
      if id in s.auctions && value in s.auctions[id].bids
      then Some(File(BidText(value, s.auctions[id].bids[value], cal))) else None
    case StartFile(id) => if id in s.auctions then Some(File(StartText(s.auctions[id].start, cal))) else None
    case EndFile(id) =>
      if id in s.auctions && s.auctions[id].end.Some? then Some(File(EndText(s.auctions[id].end.value, cal))) else None
  }

  function Lookup(view: View, l: Loc): Option<Node> { if l in view then Some(view[l]) else None }

  /** The view says what the path-keyed files say, and there are no other files. */
  ghost predicate Mirrors(fs: map<string, Node>, view: View)
  {
    && (forall l {:trigger l in view} | l in view :: GoodLoc(l) && Name(l) in fs && fs[Name(l)] == view[l])
    && (forall path {:trigger path in fs} | path in fs :: exists l :: l in view && Name(l) == path)
  }

  ghost predicate Shown(view: View, s: State, cal: Calendar)
  {
    forall l {:trigger Lookup(view, l)} | GoodLoc(l) :: Lookup(view, l) == NodeAt(s, cal, l)
  }

  lemma ShownAt(view: View, s: State, cal: Calendar, l: Loc)
    requires Shown(view, s, cal) && GoodLoc(l)
    ensures if l in view then NodeAt(s, cal, l) == Some(view[l]) else NodeAt(s, cal, l) == None
  {
    assert Lookup(view, l) == NodeAt(s, cal, l);
  }

  // ---------- Path-keyed operations seen through the view ----------

  lemma PathLookup(fs: map<string, Node>, view: View, l: Loc)
    requires Mirrors(fs, view) && GoodLoc(l)
    ensures Name(l) in fs <==> l in view
  {
    if Name(l) in fs {
      var m :| m in view && Name(m) == Name(l);
      NameInjective(l, m);
    }
  }

  lemma OtherNames(view: View, fs: map<string, Node>, l: Loc, m: Loc)
    requires Mirrors(fs, view) && GoodLoc(l) && m in view && m != l
    ensures GoodLoc(m) && Name(m) in fs && Name(m) != Name(l) && fs[Name(m)] == view[m]
  {
    if Name(m) == Name(l) { NameInjective(l, m); }
  }

  lemma PathWrite(fs: map<string, Node>, view: View, l: Loc, n: Node)
    requires Mirrors(fs, view) && GoodLoc(l)
    ensures Mirrors(fs[Name(l) := n], view[l := n])
  {
    var here := Name(l);
    var fs', view' := fs[here := n], view[l := n];
    forall m | m in view'
      ensures GoodLoc(m) && Name(m) in fs' && fs'[Name(m)] == view'[m]
    {
      if m != l { OtherNames(view, fs, l, m); }
    }
    forall path | path in fs'
      ensures exists m :: m in view' && Name(m) == path
    {
      if path == here {
        assert l in view';
      } else {
        var m :| m in view && Name(m) == path;
        assert m in view';
      }
    }
  }

  lemma PathRemove(fs: map<string, Node>, view: View, l: Loc)
    requires Mirrors(fs, view) && GoodLoc(l)
    ensures Mirrors(fs - {Name(l)}, view - {l})
  {
    var gone := Name(l);
    var fs', view' := fs - {gone}, view - {l};
    forall m | m in view'
      ensures GoodLoc(m) && Name(m) in fs' && fs'[Name(m)] == view'[m]
    {
      OtherNames(view, fs, l, m);
    }
    PathRemoveBack(fs, view, l);
  }

  lemma PathRemoveBack(fs: map<string, Node>, view: View, l: Loc)
    requires forall path | path in fs :: exists m :: m in view && Name(m) == path
    ensures forall path | path in fs - {Name(l)} :: exists m :: m in view - {l} && Name(m) == path
  {
  }

  // ---------- Directory listings ----------

  ghost predicate HasChild(view: View, dir: Loc, name: string) { exists l :: l in view && IsChild(dir, l, name) }

  /** What `readdir` gives, in whatever order: every entry once, and the two dot entries. */
  ghost predicate IsListing(names: seq<string>, view: View, dir: Loc)
  {
    && (forall i, j | 0 <= i < j < |names| :: names[i] != names[j])
    && (forall name :: name in names <==> IsDot(name) || HasChild(view, dir, name))
  }

  lemma EntriesAreChildren(fs: map<string, Node>, view: View, dir: Loc, name: string)
    requires Mirrors(fs, view) && GoodLoc(dir)
    ensures HasChild(view, dir, name) <==>
            exists path :: path in fs && IsEntry(Name(dir), path) && EntryName(Name(dir), path) == name
  {
    if HasChild(view, dir, name) {
      var l :| l in view && IsChild(dir, l, name);
      ChildIsEntry(dir, l, name);
      assert Name(l) in fs;
    }
    if path :| path in fs && IsEntry(Name(dir), path) && EntryName(Name(dir), path) == name {
      var l :| l in view && Name(l) == path;
      EntryIsChild(dir, l);
    }
  }

  /** The directories that are scanned for numbers. */
  predicate Scanned(dir: Loc) { dir == AuctionsRoot || dir.HostedDir? || dir.BiddedDir? || dir.BidsDir? }

  function DirNumbers(s: State, dir: Loc): set<nat>
  {
    match dir
    case AuctionsRoot => s.auctions.Keys
    case HostedDir(uid) => HostedOf(s, uid)
    case BiddedDir(uid) => BiddedOf(s, uid)
    case BidsDir(id) => if id in s.auctions then s.auctions[id].bids.Keys else {}
    case _ => {}
  }

  function EntryText(dir: Loc, n: nat): string
  {
    match dir
    case AuctionsRoot => Pad3(n)
    case BidsDir(_) => ValueTxt(n)
    case _ => IdTxt(n)
  }

  lemma NumberIsNotDot(n: nat, rest: string)
    ensures !IsDot(Pad3(n) + rest) && !IsDot(Dec(n) + rest)
  {
    assert IsDigit((Pad3(n) + rest)[0]) && IsDigit((Dec(n) + rest)[0]);
  }

  lemma EntryTexts(dir: Loc, n: nat)
    ensures Atoi(EntryText(dir, n)) == n && !IsDot(EntryText(dir, n))
  {
    AtoiOfNames(n);
    NumberIsNotDot(n, ".txt");
    NumberIsNotDot(n, "");
    assert Pad3(n) + "" == Pad3(n);
  }

  lemma ChildNumber(view: View, s: State, cal: Calendar, dir: Loc, name: string)
    requires Shown(view, s, cal) && Scanned(dir) && HasChild(view, dir, name)
    requires forall l | l in view :: GoodLoc(l)
    ensures Atoi(name) in DirNumbers(s, dir) && name == EntryText(dir, Atoi(name))
  {
    var l :| l in view && IsChild(dir, l, name);
    ShownAt(view, s, cal, l);
    ChildrenOf(dir, l, name);
    match dir
    case AuctionsRoot => AtoiOfNames(l.id);
    case BidsDir(_) => BidChild(s, cal, dir, l, name);
    case _ => IndexChild(s, cal, dir, l, name);
  }

  lemma BidChild(s: State, cal: Calendar, dir: Loc, l: Loc, name: string)
    requires dir.BidsDir? && NodeAt(s, cal, l).Some? && l.BidFile? && l.id == dir.id && name == ValueTxt(l.value)
    ensures Atoi(name) in DirNumbers(s, dir) && name == EntryText(dir, Atoi(name))
  {
    AtoiOfNames(l.value);
  }

  lemma IndexChild(s: State, cal: Calendar, dir: Loc, l: Loc, name: string)
    requires (dir.HostedDir? && l.HostedFile?) || (dir.BiddedDir? && l.BiddedFile?)
    requires NodeAt(s, cal, l).Some? && l.uid == dir.uid && name == IdTxt(l.id)
    ensures Atoi(name) in DirNumbers(s, dir) && name == EntryText(dir, Atoi(name))
  {
    AtoiOfNames(l.id);
  }

  function ChildLoc(dir: Loc, n: nat): Loc
    requires Scanned(dir)
  {
    match dir
    case AuctionsRoot => AuctionDir(n)
    case HostedDir(uid) => HostedFile(uid, n)
    case BiddedDir(uid) => BiddedFile(uid, n)
    case BidsDir(id) => BidFile(id, n)
  }

  lemma NumberHasChild(view: View, s: State, cal: Calendar, dir: Loc, n: nat)
    requires Shown(view, s, cal) && Scanned(dir) && GoodLoc(dir) && n in DirNumbers(s, dir)
    ensures HasChild(view, dir, EntryText(dir, n))
  {
    var l := ChildLoc(dir, n);
    assert GoodLoc(l) && Lookup(view, l) == NodeAt(s, cal, l);
    assert IsChild(dir, l, EntryText(dir, n));
  }

  /** A listing of a scanned directory names exactly the numbers on record; `atoi` finds them. */
  lemma ListingNumbers(names: seq<string>, view: View, s: State, cal: Calendar, dir: Loc)
    requires IsListing(names, view, dir) && Shown(view, s, cal) && Scanned(dir) && GoodLoc(dir)
    requires forall l | l in view :: GoodLoc(l)
    ensures forall name | name in names && !IsDot(name) ::
              Atoi(name) in DirNumbers(s, dir) && name == EntryText(dir, Atoi(name))
    ensures forall n | n in DirNumbers(s, dir) :: EntryText(dir, n) in names && !IsDot(EntryText(dir, n))
  {
    forall name | name in names && !IsDot(name)
      ensures Atoi(name) in DirNumbers(s, dir) && name == EntryText(dir, Atoi(name))
    {
      ChildNumber(view, s, cal, dir, name);
    }
    forall n | n in DirNumbers(s, dir)
      ensures EntryText(dir, n) in names && !IsDot(EntryText(dir, n))
    {
      EntryTexts(dir, n);
      NumberHasChild(view, s, cal, dir, n);
    }
  }

  // ---------- Sorted listings ----------

  /** The numbers a scan loop meets, in the order it meets them. */
  function Numbers(names: seq<string>): seq<nat>
  {
    if names == [] then []
    else
      var last := names[|names| - 1];
      Numbers(names[..|names| - 1]) + if IsDot(last) then [] else [Atoi(last)]
  }

  lemma NumbersStep(names: seq<string>, i: nat)
    requires i < |names|
    ensures Numbers(names[..i + 1]) == if IsDot(names[i]) then Numbers(names[..i])
        else Numbers(names[..i]) + [Atoi(names[i])]
  {
    assert names[..i + 1][..i] == names[..i];
  }

  ghost predicate Sorted(names: seq<string>) { forall i, j | 0 <= i < j < |names| :: LexLess(names[i], names[j]) }

  lemma {:induction false} NumbersIn(names: seq<string>)
    ensures forall n: nat :: n in Numbers(names) <==> exists name :: name in names && !IsDot(name) && Atoi(name) == n
  {
    if names != [] {
      var front, last := names[..|names| - 1], names[|names| - 1];
      NumbersIn(front);
      assert names == front + [last];
      assert forall name :: name in names <==> name in front || name == last;
    }
  }

  lemma {:induction false} SortedNumbersIncrease(names: seq<string>, dir: Loc)
    requires Sorted(names) && Scanned(dir) && !dir.BidsDir?
    requires forall name | name in names && !IsDot(name) :: Atoi(name) <= 999 && name == EntryText(dir, Atoi(name))
    ensures Increasing(Numbers(names))
  {
    if names != [] {
      var front, last := names[..|names| - 1], names[|names| - 1];
      assert forall name | name in front :: name in names;
      SortedNumbersIncrease(front, dir);
      NumbersIn(front);
      if !IsDot(last) {
        forall n | n in Numbers(front)
          ensures n < Atoi(last)
        {
          var name :| name in front && !IsDot(name) && Atoi(name) == n;
          var i :| 0 <= i < |front| && front[i] == name;
          assert LexLess(names[i], last);
          assert last in names;
          EntryOrder(dir, n, Atoi(last));
        }
        IncreasingMore(Numbers(front), Atoi(last));
      }
    }
  }

  lemma IncreasingMore(s: seq<nat>, n: nat)
    requires Increasing(s) && forall x | x in s :: x < n
    ensures Increasing(s + [n])
  {
    assert forall i | 0 <= i < |s| :: s[i] in s;
  }

  lemma EntryOrder(dir: Loc, m: nat, n: nat)
    requires m <= 999 && n <= 999 && !dir.BidsDir?
    ensures LexLess(EntryText(dir, m), EntryText(dir, n)) <==> m < n
  {
    Pad3Order(m, n, ".txt");
    Pad3Order(m, n, "");
    assert Pad3(m) + "" == Pad3(m) && Pad3(n) + "" == Pad3(n);
  }

  /** `scandir` with `alphasort` gives the identifiers in increasing order. */
  lemma SortedListing(names: seq<string>, view: View, s: State, cal: Calendar, dir: Loc)
    requires IsListing(names, view, dir) && Sorted(names) && Shown(view, s, cal)
    requires Scanned(dir) && !dir.BidsDir? && GoodLoc(dir) && forall l | l in view :: GoodLoc(l)
    requires forall n | n in DirNumbers(s, dir) :: n <= 999
    ensures Numbers(names) == Ascending(DirNumbers(s, dir))
  {
    ListingNumbers(names, view, s, cal, dir);
    SortedNumbersIncrease(names, dir);
    NumbersIn(names);
    forall n: nat
      ensures n in Numbers(names) <==> n in DirNumbers(s, dir)
    {
      if n in DirNumbers(s, dir) { EntryTexts(dir, n); }
    }
    AscendingUnique(Numbers(names), DirNumbers(s, dir));
  }

  /** The least name of a nonempty set, which a sorted scan lists first. */
  lemma {:induction false} LeastName(names: set<string>) returns (least: string)
    requires names != {}
    ensures least in names && forall n | n in names :: n == least || LexLess(least, n)
  {
    var x :| x in names;
    if names == {x} {
      least := x;
    } else {
      var rest := names - {x};
      assert names == rest + {x};
      least := LeastName(rest);
      LexTrichotomy(x, least);
      if LexLess(x, least) {
        forall n | n in names && n != x
          ensures LexLess(x, n)
        {
          if n != least { LexTransitive(x, least, n); }
        }
        least := x;
      }
    }
  }

  // ---------- What each change of files means ----------

  lemma ShownCreateUser(view: View, s: State, cal: Calendar, uid: string, pass: string)
    requires Shown(view, s, cal) && GoodLoc(UserDir(uid))
    ensures Shown(view[UserDir(uid) := Dir][HostedDir(uid) := Dir][BiddedDir(uid) := Dir]
                      [PassFile(uid) := File(pass)][LoginFile(uid) := File("")], CreateUser(s, uid, pass), cal)
  {
    var view' := view[UserDir(uid) := Dir][HostedDir(uid) := Dir][BiddedDir(uid) := Dir]
                     [PassFile(uid) := File(pass)][LoginFile(uid) := File("")];
    forall l | GoodLoc(l)
      ensures Lookup(view', l) == NodeAt(CreateUser(s, uid, pass), cal, l)
    {
      assert Lookup(view, l) == NodeAt(s, cal, l);
    }
  }

  lemma ShownToggle(view: View, s: State, cal: Calendar, uid: string)
    requires Shown(view, s, cal) && uid in s.users
    ensures Shown(if s.users[uid].login then view - {LoginFile(uid)} else view[LoginFile(uid) := File("")],
                  ToggleLogin(s, uid), cal)
  {
    var view' := if s.users[uid].login then view - {LoginFile(uid)} else view[LoginFile(uid) := File("")];
    forall l | GoodLoc(l)
      ensures Lookup(view', l) == NodeAt(ToggleLogin(s, uid), cal, l)
    {
      assert Lookup(view, l) == NodeAt(s, cal, l);
    }
  }

  lemma ShownDelete(view: View, s: State, cal: Calendar, uid: string)
    requires Shown(view, s, cal) && uid in s.users
    ensures Shown(view - {PassFile(uid)} - {LoginFile(uid)}, DeleteUser(s, uid), cal)
  {
    forall l | GoodLoc(l)
      ensures Lookup(view - {PassFile(uid)} - {LoginFile(uid)}, l) == NodeAt(DeleteUser(s, uid), cal, l)
    {
      assert Lookup(view, l) == NodeAt(s, cal, l);
    }
  }

  lemma ShownEnd(view: View, s: State, cal: Calendar, id: nat, e: End)
    requires Shown(view, s, cal) && id in s.auctions
    ensures Shown(view[EndFile(id) := File(EndText(e, cal))],
                  s.(auctions := s.auctions[id := s.auctions[id].(end := Some(e))]), cal)
  {
    var s' := s.(auctions := s.auctions[id := s.auctions[id].(end := Some(e))]);
    forall l | GoodLoc(l)
      ensures Lookup(view[EndFile(id) := File(EndText(e, cal))], l) == NodeAt(s', cal, l)
    {
      assert Lookup(view, l) == NodeAt(s, cal, l);
    }
  }

  lemma NoticeOne(s: State, id: nat, now: nat)
    ensures Notice(s, {id}, now) ==
            if id in s.auctions then s.(auctions := s.auctions[id := Noticed(s.auctions[id], now)]) else s
  {
  }

  lemma NoticeTwice(s: State, a: set<nat>, id: nat, now: nat)
    ensures Notice(Notice(s, a, now), {id}, now) == Notice(s, a + {id}, now)
    ensures Ongoing(Notice(s, a, now), id, now) == Ongoing(s, id, now)
    ensures Notice(s, {}, now) == s
  {
  }

  /** The state between the two files of a bid. */
  function WithBid(s: State, id: nat, value: nat, b: Bid): State
    requires id in s.auctions
  {
    s.(auctions := s.auctions[id := s.auctions[id].(bids := s.auctions[id].bids[value := b])])
  }

  function WithEntry(s: State, id: nat, uid: string): State
    requires uid in s.users
  {
    SetUser(s, uid, s.users[uid].(bidded := s.users[uid].bidded + {id}))
  }

  lemma ShownBid(view: View, s: State, cal: Calendar, id: nat, value: nat, b: Bid)
    requires Shown(view, s, cal) && id in s.auctions
    ensures Shown(view[BidFile(id, value) := File(BidText(value, b, cal))], WithBid(s, id, value, b), cal)
  {
    forall l | GoodLoc(l)
      ensures Lookup(view[BidFile(id, value) := File(BidText(value, b, cal))], l) ==
          NodeAt(WithBid(s, id, value, b), cal, l)
    {
      assert Lookup(view, l) == NodeAt(s, cal, l);
    }
  }

  lemma ShownEntry(view: View, s: State, cal: Calendar, id: nat, uid: string)
    requires Shown(view, s, cal) && uid in s.users
    ensures Shown(view[BiddedFile(uid, id) := File("")], WithEntry(s, id, uid), cal)
  {
    forall l | GoodLoc(l)
      ensures Lookup(view[BiddedFile(uid, id) := File("")], l) == NodeAt(WithEntry(s, id, uid), cal, l)
    {
      assert Lookup(view, l) == NodeAt(s, cal, l);
    }
  }

  /** The files `create_auction` makes before it stores the asset. */
  function BareView(view: View, cal: Calendar, id: nat, start: Start): View
  {
    view[HostedFile(start.owner, id) := File("")][AuctionDir(id) := Dir][AssetDir(id) := Dir][BidsDir(id) := Dir]
        [StartFile(id) := File(StartText(start, cal))]
  }

  function CreatedView(view: View, cal: Calendar, id: nat, start: Start, asset: Option<string>): View
  {
    if asset.Some? then BareView(view, cal, id, start)[AssetFile(id, start.fname) := File(asset.value)]
    else BareView(view, cal, id, start)
  }

  ghost function BareCreate(s: State, start: Start): State
    requires start.owner in s.users
  {
    var id, u := NextId(s), s.users[start.owner];
    SetUser(s, start.owner, u.(hosted := u.hosted + {id}))
      .(auctions := s.auctions[id := Auction(start, map[], None, None)])
  }

  lemma ShownBare(view: View, s: State, cal: Calendar, start: Start)
    requires Shown(view, s, cal) && start.owner in s.users && NextId(s) !in s.auctions
    ensures Shown(BareView(view, cal, NextId(s), start), BareCreate(s, start), cal)
  {
    var id, u := NextId(s), s.users[start.owner];
    var v1, s1 := view[HostedFile(start.owner, id) := File("")], SetUser(s, start.owner, u.(hosted := u.hosted + {id}));
    ShownHosted(view, s, cal, start.owner, id);
    ShownNewAuction(v1, s1, cal, id, start);
  }

  lemma ShownHosted(view: View, s: State, cal: Calendar, uid: string, id: nat)
    requires Shown(view, s, cal) && uid in s.users
    ensures Shown(view[HostedFile(uid, id) := File("")],
                  SetUser(s, uid, s.users[uid].(hosted := s.users[uid].hosted + {id})), cal)
  {
    var s' := SetUser(s, uid, s.users[uid].(hosted := s.users[uid].hosted + {id}));
    forall l | GoodLoc(l)
      ensures Lookup(view[HostedFile(uid, id) := File("")], l) == NodeAt(s', cal, l)
    {
      assert Lookup(view, l) == NodeAt(s, cal, l);
    }
  }

  lemma ShownNewAuction(view: View, s: State, cal: Calendar, id: nat, start: Start)
    requires Shown(view, s, cal) && id !in s.auctions
    ensures Shown(view[AuctionDir(id) := Dir][AssetDir(id) := Dir][BidsDir(id) := Dir]
                      [StartFile(id) := File(StartText(start, cal))],
                  s.(auctions := s.auctions[id := Auction(start, map[], None, None)]), cal)
  {
    var view' := view[AuctionDir(id) := Dir][AssetDir(id) := Dir][BidsDir(id) := Dir]
                     [StartFile(id) := File(StartText(start, cal))];
    forall l | GoodLoc(l)
      ensures Lookup(view', l) == NodeAt(s.(auctions := s.auctions[id := Auction(start, map[], None, None)]), cal, l)
    {
      assert Lookup(view, l) == NodeAt(s, cal, l);
    }
  }

  lemma ShownAsset(view: View, s: State, cal: Calendar, id: nat, bytes: string)
    requires Shown(view, s, cal) && id in s.auctions
    ensures Shown(view[AssetFile(id, s.auctions[id].start.fname) := File(bytes)],
                  s.(auctions := s.auctions[id := s.auctions[id].(asset := Some(bytes))]), cal)
  {
    var s' := s.(auctions := s.auctions[id := s.auctions[id].(asset := Some(bytes))]);
    forall l | GoodLoc(l)
      ensures Lookup(view[AssetFile(id, s.auctions[id].start.fname) := File(bytes)], l) == NodeAt(s', cal, l)
    {
      assert Lookup(view, l) == NodeAt(s, cal, l);
    }
  }

  lemma ShownCreate(view: View, s: State, cal: Calendar, start: Start, upload: Upload)
    requires Shown(view, s, cal) && start.owner in s.users && NextId(s) !in s.auctions
    ensures Shown(CreatedView(view, cal, NextId(s), start, StoredAsset(start.fname, upload)),
                  CreateAuction(s, start, upload), cal)
  {
    var id, bare := NextId(s), BareCreate(s, start);
    ShownBare(view, s, cal, start);
    if !IsDot(start.fname) {
      ShownAsset(BareView(view, cal, id, start), bare, cal, id, upload.received);
      assert CreateAuction(s, start, upload) ==
             bare.(auctions := bare.auctions[id := bare.auctions[id].(asset := Some(upload.received))]);
    }
  }
}
