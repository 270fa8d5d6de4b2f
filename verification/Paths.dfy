/** The file names the server builds with `sprintf` and `strcat`, and why no two of them collide. */
module Paths {
  import opened Text
  import opened Domain

  // ---------- Path strings ----------

  /** A path component. */
  predicate Plain(c: string) { c != "" && forall i | 0 <= i < |c| :: c[i] != '/' }

  predicate AllPlain(cs: seq<string>) { cs != [] && forall i | 0 <= i < |cs| :: Plain(cs[i]) }

  function Join(cs: seq<string>): string
    requires cs != []
  {
    if |cs| == 1 then cs[0] else cs[0] + "/" + Join(cs[1..])
  }

  lemma {:induction false} JoinAppend(cs: seq<string>, c: string)
    requires cs != []
    ensures Join(cs + [c]) == Join(cs) + "/" + c
  {
    if |cs| == 1 {
      assert (cs + [c])[1..] == [c];
    } else {
      assert (cs + [c])[1..] == cs[1..] + [c];
      JoinAppend(cs[1..], c);
    }
  }

  lemma FirstSlash(a: string, b: string, s: string, t: string)
    requires Plain(a) && Plain(b) && a + "/" + s == b + "/" + t
    ensures a == b && s == t
  {
    var x, y := a + "/" + s, b + "/" + t;
    assert x[|a|] == '/' && y[|b|] == '/';
    assert |a| == |b| by {
      assert forall i | 0 <= i < |a| :: x[i] == a[i] && a[i] != '/';
      assert forall i | 0 <= i < |b| :: y[i] == b[i] && b[i] != '/';
    }
    assert x[..|a|] == a && y[..|b|] == b;
    assert x[|a| + 1..] == s && y[|b| + 1..] == t;
  }

  lemma NoSlash(a: string, b: string, t: string)
    requires Plain(a)
    ensures a != b + "/" + t
  {
    var x := b + "/" + t;
    assert x[|b|] == '/' && !Plain(x);
  }

  /** Distinct component lists give distinct path strings. */
  lemma {:induction false} JoinInjective(a: seq<string>, b: seq<string>)
    requires AllPlain(a) && AllPlain(b) && Join(a) == Join(b)
    ensures a == b
  {
    if |a| == 1 && |b| == 1 {
    } else if |a| == 1 {
      NoSlash(a[0], b[0], Join(b[1..]));
    } else if |b| == 1 {
      NoSlash(b[0], a[0], Join(a[1..]));
    } else {
      FirstSlash(a[0], b[0], Join(a[1..]), Join(b[1..]));
      JoinInjective(a[1..], b[1..]);
      assert a == [a[0]] + a[1..] && b == [b[0]] + b[1..];
    }
  }

  // ---------- The server's files ----------

  datatype Loc =
    | UsersRoot | AuctionsRoot
    | UserDir(uid: string) | PassFile(uid: string) | LoginFile(uid: string)
    | HostedDir(uid: string) | HostedFile(uid: string, id: nat)
    | BiddedDir(uid: string) | BiddedFile(uid: string, id: nat)
    | AuctionDir(id: nat) | AssetDir(id: nat) | AssetFile(id: nat, fname: string)
    | BidsDir(id: nat) | BidFile(id: nat, value: nat)
    | StartFile(id: nat) | EndFile(id: nat)

  function IdTxt(id: nat): string { Pad3(id) + ".txt" }

  function ValueTxt(value: nat): string { Dec(value) + ".txt" }

  function StartTxt(id: nat): string { "START_" + Pad3(id) + ".txt" }

  function EndTxt(id: nat): string { "END_" + Pad3(id) + ".txt" }

  function Parts(l: Loc): (cs: seq<string>)
    ensures cs != []
  {
    match l
    case UsersRoot => ["server", "users"]
    case AuctionsRoot => ["server", "auctions"]
    case UserDir(uid) => ["server", "users", uid]
    case PassFile(uid) => ["server", "users", uid, "pass.txt"]
    case LoginFile(uid) => ["server", "users", uid, "login.txt"]
    case HostedDir(uid) => ["server", "users", uid, "hosted"]
    case HostedFile(uid, id) => ["server", "users", uid, "hosted", IdTxt(id)]
    case BiddedDir(uid) => ["server", "users", uid, "bidded"]
    case BiddedFile(uid, id) => ["server", "users", uid, "bidded", IdTxt(id)]
    case AuctionDir(id) => ["server", "auctions", Pad3(id)]
    case AssetDir(id) => ["server", "auctions", Pad3(id), "asset"]
    case AssetFile(id, fname) => ["server", "auctions", Pad3(id), "asset", fname]
    case BidsDir(id) => ["server", "auctions", Pad3(id), "bids"]
    case BidFile(id, value) => ["server", "auctions", Pad3(id), "bids", ValueTxt(value)]
    case StartFile(id) => ["server", "auctions", Pad3(id), StartTxt(id)]
    case EndFile(id) => ["server", "auctions", Pad3(id), EndTxt(id)]
  }

  function Name(l: Loc): string { Join(Parts(l)) }

  /** Locations the server can use: user names and file names are single components. */
  predicate GoodLoc(l: Loc)
  {
    match l
    case UserDir(uid) => Plain(uid)
    case PassFile(uid) => Plain(uid)
    case LoginFile(uid) => Plain(uid)
    case HostedDir(uid) => Plain(uid)
    case HostedFile(uid, _) => Plain(uid)
    case BiddedDir(uid) => Plain(uid)
    case BiddedFile(uid, _) => Plain(uid)
    case AssetFile(_, fname) => Plain(fname) && !IsDot(fname)
    case _ => true
  }

  lemma DigitsArePlain(s: string)
    requires s != "" && AllDigits(s)
    ensures Plain(s)
  {
  }

  lemma TxtNamesArePlain(id: nat)
    ensures Plain(Pad3(id)) && Plain(IdTxt(id)) && Plain(ValueTxt(id)) && Plain(StartTxt(id)) && Plain(EndTxt(id))
  {
  }

  lemma PartsArePlain(l: Loc)
    requires GoodLoc(l)
    ensures AllPlain(Parts(l))
  {
    match l
    case BidFile(id, value) => TxtNamesArePlain(id); TxtNamesArePlain(value);
    case HostedFile(_, id) => TxtNamesArePlain(id);
    case BiddedFile(_, id) => TxtNamesArePlain(id);
    case AuctionDir(id) => TxtNamesArePlain(id);
    case AssetDir(id) => TxtNamesArePlain(id);
    case AssetFile(id, _) => TxtNamesArePlain(id);
    case BidsDir(id) => TxtNamesArePlain(id);
    case StartFile(id) => TxtNamesArePlain(id);
    case EndFile(id) => TxtNamesArePlain(id);
    case _ =>
  }

  /** `atoi` of an entry name, with or without ".txt", gives the number back. */
  lemma AtoiOfNames(n: nat)
    ensures Atoi(Pad3(n)) == n && Atoi(IdTxt(n)) == n && Atoi(ValueTxt(n)) == n
  {
    AtoiPad(n, 3, "");
    assert Pad3(n) + "" == Pad3(n);
    AtoiPad(n, 3, ".txt");
    AtoiDec(n, ".txt");
  }

  lemma NumbersFromNames(m: nat, n: nat)
    ensures Pad3(m) == Pad3(n) ==> m == n
    ensures IdTxt(m) == IdTxt(n) ==> m == n
    ensures ValueTxt(m) == ValueTxt(n) ==> m == n
  {
    AtoiOfNames(m);
    AtoiOfNames(n);
  }

  lemma SpecialNamesDiffer(m: nat, n: nat)
    ensures StartTxt(m) != EndTxt(n)
    ensures StartTxt(m) != "asset" && StartTxt(m) != "bids" && EndTxt(m) != "asset" && EndTxt(m) != "bids"
  {
    assert StartTxt(m)[0] == 'S' && EndTxt(n)[0] == 'E' && EndTxt(m)[0] == 'E';
  }

  function IdOf(l: Loc): nat
  {
    match l
    case HostedFile(_, id) => id
    case BiddedFile(_, id) => id
    case AuctionDir(id) => id
    case AssetDir(id) => id
    case AssetFile(id, _) => id
    case BidsDir(id) => id
    case BidFile(id, _) => id
    case StartFile(id) => id
    case EndFile(id) => id
    case _ => 0
  }

  predicate UnderUsers(l: Loc)
  {
    l.UsersRoot? || l.UserDir? || l.PassFile? || l.LoginFile? || l.HostedDir? || l.HostedFile? || l.BiddedDir? ||
      l.BiddedFile?
  }

  lemma UserPartsInjective(l: Loc, m: Loc)
    requires UnderUsers(l) && UnderUsers(m) && Parts(l) == Parts(m)
    ensures l == m
  {
    var p, q := Parts(l), Parts(m);
    assert |p| == |q|;
    NumbersFromNames(IdOf(l), IdOf(m));
    if |p| > 2 { assert p[2] == q[2]; }
    if |p| > 3 { assert p[3] == q[3]; }
    if |p| > 4 { assert p[4] == q[4]; }
  }

  lemma AuctionPartsInjective(l: Loc, m: Loc)
    requires !UnderUsers(l) && !UnderUsers(m) && Parts(l) == Parts(m)
    ensures l == m
  {
    var p, q := Parts(l), Parts(m);
    assert |p| == |q|;
    NumbersFromNames(IdOf(l), IdOf(m));
    SpecialNamesDiffer(IdOf(l), IdOf(m));
    SpecialNamesDiffer(IdOf(m), IdOf(l));
    if |p| > 2 { assert p[2] == q[2]; }
    if |p| > 3 { assert p[3] == q[3]; }
    if |p| > 4 {
      assert p[4] == q[4];
      if l.BidFile? && m.BidFile? { NumbersFromNames(l.value, m.value); }
    }
  }

  lemma PartsInjective(l: Loc, m: Loc)
    requires Parts(l) == Parts(m)
    ensures l == m
  {
    assert Parts(l)[1] == Parts(m)[1];
    assert UnderUsers(l) == UnderUsers(m) by {
      assert "users"[0] != "auctions"[0];
    }
    if UnderUsers(l) { UserPartsInjective(l, m); } else { AuctionPartsInjective(l, m); }
  }

  /** Main result: different files never get the same name. */
  lemma NameInjective(l: Loc, m: Loc)
    requires GoodLoc(l) && GoodLoc(m) && Name(l) == Name(m)
    ensures l == m
  {
    PartsArePlain(l);
    PartsArePlain(m);
    JoinInjective(Parts(l), Parts(m));
    PartsInjective(l, m);
  }

  // ---------- Directory entries ----------

  ghost predicate IsChild(dir: Loc, l: Loc, name: string) { Parts(l) == Parts(dir) + [name] }

  /** The string side of being an entry: the directory, one slash, one component. */
  predicate IsEntry(dir: string, path: string)
  {
    |path| > |dir| && path[..|dir|] == dir && path[|dir|] == '/' && Plain(path[|dir| + 1..])
  }

  function EntryName(dir: string, path: string): string
    requires |path| > |dir|
  {
    path[|dir| + 1..]
  }

  lemma EntrySplits(dir: string, path: string)
    requires IsEntry(dir, path)
    ensures path == dir + "/" + EntryName(dir, path)
  {
  }

  lemma EntryByParts(d: seq<string>, p: seq<string>)
    requires AllPlain(d) && AllPlain(p) && IsEntry(Join(d), Join(p))
    ensures p == d + [EntryName(Join(d), Join(p))]
  {
    var name := EntryName(Join(d), Join(p));
    EntrySplits(Join(d), Join(p));
    JoinAppend(d, name);
    JoinInjective(p, d + [name]);
  }

  lemma EntryIsChild(dir: Loc, l: Loc)
    requires GoodLoc(dir) && GoodLoc(l) && IsEntry(Name(dir), Name(l))
    ensures IsChild(dir, l, EntryName(Name(dir), Name(l)))
  {
    PartsArePlain(dir);
    PartsArePlain(l);
    EntryByParts(Parts(dir), Parts(l));
  }

  lemma PartsByEntry(d: seq<string>, name: string)
    requires AllPlain(d) && Plain(name)
    ensures IsEntry(Join(d), Join(d + [name])) && EntryName(Join(d), Join(d + [name])) == name
  {
    JoinAppend(d, name);
    var p := Join(d + [name]);
    assert p == Join(d) + "/" + name;
    assert p[|Join(d)| + 1..] == name && p[..|Join(d)|] == Join(d);
  }

  lemma ChildIsEntry(dir: Loc, l: Loc, name: string)
    requires GoodLoc(dir) && GoodLoc(l) && IsChild(dir, l, name)
    ensures IsEntry(Name(dir), Name(l)) && EntryName(Name(dir), Name(l)) == name
  {
    PartsArePlain(dir);
    PartsArePlain(l);
    assert Parts(l)[|Parts(dir)|] == name;
    PartsByEntry(Parts(dir), name);
  }

  lemma ChildPath(dir: Loc, l: Loc, name: string)
    requires IsChild(dir, l, name)
    ensures Name(l) == Name(dir) + "/" + name
  {
    JoinAppend(Parts(dir), name);
  }

  lemma PathIsEntry(dir: string, name: string)
    requires Plain(name)
    ensures IsEntry(dir, dir + "/" + name) && EntryName(dir, dir + "/" + name) == name
  {
  }

  /** What the entries of the scanned directories are called. */
  lemma ChildrenOf(dir: Loc, l: Loc, name: string)
    requires GoodLoc(l) && IsChild(dir, l, name)
    ensures dir == AuctionsRoot ==> l.AuctionDir? && name == Pad3(l.id)
    ensures dir.HostedDir? ==> l.HostedFile? && l.uid == dir.uid && name == IdTxt(l.id)
    ensures dir.BiddedDir? ==> l.BiddedFile? && l.uid == dir.uid && name == IdTxt(l.id)
    ensures dir.BidsDir? ==> l.BidFile? && l.id == dir.id && name == ValueTxt(l.value)
    ensures dir.AssetDir? ==> l.AssetFile? && l.id == dir.id && name == l.fname
  {
    var p, d := Parts(l), Parts(dir);
    assert |p| == |d| + 1 && p[|d|] == name;
    assert forall i | 0 <= i < |d| :: p[i] == d[i];
    assert p[1] == d[1] && "users"[0] != "auctions"[0];
    NumbersFromNames(IdOf(l), IdOf(dir));
    if |d| == 4 { assert p[2] == d[2] && p[3] == d[3]; }
  }
}
