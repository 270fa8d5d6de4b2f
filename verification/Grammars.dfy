/** Exactly which streams the server's TCP parsers take for which request. */
module Grammars {
  import opened Text
  import opened Domain
  import opened Streams
  import opened Requests

  /** The bytes of one field; as a C string it ends at a NUL, if it holds one. */
  predicate IsField(f: string, size: nat) { |f| <= size && forall i | 0 <= i < |f| :: f[i] != ' ' && f[i] != '\n' }

  predicate Reads(f: string, size: nat, text: string) { IsField(f, size) && CString(f) == text }

  lemma StopAtEnd(f: string, end: char, rest: string, size: nat)
    requires IsField(f, size) && (end == ' ' || end == '\n')
    ensures Stop(f + [end] + rest, size + 1) == |f|
  {
    var s := f + [end] + rest;
    assert s[|f|] == end;
    assert forall i | 0 <= i < |f| :: s[i] == f[i];
  }

  /** A field is read exactly from streams that start with it and a space. */
  lemma TakeFieldIs(s: string, size: nat, t: string, rest: string)
    ensures TakeField(s, size) == Taken(t, rest) <==> exists f :: f != "" && Reads(f, size, t) && s == f + " " + rest
  {
    if TakeField(s, size) == Taken(t, rest) {
      var k := Stop(s, size + 1);
      assert s == s[..k] + " " + s[k + 1..];
      assert Reads(s[..k], size, t);
    }
    if f :| f != "" && Reads(f, size, t) && s == f + " " + rest {
      StopAtEnd(f, ' ', rest, size);
      assert s[..|f|] == f && s[|f| + 1..] == rest;
    }
  }

  /** A line is read exactly from streams that start with it and a newline; it may be empty. */
  lemma TakeLineIs(s: string, size: nat, t: string, rest: string)
    ensures TakeLine(s, size) == Taken(t, rest) <==> exists f :: Reads(f, size, t) && s == f + "\n" + rest
  {
    if TakeLine(s, size) == Taken(t, rest) {
      var k := Stop(s, size + 1);
      assert s == s[..k] + "\n" + s[k + 1..];
      assert Reads(s[..k], size, t);
    }
    if f :| Reads(f, size, t) && s == f + "\n" + rest {
      StopAtEnd(f, '\n', rest, size);
      assert s[..|f|] == f && s[|f| + 1..] == rest;
    }
  }

  /** A field whose text has the greatest length holds no NUL. */
  lemma {:induction false} WholeField(f: string)
    requires |CString(f)| == |f|
    ensures CString(f) == f
  {
    if f != "" { WholeField(f[1..]); }
  }

  lemma FullField(s: string, size: nat, t: string, rest: string)
    requires |t| == size > 0
    ensures TakeField(s, size) == Taken(t, rest) <==> Reads(t, size, t) && s == t + " " + rest
  {
    TakeFieldIs(s, size, t, rest);
    if f :| f != "" && Reads(f, size, t) && s == f + " " + rest { WholeField(f); }
  }

  /** User and password are read exactly when they stand there. */
  lemma CredentialsAre(s: string, uid: string, pass: string, rest: string)
    requires GoodUid(uid) && GoodPass(pass)
    ensures TakeTwo(s, 6, 8) == TakenTwo(uid, pass, rest) <==> s == uid + " " + (pass + " " + rest)
  {
    CStringOfWord(uid);
    CStringOfWord(pass);
    FullField(s, 6, uid, pass + " " + rest);
    FullField(pass + " " + rest, 8, pass, rest);
    if TakeTwo(s, 6, 8) == TakenTwo(uid, pass, rest) {
      var r := TakeField(s, 6).rest;
      FullField(s, 6, uid, r);
      FullField(r, 8, pass, rest);
    }
  }

  /** `CLS` is accepted as this request exactly from a stream of this form; `f` is the identifier as sent. */
  ghost predicate CloseForm(s: string, uid: string, pass: string, aidText: string)
  {
    exists f, rest :: Reads(f, 3, aidText) && s == uid + " " + (pass + " " + (f + "\n" + rest))
  }

  lemma CloseGrammar(s: string, uid: string, pass: string, aidText: string)
    ensures ParseClose(s) == Good(Close(uid, pass, aidText)) <==>
            GoodUid(uid) && GoodPass(pass) && GoodAidText(aidText) && CloseForm(s, uid, pass, aidText)
  {
    if ParseClose(s) == Good(Close(uid, pass, aidText)) {
      var r := TakeTwo(s, 6, 8).rest;
      var rest := TakeLine(r, 3).rest;
      CredentialsAre(s, uid, pass, r);
      TakeLineIs(r, 3, aidText, rest);
      var f :| Reads(f, 3, aidText) && r == f + "\n" + rest;
    }
    if GoodUid(uid) && GoodPass(pass) && GoodAidText(aidText) && CloseForm(s, uid, pass, aidText) {
      var f, rest :| Reads(f, 3, aidText) && s == uid + " " + (pass + " " + (f + "\n" + rest));
      CredentialsAre(s, uid, pass, f + "\n" + rest);
      TakeLineIs(f + "\n" + rest, 3, aidText, rest);
    }
  }

  /** Digits up to the first NUL, with this value. */
  predicate ReadsNumber(f: string, size: nat, n: nat)
  {
    IsField(f, size) && AllDigits(CString(f)) && Num(CString(f)) == n
  }

  /** `BID` likewise; identifier and value are sent as `f` and `g`. */
  ghost predicate BidForm(s: string, uid: string, pass: string, aid: nat, value: nat)
  {
    exists f, g, rest :: BidBytes(f, g, aid, value) && s == uid + " " + (pass + " " + (f + " " + (g + "\n" + rest)))
  }

  predicate BidBytes(f: string, g: string, aid: nat, value: nat)
  {
    f != "" && ReadsNumber(f, 3, aid) && CString(g) != "" && ReadsNumber(g, 6, value)
  }

  lemma BidHasForm(s: string, uid: string, pass: string, aid: nat, value: nat)
    requires ParseBid(s) == Good(BidOn(uid, pass, aid, value))
    ensures GoodUid(uid) && GoodPass(pass) && BidForm(s, uid, pass, aid, value)
  {
    var r := TakeTwo(s, 6, 8).rest;
    var t1, r1 := TakeField(r, 3).text, TakeField(r, 3).rest;
    var t2, r2 := TakeLine(r1, 6).text, TakeLine(r1, 6).rest;
    CredentialsAre(s, uid, pass, r);
    TakeFieldIs(r, 3, t1, r1);
    TakeLineIs(r1, 6, t2, r2);
    var f :| f != "" && Reads(f, 3, t1) && r == f + " " + r1;
    var g :| Reads(g, 6, t2) && r1 == g + "\n" + r2;
    assert BidBytes(f, g, aid, value);
  }

  lemma BidFromForm(s: string, uid: string, pass: string, aid: nat, value: nat, f: string, g: string, rest: string)
    requires GoodUid(uid) && GoodPass(pass) && BidBytes(f, g, aid, value)
    requires s == uid + " " + (pass + " " + (f + " " + (g + "\n" + rest)))
    ensures ParseBid(s) == Good(BidOn(uid, pass, aid, value))
  {
    var r1 := g + "\n" + rest;
    var r := f + " " + r1;
    CredentialsAre(s, uid, pass, r);
    TakeFieldIs(r, 3, CString(f), r1);
    TakeLineIs(r1, 6, CString(g), rest);
  }

  lemma BidGrammar(s: string, uid: string, pass: string, aid: nat, value: nat)
    ensures ParseBid(s) == Good(BidOn(uid, pass, aid, value)) <==>
            GoodUid(uid) && GoodPass(pass) && BidForm(s, uid, pass, aid, value)
  {
    if ParseBid(s) == Good(BidOn(uid, pass, aid, value)) { BidHasForm(s, uid, pass, aid, value); }
    if GoodUid(uid) && GoodPass(pass) && BidForm(s, uid, pass, aid, value) {
      var f, g, rest :| BidBytes(f, g, aid, value) && s == uid + " " + (pass + " " + (f + " " + (g + "\n" + rest)));
      BidFromForm(s, uid, pass, aid, value, f, g, rest);
    }
  }

  /** The bytes of the five fields after user and password. */
  datatype OpenBytes = OpenBytes(name: string, value: string, time: string, fname: string, size: string)

  predicate OpenReads(b: OpenBytes, a: OpenArgs)
  {
    && Reads(b.name, 10, a.name) && GoodName(a.name)
    && ReadsNumber(b.value, 6, a.startValue) && CString(b.value) != ""
    && ReadsNumber(b.time, 5, a.timeActive) && CString(b.time) != ""
    && Reads(b.fname, 24, a.fname) && GoodFname(a.fname)
    && ReadsNumber(b.size, 8, a.fsize) && CString(b.size) != "" && a.fsize <= 10_000_000
  }

  function HeaderOf(a: OpenArgs, b: OpenBytes, rest: string): string
  {
    a.uid + " " + (a.pass + " " + (b.name + " " + (b.value + " " + (b.time + " " + (b.fname + " " +
    (b.size + " " + rest))))))
  }

  /** The header `OPA` takes for these arguments. */
  ghost predicate OpenForm(s: string, a: OpenArgs, rest: string)
  {
    exists b: OpenBytes :: OpenReads(b, a) && s == HeaderOf(a, b, rest)
  }

  lemma TwoFieldsAre(s: string, size1: nat, size2: nat, f: string, g: string, rest: string)
    requires CString(f) != "" && CString(g) != "" && IsField(f, size1) && IsField(g, size2)
    requires s == f + " " + (g + " " + rest)
    ensures TakeTwo(s, size1, size2) == TakenTwo(CString(f), CString(g), rest)
  {
    TakeFieldIs(s, size1, CString(f), g + " " + rest);
    TakeFieldIs(g + " " + rest, size2, CString(g), rest);
  }

  lemma TwoFieldsFrom(s: string, size1: nat, size2: nat) returns (f: string, g: string)
    requires TakeTwo(s, size1, size2).TakenTwo?
    ensures var two := TakeTwo(s, size1, size2);
            Reads(f, size1, two.first) && Reads(g, size2, two.second) && s == f + " " + (g + " " + two.rest)
  {
    var two, one := TakeTwo(s, size1, size2), TakeField(s, size1);
    TakeFieldIs(s, size1, one.text, one.rest);
    TakeFieldIs(one.rest, size2, two.second, two.rest);
    f :| f != "" && Reads(f, size1, one.text) && s == f + " " + one.rest;
    g :| g != "" && Reads(g, size2, two.second) && one.rest == g + " " + two.rest;
  }

  /** The texts of the seven fields of a header. */
  datatype Texts = Texts(name: string, value: string, time: string, fname: string, size: string,
                         r1: string, r2: string, r3: string)

  lemma TextsOf(s: string, a: OpenArgs, rest: string) returns (x: Texts)
    requires ParseOpen(s) == OpenHeader(a, rest)
    ensures TakeTwo(s, 6, 8) == TakenTwo(a.uid, a.pass, x.r1) && TakeTwo(x.r1, 10, 6) == TakenTwo(x.name, x.value, x.r2)
    ensures TakeTwo(x.r2, 5, 24) == TakenTwo(x.time, x.fname, x.r3) && TakeField(x.r3, 8) == Taken(x.size, rest)
    ensures GoodUid(a.uid) && GoodPass(a.pass) && GoodName(x.name) && GoodValueText(x.value) && GoodTimeText(x.time)
    ensures GoodFname(x.fname) && GoodSizeText(x.size)
    ensures a == OpenArgs(a.uid, a.pass, x.name, Num(x.value), Num(x.time), x.fname, Num(x.size))
  {
    var f1 := TakeTwo(s, 6, 8);
    var f2 := TakeTwo(f1.rest, 10, 6);
    var f3 := TakeTwo(f2.rest, 5, 24);
    x := Texts(f2.first, f2.second, f3.first, f3.second, TakeField(f3.rest, 8).text, f1.rest, f2.rest, f3.rest);
  }

  lemma Assembled(s: string, a: OpenArgs, b: OpenBytes, r1: string, r2: string, r3: string, rest: string)
    requires s == a.uid + " " + (a.pass + " " + r1) && r1 == b.name + " " + (b.value + " " + r2)
    requires r2 == b.time + " " + (b.fname + " " + r3) && r3 == b.size + " " + rest
    ensures s == HeaderOf(a, b, rest)
  {
  }

  lemma OpenHasForm(s: string, a: OpenArgs, rest: string)
    requires ParseOpen(s) == OpenHeader(a, rest)
    ensures GoodUid(a.uid) && GoodPass(a.pass) && OpenForm(s, a, rest)
  {
    var x := TextsOf(s, a, rest);
    CredentialsAre(s, a.uid, a.pass, x.r1);
    var name, value := TwoFieldsFrom(x.r1, 10, 6);
    var time, fname := TwoFieldsFrom(x.r2, 5, 24);
    TakeFieldIs(x.r3, 8, x.size, rest);
    var size :| size != "" && Reads(size, 8, x.size) && x.r3 == size + " " + rest;
    var b := OpenBytes(name, value, time, fname, size);
    Assembled(s, a, b, x.r1, x.r2, x.r3, rest);
    assert OpenReads(b, a);
  }

  /** Parsing field by field. */
  lemma ParseOpenBy(s: string, a: OpenArgs, b: OpenBytes, r1: string, r2: string, r3: string, rest: string)
    requires GoodUid(a.uid) && GoodPass(a.pass) && OpenReads(b, a)
    requires TakeTwo(s, 6, 8) == TakenTwo(a.uid, a.pass, r1)
    requires TakeTwo(r1, 10, 6) == TakenTwo(CString(b.name), CString(b.value), r2)
    requires TakeTwo(r2, 5, 24) == TakenTwo(CString(b.time), CString(b.fname), r3)
    requires TakeField(r3, 8) == Taken(CString(b.size), rest)
    ensures ParseOpen(s) == OpenHeader(a, rest)
  {
  }

  lemma OpenFromForm(s: string, a: OpenArgs, rest: string, b: OpenBytes)
    requires GoodUid(a.uid) && GoodPass(a.pass) && OpenReads(b, a)
    requires s == HeaderOf(a, b, rest)
    ensures ParseOpen(s) == OpenHeader(a, rest)
  {
    var r3 := b.size + " " + rest;
    var r2 := b.time + " " + (b.fname + " " + r3);
    var r1 := b.name + " " + (b.value + " " + r2);
    CredentialsAre(s, a.uid, a.pass, r1);
    TwoFieldsAre(r1, 10, 6, b.name, b.value, r2);
    TwoFieldsAre(r2, 5, 24, b.time, b.fname, r3);
    LastFieldIs(r3, b.size, rest);
    ParseOpenBy(s, a, b, r1, r2, r3, rest);
  }

  lemma LastFieldIs(s: string, f: string, rest: string)
    requires IsField(f, 8) && f != "" && s == f + " " + rest
    ensures TakeField(s, 8) == Taken(CString(f), rest)
  {
    TakeFieldIs(s, 8, CString(f), rest);
  }

  /** Main result: `OPA` is accepted with these arguments, and reading stops here, exactly for headers of
      this form. */
  lemma OpenGrammar(s: string, a: OpenArgs, rest: string)
    ensures ParseOpen(s) == OpenHeader(a, rest) <==> GoodUid(a.uid) && GoodPass(a.pass) && OpenForm(s, a, rest)
  {
    if ParseOpen(s) == OpenHeader(a, rest) { OpenHasForm(s, a, rest); }
    if GoodUid(a.uid) && GoodPass(a.pass) && OpenForm(s, a, rest) {
      var b: OpenBytes :| OpenReads(b, a) && s == HeaderOf(a, b, rest);
      OpenFromForm(s, a, rest, b);
    }
  }
}
