/** Request texts: how the client prints them and which ones the server's parsers let through. */
module Requests {
  import opened Text
  import opened Domain
  import opened FileText
  import opened Wire
  import opened Streams

  // ---------- UDP parsers (input_funcs.c:5-146) ----------

  /** Characters 4..10 are digits and character 10 is `last`. */
  predicate HasUid(input: string, last: char) { |input| >= 11 && AllDigits(input[4..10]) && input[10] == last }

  predicate HasPass(input: string) { |input| >= 20 && AllAlnum(input[11..19]) && input[19] == '\n' }

  /** One to three digits from character 4 on, then a newline, in a text of six to eight characters. */
  predicate HasAid(input: string)
  {
    6 <= |input| <= 8 && var k := DigitSpan(input[4..]); 1 <= k <= 3 && 4 + k < |input| && input[4 + k] == '\n'
  }

  function AidOf(input: string): nat
    requires HasAid(input)
  {
    Atoi(input[4..])
  }

  /** 0: too short or no separator after three characters; 1: a space follows; 2: a newline follows. */
  method ReadCommandUdp(input: string) returns (r: int, command: string)
    ensures r == if |input| >= 4 && input[3] == ' ' then 1 else if |input| >= 4 && input[3] == '\n' then 2 else 0
    ensures r != 0 ==> command == input[..3]
  {
    command := "";
    if |input| < 4 { return 0, command; }
    var buffer := new char[4];
    for i := 0 to 4
      invariant i <= 3 ==> buffer[..i] == input[..i]
      invariant i < 4
    {
      if i == 3 {
        if input[i] == ' ' { return 1, buffer[..3]; }
        if input[i] == '\n' { return 2, buffer[..3]; }
        return 0, command;
      }
      buffer[i] := input[i];
    }
  }

  /** `read_uid_udp` with `last` a space, `read_uid_udp_final` with a newline. */
  method ReadUidUdp(input: string, last: char) returns (ok: bool, uid: string)
    ensures ok == HasUid(input, last)
    ensures ok ==> GoodUid(uid) && uid == UidPart(input)
  {
    uid := "";
    if |input| < 11 { return false, uid; }
    var buffer := new char[7];
    for i := 4 to 11
      invariant i < 11
      invariant buffer[..i - 4] == input[4..i]
      invariant AllDigits(input[4..i])
    {
      if i == 10 { return input[i] == last, buffer[..6]; }
      if !IsDigit(input[i]) {
        assert input[4..10][i - 4] == input[i];
        return false, uid;
      }
      buffer[i - 4] := input[i];
      assert input[4..i + 1] == input[4..i] + [input[i]];
    }
  }

  method ReadPasswordUdp(input: string) returns (ok: bool, pass: string)
    ensures ok == HasPass(input)
    ensures ok ==> pass == input[11..19]
  {
    pass := "";
    if |input| < 20 { return false, pass; }
    var buffer := new char[9];
    for i := 11 to 20
      invariant i < 20
      invariant buffer[..i - 11] == input[11..i]
      invariant AllAlnum(input[11..i])
    {
      if i == 19 { return input[i] == '\n', buffer[..8]; }
      if !IsAlnum(input[i]) {
        assert input[11..19][i - 11] == input[i];
        return false, pass;
      }
      buffer[i - 11] := input[i];
      assert input[11..i + 1] == input[11..i] + [input[i]];
    }
  }

  method ReadCredentialsUdp(input: string) returns (ok: bool, uid: string, pass: string)
    ensures ok == HasCredentials(input)
    ensures ok ==> GoodUid(uid) && GoodPass(pass) && uid == UidPart(input) && pass == PassPart(input)
  {
    pass := "";
    ok, uid := ReadUidUdp(input, ' ');
    if !ok { return; }
    ok, pass := ReadPasswordUdp(input);
  }

  lemma DigitSpanIs(s: string, k: nat)
    requires k <= |s| && AllDigits(s[..k]) && (k < |s| ==> !IsDigit(s[k]))
    ensures DigitSpan(s) == k
  {
    DigitSpanOf(s[..k], s[k..]);
    assert s[..k] + s[k..] == s;
  }

  /** Gives the number padded to three digits. */
  method ReadAidUdp(input: string) returns (ok: bool, aid: string)
    ensures ok == HasAid(input)
    ensures ok ==> aid == Pad3(AidOf(input))
  {
    aid := "";
    if |input| > 8 || |input| < 6 { return false, aid; }
    var buffer := new char[4];
    ghost var t := input[4..];
    for i := 4 to 8
      invariant i <= |input| && buffer[..i - 4] == t[..i - 4]
      invariant AllDigits(t[..i - 4])
    {
      if i == |input| || !IsDigit(input[i]) { DigitSpanIs(t, i - 4); }
      if i == |input| { return false, aid; }
      if input[i] == '\n' {
        if i > 4 {
          DigitSpanOf(t[..i - 4], "");
          assert t[..i - 4] + "" == buffer[..i - 4] == input[4..i];
          return true, Pad3(Atoi(buffer[..i - 4]));
        }
        return false, aid;
      }
      if !IsDigit(input[i]) { return false, aid; }
      buffer[i - 4] := input[i];
      assert t[..i - 4 + 1] == t[..i - 4] + [input[i]];
    }
    assert t[..4] == t;
    DigitSpanIs(t, 4);
    return false, aid;
  }

  /** One to three digits and a newline, and nothing after them. */
  predicate AidLine(input: string)
  {
    6 <= |input| <= 8 && AllDigits(input[4..|input| - 1]) && input[|input| - 1] == '\n'
  }

  /** A text of at most eight characters whose digits are followed by a newline that is not its last character. */
  predicate TextAfterNewline(input: string)
    requires |input| >= 4
  {
    var k := DigitSpan(input[4..]);
    |input| <= 8 && 1 <= k && 4 + k < |input| - 1 && input[4 + k] == '\n'
  }

  /** The parser of identifiers accepts exactly one to three digits and a newline, except that it ignores
      what follows a first newline. */
  lemma AidGrammar(input: string)
    requires |input| >= 4
    ensures (HasAid(input) <==> AidLine(input)) <==> !TextAfterNewline(input)
  {
    var t := input[4..];
    var n, k := |input|, DigitSpan(t);
    if AidLine(input) {
      assert t[..n - 5] == input[4..n - 1];
      DigitSpanIs(t, n - 5);
    }
    if HasAid(input) && 4 + k == n - 1 {
      assert input[4..n - 1] == t[..k];
    }
  }

  /** Such a text. */
  lemma AidIgnoresTail()
    ensures HasAid("SRC 1\nxy") && AidOf("SRC 1\nxy") == 1
  {
  }

  // ---------- Whole UDP requests ----------

  /** A request, or the reply a malformed text gets. */
  datatype Parsed = Bad(reply: string) | Good(req: Request)

  predicate HasCredentials(input: string) { HasUid(input, ' ') && HasPass(input) }

  function GoodIf(ok: bool, req: Request, verb: string): Parsed
  {
    if ok then Good(req) else Bad(StatusLine(verb, "ERR"))
  }

  /** Characters 4..10 and 11..19, whatever they are. */
  function UidPart(input: string): string { if |input| >= 10 then input[4..10] else "" }

  function PassPart(input: string): string { if |input| >= 19 then input[11..19] else "" }

  function AidPart(input: string): nat { if HasAid(input) then AidOf(input) else 0 }

  function ParseUdp(input: string, firstEntry: Option<nat>): Parsed
  {
    if |input| < 4 || (input[3] != ' ' && input[3] != '\n') then Bad("ERR\n")
    else if input[3] == '\n' && input[..3] != "LST" then Bad("ERR\n")
    else ParseCommand(input, firstEntry)
  }

  /** The dispatcher, on a text whose command is followed by a separator. */
  function ParseCommand(input: string, firstEntry: Option<nat>): Parsed
    requires |input| >= 4
  {
    var command := input[..3];
    if command == "LIN" then GoodIf(HasCredentials(input), Login(UidPart(input), PassPart(input)), "RLI")
    else if command == "LOU" then GoodIf(HasCredentials(input), Logout(UidPart(input), PassPart(input)), "RLO")
    else if command == "UNR" then GoodIf(HasCredentials(input), Unregister(UidPart(input), PassPart(input)), "RUR")
    else if command == "LMA" then GoodIf(HasUid(input, '\n'), MyAuctions(UidPart(input)), "RMA")
    else if command == "LMB" then GoodIf(HasUid(input, '\n'), MyBids(UidPart(input)), "RMB")
    else if command == "LST" then GoodIf(input[3] == '\n', List(firstEntry), "RLS")
    else if command == "SRC" then GoodIf(HasAid(input), Request.ShowRecord(AidPart(input)), "RRC")
    else Bad("ERR\n")
  }

  /** Only requests in their formats get past the parsers. */
  lemma ParseUdpIsValid(input: string, firstEntry: Option<nat>)
    ensures ParseUdp(input, firstEntry).Good? ==> ValidRequest(ParseUdp(input, firstEntry).req)
  {
    if HasAid(input) {
      NumBound(input[4..][..DigitSpan(input[4..])]);
      assert Pow10(1) == 10 && Pow10(2) == 100 && Pow10(3) == 1000;
    }
  }

  function CredentialText(command: string, uid: string, pass: string): string
  {
    command + " " + uid + " " + pass + "\n"
  }

  lemma CredentialsParse(command: string, uid: string, pass: string)
    requires |command| == 3 && GoodUid(uid) && GoodPass(pass)
    ensures var t := CredentialText(command, uid, pass);
            |t| == 20 && t[..3] == command && t[3] == ' ' && HasUid(t, ' ') && HasPass(t) &&
            t[4..10] == uid && t[11..19] == pass
  {
  }

  /** What `login`, `logout` and `unregister` of the client print comes back as the same request. */
  lemma CredentialRoundTrip(uid: string, pass: string)
    requires GoodUid(uid) && GoodPass(pass)
    ensures ParseUdp(CredentialText("LIN", uid, pass), None) == Good(Login(uid, pass))
    ensures ParseUdp(CredentialText("LOU", uid, pass), None) == Good(Logout(uid, pass))
    ensures ParseUdp(CredentialText("UNR", uid, pass), None) == Good(Unregister(uid, pass))
  {
    CredentialsParse("LIN", uid, pass);
    CredentialsParse("LOU", uid, pass);
    CredentialsParse("UNR", uid, pass);
    assert "LIN"[1] != "LOU"[1] && "LIN"[0] != "UNR"[0] && "LOU"[0] != "UNR"[0];
  }

  function RecordText(aid: nat): string { "SRC " + Pad3(aid) + "\n" }

  /** `showRecord` prints a padded identifier, which the parser takes unchanged. */
  lemma RecordRequestRoundTrip(aid: nat)
    requires aid <= 999
    ensures ParseUdp(RecordText(aid), None) == Good(Request.ShowRecord(aid))
  {
    var t := RecordText(aid);
    Pad3Digits(aid);
    assert |Pad3(aid)| == 3 && t[..3] == "SRC" && t[3] == ' ';
    assert t[4..] == Pad3(aid) + "\n";
    DigitSpanOf(Pad3(aid), "\n");
    AtoiPad(aid, 3, "\n");
    assert t[4..7] == Pad3(aid);
    assert t[..3] != "LIN" && t[..3] != "LOU" && t[..3] != "UNR" && t[..3] != "LMA" && t[..3] != "LMB" &&
        t[..3] != "LST";
  }

  /** The three list requests of the client. */
  lemma ListRequestsRoundTrip(uid: string, firstEntry: Option<nat>)
    requires GoodUid(uid)
    ensures ParseUdp("LMA " + uid + "\n", firstEntry) == Good(MyAuctions(uid))
    ensures ParseUdp("LMB " + uid + "\n", firstEntry) == Good(MyBids(uid))
    ensures ParseUdp("LST\n", firstEntry) == Good(List(firstEntry))
  {
    OwnListParses("LMA ", "LMA", uid);
    OwnListParses("LMB ", "LMB", uid);
    assert "LST\n"[..3] == "LST" && "LST"[1] == 'S' && "LMA"[2] == 'A' && "LMB"[2] == 'B';
    assert "LIN"[1] == 'I' && "LOU"[1] == 'O' && "UNR"[0] == 'U' && "LMA"[1] == "LMB"[1] == 'M';
  }

  lemma OwnListParses(head: string, command: string, uid: string)
    requires GoodUid(uid) && |command| == 3 && head == command + " "
    ensures var t := head + uid + "\n";
        |t| == 11 && t[..3] == command && t[3] == ' ' && HasUid(t, '\n') && UidPart(t) == uid
  {
  }

  /** The datagram the client sends for a request. */
  function ClientText(r: Request): string
    requires r.Login? || r.Logout? || r.Unregister? || r.MyAuctions? || r.MyBids? || r.List? || r.ShowRecord?
  {
    match r
    case Login(uid, pass) => CredentialText("LIN", uid, pass)
    case Logout(uid, pass) => CredentialText("LOU", uid, pass)
    case Unregister(uid, pass) => CredentialText("UNR", uid, pass)
    case MyAuctions(uid) => "LMA " + uid + "\n"
    case MyBids(uid) => "LMB " + uid + "\n"
    case List(_) => "LST\n"
    case ShowRecord(aid) => RecordText(aid)
  }

  lemma CredentialTail(t: string, command: string)
    requires HasCredentials(t) && t[3] == ' ' && t[..3] == command
    ensures t == CredentialText(command, UidPart(t), PassPart(t)) <==> |t| == 20
  {
    CredentialsParse(command, UidPart(t), PassPart(t));
    if |t| == 20 { assert t == t[..3] + " " + t[4..10] + " " + t[11..19] + "\n"; }
  }

  lemma OwnListTail(t: string, head: string)
    requires HasUid(t, '\n') && |head| == 4 && t[..4] == head
    ensures t == head + UidPart(t) + "\n" <==> |t| == 11
  {
    if |t| == 11 { assert t == t[..4] + t[4..10] + "\n"; }
  }

  /** An accepted datagram other than SRC is the one the client sends for that request exactly when it is no
      longer than that: bytes after the closing newline are ignored. */
  lemma UdpTails(t: string, firstEntry: Option<nat>)
    requires ParseUdp(t, firstEntry).Good? && !ParseUdp(t, firstEntry).req.ShowRecord?
    ensures var r := ParseUdp(t, firstEntry).req;
            (r.Login? || r.Logout? || r.Unregister? || r.MyAuctions? || r.MyBids? || r.List?) &&
            |t| >= |ClientText(r)| && (t == ClientText(r) <==> |t| == |ClientText(r)|)
  {
    var r := ParseUdp(t, firstEntry).req;
    if r.List? {
      assert |t| == 4 ==> t == t[..3] + [t[3]];
    } else if r.MyAuctions? {
      assert t[..4] == "LMA ";
      OwnListTail(t, "LMA ");
    } else if r.MyBids? {
      assert t[..4] == "LMB ";
      OwnListTail(t, "LMB ");
    } else {
      CredentialTail(t, t[..3]);
    }
  }

  /** And any tail is ignored. */
  lemma TailsAreIgnored(t: string, tail: string, firstEntry: Option<nat>)
    requires ParseUdp(t, firstEntry).Good? && !ParseUdp(t, firstEntry).req.ShowRecord?
    ensures ParseUdp(t + tail, firstEntry) == ParseUdp(t, firstEntry)
  {
    var more := t + tail;
    assert more[..3] == t[..3] && more[3] == t[3];
    if |t| >= 11 { assert more[4..10] == t[4..10] && more[10] == t[10]; }
    if |t| >= 20 { assert more[11..19] == t[11..19] && more[19] == t[19]; }
  }

  // ---------- TCP request headers (tcp_functions.c) ----------

  /** A field ended by a space, as the C string the server sees, and the rest of the stream. */
  datatype Taken = Failed | Taken(text: string, rest: string)

  function TakeField(s: string, size: nat): (t: Taken)
    ensures t.Taken? ==> |t.text| <= size
  {
    match FieldAt(s, size)
    case BeforeSpace(t) => Taken(CString(t), Rest(s, size))
    case _ => Failed
  }

  function TakeLine(s: string, size: nat): (t: Taken)
    ensures t.Taken? ==> |t.text| <= size
  {
    match FieldAt(s, size)
    case BeforeNewline(t) => Taken(CString(t), Rest(s, size))
    case _ => Failed
  }

  predicate GoodValueText(s: string) { 1 <= |s| <= 6 && AllDigits(s) }

  predicate GoodTimeText(s: string) { 1 <= |s| <= 5 && AllDigits(s) }

  predicate GoodSizeText(s: string) { 1 <= |s| <= 8 && AllDigits(s) && Num(s) <= 10_000_000 }

  /** The lengths of the fields, on any repeated digit. */
  lemma FormatLengths(c: char, n: nat)
    requires IsDigit(c)
    ensures var s := seq(n, _ => c);
            && (GoodUid(s) <==> n == 6) && (GoodPass(s) <==> n == 8)
            && (GoodName(s) <==> 1 <= n <= 10) && (GoodFname(s) <==> 1 <= n <= 24)
            && (GoodAidText(s) <==> n <= 3) && (GoodValueText(s) <==> 1 <= n <= 6) && (GoodTimeText(s) <==> 1 <= n <= 5)
  {
  }

  /** The characters of the fields. */
  lemma FormatCharacters(c: char)
    ensures var digit, letter := '0' <= c <= '9', 'a' <= c <= 'z' || 'A' <= c <= 'Z';
            && (GoodUid([c, c, c, c, c, c]) <==> digit) && (GoodPass([c, c, c, c, c, c, c, c]) <==> digit || letter)
            && (GoodName([c]) <==> digit || letter || c == '_' || c == '-')
            && (GoodFname([c]) <==> digit || letter || c == '_' || c == '-' || c == '.')
            && (GoodAidText([c]) <==> digit) && (GoodValueText([c]) <==> digit) && (GoodTimeText([c]) <==> digit)
  {
    var uid, pass := [c, c, c, c, c, c], [c, c, c, c, c, c, c, c];
    assert uid[0] == c && pass[0] == c && [c][0] == c;
  }

  /** Ten million bytes are the most. */
  lemma SizeLimit(n: nat)
    ensures GoodSizeText(Dec(n)) <==> n <= 10_000_000
  {
    NumDec(n);
    Pow10Small();
    if n <= 10_000_000 { DecFits(n, 8, 10_000_000); }
  }

  datatype OpenArgs = OpenArgs(uid: string, pass: string, name: string, startValue: nat, timeActive: nat,
                               fname: string, fsize: nat)

  datatype OpenHeader = BadOpen | OpenHeader(args: OpenArgs, rest: string)

  /** Two such fields in a row. */
  datatype TakenTwo = FailedTwo | TakenTwo(first: string, second: string, rest: string)

  function TakeTwo(s: string, size1: nat, size2: nat): TakenTwo
  {
    match TakeField(s, size1)
    case Failed => FailedTwo
    case Taken(a, rest) =>
      match TakeField(rest, size2)
      case Failed => FailedTwo
      case Taken(b, rest2) => TakenTwo(a, b, rest2)
  }

  /** The seven fields after "OPA ", as checked by `verify_open_args`. */
  function ParseOpen(s: string): OpenHeader
  {
    var f1 := TakeTwo(s, 6, 8);
    if f1.FailedTwo? then BadOpen else
    var f2 := TakeTwo(f1.rest, 10, 6);
    if f2.FailedTwo? then BadOpen else
    var f3 := TakeTwo(f2.rest, 5, 24);
    if f3.FailedTwo? then BadOpen else
    var f4 := TakeField(f3.rest, 8);
    if f4.Failed? then BadOpen else
    if GoodUid(f1.first) && GoodPass(f1.second) && GoodName(f2.first) && GoodValueText(f2.second) &&
       GoodTimeText(f3.first) && GoodFname(f3.second) && GoodSizeText(f4.text)
    then
      var args := OpenArgs(f1.first, f1.second, f2.first, Num(f2.second), Num(f3.first), f3.second, Num(f4.text));
      OpenHeader(args, f4.rest)
    else BadOpen
  }

  /** `BID` after its command: three fields and a line. */
  function ParseBid(s: string): Parsed
  {
    var f1 := TakeTwo(s, 6, 8);
    if f1.FailedTwo? then Bad(StatusLine("RBD", "ERR")) else
    var f2 := TakeField(f1.rest, 3);
    if f2.Failed? then Bad(StatusLine("RBD", "ERR")) else
    var f3 := TakeLine(f2.rest, 6);
    if f3.Failed? then Bad(StatusLine("RBD", "ERR")) else
    if GoodUid(f1.first) && GoodPass(f1.second) && GoodAidText(f2.text) && GoodValueText(f3.text)
    then Good(BidOn(f1.first, f1.second, Num(f2.text), Num(f3.text)))
    else Bad(StatusLine("RBD", "ERR"))
  }

  /** `CLS` after its command: two fields and a line. */
  function ParseClose(s: string): Parsed
  {
    var f1 := TakeTwo(s, 6, 8);
    if f1.FailedTwo? then Bad(StatusLine("RCL", "ERR")) else
    var f2 := TakeLine(f1.rest, 3);
    if f2.Failed? then Bad(StatusLine("RCL", "ERR")) else
    if GoodUid(f1.first) && GoodPass(f1.second) && GoodAidText(f2.text)
    then Good(Close(f1.first, f1.second, f2.text))
    else Bad(StatusLine("RCL", "ERR"))
  }

  /** `SAS` after its command: one line; here a bad identifier is answered NOK. On an empty one the code goes
      on to read from a directory it could not open, which ends the child before it has sent anything. */
  function ParseAsset(s: string): Parsed
  {
    match TakeLine(s, 3)
    case Failed => Bad(StatusLine("RSA", "ERR"))
    case Taken(t, _) =>
      if t == "" then Bad("") else if GoodAidText(t) then Good(ShowAsset(t)) else Bad(StatusLine("RSA", "NOK"))
  }

  function OpenRequest(a: OpenArgs, upload: Upload): Request
  {
    Open(a.uid, a.pass, a.name, a.fname, a.startValue, a.timeActive, upload)
  }

  /** The C string in `command` after `read_field`, which `process_tcp_request` looks at even when it failed. */
  function CommandText(s: string): string { CString(if s != "" && s[0] == ' ' then " " else s[..Stop(s, 5)]) }

  /** `process_tcp_request` up to the handler's first look at the state. Only three letters of OPA are compared. */
  function ParseTcp(s: string, upload: Upload): Parsed
  {
    var command, rest := CommandText(s), Rest(s, 4);
    if |command| >= 3 && command[..3] == "OPA" then
      match ParseOpen(rest)
      case BadOpen => Bad(StatusLine("ROA", "ERR"))
      case OpenHeader(a, _) => Good(OpenRequest(a, upload))
    else if command == "CLS" then ParseClose(rest)
    else if command == "SAS" then ParseAsset(rest)
    else if command == "BID" then ParseBid(rest)
    else Bad("ERR\n")
  }

  lemma TakeTwoWords(a: string, b: string, rest: string, size1: nat, size2: nat)
    requires IsWord(a) && |a| <= size1 && IsWord(b) && |b| <= size2
    ensures TakeTwo(a + " " + (b + " " + rest), size1, size2) == TakenTwo(a, b, rest)
  {
    TakeWord(a, b + " " + rest, size1);
    TakeWord(b, rest, size2);
  }

  lemma TakeWord(w: string, rest: string, size: nat)
    requires IsWord(w) && |w| <= size
    ensures TakeField(w + " " + rest, size) == Taken(w, rest)
    ensures TakeLine(w + "\n" + rest, size) == Taken(w, rest)
  {
    FieldOfWord(w, ' ', rest, size);
    FieldOfWord(w, '\n', rest, size);
    assert w + " " + rest == w + [' '] + rest && w + "\n" + rest == w + ['\n'] + rest;
    CStringOfWord(w);
  }

  // ---------- The index loops that check fields (input_funcs.c:148-268) ----------

  method VerifyUid(s: string) returns (ok: bool)
    ensures ok == GoodUid(s)
  {
    if |s| != 6 { return false; }
    ok := VerifyDigits(s);
  }

  method VerifyDigits(s: string) returns (ok: bool)
    ensures ok == AllDigits(s)
  {
    for i := 0 to |s|
      invariant AllDigits(s[..i])
    {
      if !IsDigit(s[i]) { return false; }
      assert s[..i + 1] == s[..i] + [s[i]];
    }
    assert s[..|s|] == s;
    return true;
  }

  method VerifyPassword(s: string) returns (ok: bool)
    ensures ok == GoodPass(s)
  {
    if |s| != 8 { return false; }
    for i := 0 to |s|
      invariant forall j | 0 <= j < i :: IsAlnum(s[j])
    {
      if !IsAlnum(s[i]) { return false; }
    }
    return true;
  }

  method VerifyName(s: string) returns (ok: bool)
    ensures ok == GoodName(s)
  {
    if |s| > 10 || |s| < 1 { return false; }
    for i := 0 to |s|
      invariant forall j | 0 <= j < i :: IsAlnum(s[j]) || s[j] == '_' || s[j] == '-'
    {
      if !IsAlnum(s[i]) && s[i] != '_' && s[i] != '-' { return false; }
    }
    return true;
  }

  method VerifyFname(s: string) returns (ok: bool)
    ensures ok == GoodFname(s)
  {
    if |s| > 24 || |s| < 1 { return false; }
    for i := 0 to |s|
      invariant forall j | 0 <= j < i :: IsAlnum(s[j]) || s[j] == '.' || s[j] == '_' || s[j] == '-'
    {
      if !IsAlnum(s[i]) && s[i] != '.' && s[i] != '_' && s[i] != '-' { return false; }
    }
    return true;
  }

  /** `verify_start_value`, `verify_timeactive` and `verify_bid_value`, which differ in `most`. */
  method VerifyNumber(s: string, most: nat) returns (ok: bool)
    ensures ok <==> 1 <= |s| <= most && AllDigits(s)
  {
    if |s| > most || |s| < 1 { return false; }
    ok := VerifyDigits(s);
  }

  method VerifySize(s: string) returns (ok: bool)
    ensures ok == GoodSizeText(s)
  {
    ok := VerifyNumber(s, 8);
    if ok { ok := AtoiOfDigits(s) <= 10_000_000; }
  }

  /** `atoi` of a checked field. */
  function AtoiOfDigits(s: string): (n: nat)
    requires AllDigits(s)
    ensures n == Num(s)
  {
    DigitSpanOf(s, "");
    assert s + "" == s;
    Atoi(s)
  }

  // ---------- Reading the fields from the socket ----------

  method ReadSpaceField(sock: Socket, size: nat) returns (ok: bool, text: string)
    modifies sock`incoming
    ensures match TakeField(old(sock.incoming), size)
            case Failed => !ok
            case Taken(t, rest) => ok && text == t && sock.incoming == rest
  {
    var buffer := new char[size + 1];
    var r := ReadField(sock, buffer, size);
    if r < 1 { return false, ""; }
    CStringStops(buffer[..], r - 1);
    assert buffer[..][..r - 1] == buffer[..r - 1];
    return true, CString(buffer[..]);
  }

  method ReadLineField(sock: Socket, size: nat) returns (ok: bool, text: string)
    modifies sock`incoming
    ensures match TakeLine(old(sock.incoming), size)
            case Failed => !ok
            case Taken(t, rest) => ok && text == t && sock.incoming == rest
  {
    ghost var s := sock.incoming;
    var buffer := new char[size + 1];
    var r := ReadField(sock, buffer, size);
    if r != -1 { return false, ""; }
    ghost var t := FieldAt(s, size).text;
    CStringStops(buffer[..], |t|);
    assert buffer[..][..|t|] == t;
    return true, CString(buffer[..]);
  }

  method ReadTwoFields(sock: Socket, size1: nat, size2: nat) returns (ok: bool, a: string, b: string)
    modifies sock`incoming
    ensures match TakeTwo(old(sock.incoming), size1, size2)
            case FailedTwo => !ok
            case TakenTwo(x, y, rest) => ok && a == x && b == y && sock.incoming == rest
  {
    a, b := "", "";
    ok, a := ReadSpaceField(sock, size1);
    if !ok { return; }
    ok, b := ReadSpaceField(sock, size2);
  }

  method ReadOpenHeader(sock: Socket) returns (ok: bool, args: OpenArgs)
    modifies sock`incoming
    ensures match ParseOpen(old(sock.incoming))
            case BadOpen => !ok
            case OpenHeader(a, rest) => ok && args == a && sock.incoming == rest
  {
    args := OpenArgs("", "", "", 0, 0, "", 0);
    var uid, pass, name, value, time, fname, size: string;
    ok, uid, pass := ReadTwoFields(sock, 6, 8);
    if !ok { return; }
    ok, name, value := ReadTwoFields(sock, 10, 6);
    if !ok { return; }
    ok, time, fname := ReadTwoFields(sock, 5, 24);
    if !ok { return; }
    ok, size := ReadSpaceField(sock, 8);
    if !ok { return; }
    ok := VerifyOpenArgs(uid, pass, name, value, time, fname, size);
    if ok {
      args := OpenArgs(uid, pass, name, AtoiOfDigits(value), AtoiOfDigits(time), fname, AtoiOfDigits(size));
    }
  }

  method VerifyOpenArgs(uid: string, pass: string, name: string, value: string, time: string, fname: string,
                        size: string)
    returns (ok: bool)
    ensures ok <==> GoodUid(uid) && GoodPass(pass) && GoodName(name) && GoodValueText(value) &&
                    GoodTimeText(time) && GoodFname(fname) && GoodSizeText(size)
  {
    ok := VerifyUid(uid);
    if !ok { return; }
    ok := VerifyPassword(pass);
    if !ok { return; }
    ok := VerifyName(name);
    if !ok { return; }
    ok := VerifyNumber(value, 6);
    if !ok { return; }
    ok := VerifyNumber(time, 5);
    if !ok { return; }
    ok := VerifyFname(fname);
    if !ok { return; }
    ok := VerifySize(size);
  }

  method ReadBidRequest(sock: Socket) returns (parsed: Parsed)
    modifies sock`incoming
    ensures parsed == ParseBid(old(sock.incoming))
  {
    parsed := Bad(StatusLine("RBD", "ERR"));
    var ok, uid, pass := ReadTwoFields(sock, 6, 8);
    if !ok { return; }
    var aid, value: string;
    ok, aid := ReadSpaceField(sock, 3);
    if !ok { return; }
    ok, value := ReadLineField(sock, 6);
    if !ok { return; }
    ok := VerifyCredentials(uid, pass);
    if !ok { return; }
    ok := VerifyAid(aid);
    if !ok { return; }
    ok := VerifyNumber(value, 6);
    if !ok { return; }
    parsed := Good(BidOn(uid, pass, AtoiOfDigits(aid), AtoiOfDigits(value)));
  }

  method VerifyCredentials(uid: string, pass: string) returns (ok: bool)
    ensures ok <==> GoodUid(uid) && GoodPass(pass)
  {
    ok := VerifyUid(uid);
    if ok { ok := VerifyPassword(pass); }
  }

  /** Digits only; at most 999, which three digits cannot exceed. */
  method VerifyAid(aid: string) returns (ok: bool)
    ensures |aid| <= 3 ==> ok == GoodAidText(aid)
    ensures ok ==> AllDigits(aid)
  {
    ok := VerifyDigits(aid);
    if !ok { return false; }
    NumBound(aid);
    assert Pow10(1) == 10 && Pow10(2) == 100 && Pow10(3) == 1000;
    return AtoiOfDigits(aid) <= 999;
  }

  method ReadCloseRequest(sock: Socket) returns (parsed: Parsed)
    modifies sock`incoming
    ensures parsed == ParseClose(old(sock.incoming))
  {
    parsed := Bad(StatusLine("RCL", "ERR"));
    var ok, uid, pass := ReadTwoFields(sock, 6, 8);
    if !ok { return; }
    var aid: string;
    ok, aid := ReadLineField(sock, 3);
    if !ok { return; }
    ok := VerifyCredentials(uid, pass);
    if !ok { return; }
    ok := VerifyAid(aid);
    if !ok { return; }
    parsed := Good(Close(uid, pass, aid));
  }

  method ReadAssetRequest(sock: Socket) returns (parsed: Parsed)
    modifies sock`incoming
    ensures parsed == ParseAsset(old(sock.incoming))
  {
    var ok, aid := ReadLineField(sock, 3);
    if !ok { return Bad(StatusLine("RSA", "ERR")); }
    ok := VerifyAid(aid);
    if !ok { return Bad(StatusLine("RSA", "NOK")); }
    parsed := if aid == "" then Bad("") else Good(ShowAsset(aid));
  }

  method ReadCommand(sock: Socket) returns (command: string)
    modifies sock`incoming
    ensures command == CommandText(old(sock.incoming)) && sock.incoming == Rest(old(sock.incoming), 4)
  {
    ghost var s := sock.incoming;
    var buffer := new char[5](_ => '\0');
    var r := ReadField(sock, buffer, 4);
    command := CString(buffer[..]);
    ghost var got := if s != "" && s[0] == ' ' then " " else s[..Stop(s, 5)];
    if |got| < 5 {
      CStringStops(buffer[..], |got|);
      assert buffer[..][..|got|] == got;
    } else {
      assert buffer[..] == got;
    }
  }

  // ---------- Round trips ----------

  /** What passes the checks of OPA, BID, CLS and SAS is a request in its formats. */
  lemma TcpRequestsAreValid(s: string)
    ensures ParseOpen(s).OpenHeader? ==> GoodOpenArgs(ParseOpen(s).args)
    ensures ParseBid(s).Good? ==> ParseBid(s).req.BidOn? && ValidRequest(ParseBid(s).req)
    ensures ParseClose(s).Good? ==> ParseClose(s).req.Close? && ValidRequest(ParseClose(s).req)
    ensures ParseAsset(s).Good? ==> ParseAsset(s).req.ShowAsset? && ValidRequest(ParseAsset(s).req)
  {
    OpenIsValid(s);
    BidIsValid(s);
  }

  lemma OpenIsValid(s: string)
    ensures ParseOpen(s).OpenHeader? ==> GoodOpenArgs(ParseOpen(s).args)
  {
    if ParseOpen(s).OpenHeader? {
      var r1 := TakeTwo(s, 6, 8).rest;
      var f2 := TakeTwo(r1, 10, 6);
      NumberFits(f2.second);
      NumberFits(TakeTwo(f2.rest, 5, 24).first);
    }
  }

  lemma BidIsValid(s: string)
    ensures ParseBid(s).Good? ==> ParseBid(s).req.BidOn? && ValidRequest(ParseBid(s).req)
  {
    if ParseBid(s).Good? {
      var f2 := TakeField(TakeTwo(s, 6, 8).rest, 3);
      NumberFits(f2.text);
      NumberFits(TakeLine(f2.rest, 6).text);
    }
  }

  lemma NumberFits(t: string)
    requires AllDigits(t)
    ensures |t| <= 3 ==> Num(t) <= 999
    ensures |t| <= 5 ==> Num(t) <= 99999
    ensures |t| <= 6 ==> Num(t) <= 999999
  {
    Pow10Small();
    assert Pow10(0) == 1 && Pow10(1) == 10 && Pow10(2) == 100 && Pow10(4) == 10_000;
    NumBound(t);
  }

  /** `openAuction` of the client, after "OPA ". */
  function OpenText(a: OpenArgs, rest: string): string
  {
    a.uid + " " + (a.pass + " " + (a.name + " " + (Dec(a.startValue) + " " + (Dec(a.timeActive) + " " +
    (a.fname + " " + (Dec(a.fsize) + " " + rest))))))
  }

  predicate GoodOpenArgs(a: OpenArgs)
  {
    GoodUid(a.uid) && GoodPass(a.pass) && GoodName(a.name) && GoodFname(a.fname) &&
    a.startValue <= 999999 && a.timeActive <= 99999 && a.fsize <= 10_000_000
  }

  lemma DecFits(n: nat, k: nat, bound: nat)
    requires n <= bound && k >= 1 && bound < Pow10(k)
    ensures 1 <= |Dec(n)| <= k && AllDigits(Dec(n)) && Num(Dec(n)) == n && IsWord(Dec(n))
  {
    DecLength(n, k);
    NumDec(n);
    DigitsAreWord(Dec(n));
  }

  lemma Pow10Small()
    ensures Pow10(3) == 1000 && Pow10(5) == 100_000 && Pow10(6) == 1_000_000 && Pow10(8) == 100_000_000
  {
  }

  lemma OpenFieldTexts(a: OpenArgs)
    requires GoodOpenArgs(a)
    ensures GoodValueText(Dec(a.startValue)) && GoodTimeText(Dec(a.timeActive)) && GoodSizeText(Dec(a.fsize))
    ensures Num(Dec(a.startValue)) == a.startValue && Num(Dec(a.timeActive)) == a.timeActive &&
        Num(Dec(a.fsize)) == a.fsize
    ensures IsWord(a.uid) && IsWord(a.pass) && IsWord(a.name) && IsWord(a.fname)
    ensures IsWord(Dec(a.startValue)) && IsWord(Dec(a.timeActive)) && IsWord(Dec(a.fsize))
  {
    Pow10Small();
    DecFits(a.startValue, 6, 999999);
    DecFits(a.timeActive, 5, 99999);
    DecFits(a.fsize, 8, 10_000_000);
    GoodFieldsAreWords(a.uid);
    GoodFieldsAreWords(a.pass);
    GoodFieldsAreWords(a.name);
    GoodFieldsAreWords(a.fname);
  }

  /** Main result: the header fields come back unchanged, and reading stops exactly before the file. */
  lemma OpenHeaderRoundTrip(a: OpenArgs, rest: string)
    requires GoodOpenArgs(a)
    ensures ParseOpen(OpenText(a, rest)) == OpenHeader(a, rest)
  {
    OpenFieldTexts(a);
    var r4 := Dec(a.fsize) + " " + rest;
    var r3 := Dec(a.timeActive) + " " + (a.fname + " " + r4);
    var r2 := a.name + " " + (Dec(a.startValue) + " " + r3);
    TakeTwoWords(a.uid, a.pass, r2, 6, 8);
    TakeTwoWords(a.name, Dec(a.startValue), r3, 10, 6);
    TakeTwoWords(Dec(a.timeActive), a.fname, r4, 5, 24);
    TakeWord(Dec(a.fsize), rest, 8);
  }

  /** `bid` of the client prints identifier and value with leading zeros. */
  function BidLine(uid: string, pass: string, aid: nat, value: nat): string
  {
    uid + " " + (pass + " " + (Pad3(aid) + " " + (Pad(value, 6) + "\n" + "")))
  }

  lemma PadReads(n: nat, width: nat)
    requires width >= 1 && n < Pow10(width)
    ensures |Pad(n, width)| == width && AllDigits(Pad(n, width)) && Num(Pad(n, width)) == n && IsWord(Pad(n, width))
  {
    PadLength(n, width);
    AtoiPad(n, width, "");
    DigitSpanOf(Pad(n, width), "");
    assert Pad(n, width) + "" == Pad(n, width);
    DigitsAreWord(Pad(n, width));
  }

  lemma BidRequestRoundTrip(uid: string, pass: string, aid: nat, value: nat)
    requires GoodUid(uid) && GoodPass(pass) && aid <= 999 && value <= 999999
    ensures ParseBid(BidLine(uid, pass, aid, value)) == Good(BidOn(uid, pass, aid, value))
  {
    Pow10Small();
    PadReads(aid, 3);
    PadReads(value, 6);
    GoodFieldsAreWords(uid);
    GoodFieldsAreWords(pass);
    var r4 := Pad(value, 6) + "\n" + "";
    var r3 := Pad3(aid) + " " + r4;
    TakeTwoWords(uid, pass, r3, 6, 8);
    TakeWord(Pad3(aid), r4, 3);
    TakeWord(Pad(value, 6), "", 6);
  }

  function CloseLine(uid: string, pass: string, aid: nat): string
  {
    uid + " " + (pass + " " + (Pad3(aid) + "\n" + ""))
  }

  lemma CloseRequestRoundTrip(uid: string, pass: string, aid: nat)
    requires GoodUid(uid) && GoodPass(pass) && aid <= 999
    ensures ParseClose(CloseLine(uid, pass, aid)) == Good(Close(uid, pass, Pad3(aid)))
  {
    Pow10Small();
    PadReads(aid, 3);
    GoodFieldsAreWords(uid);
    GoodFieldsAreWords(pass);
    var r3 := Pad3(aid) + "\n" + "";
    TakeTwoWords(uid, pass, r3, 6, 8);
    TakeWord(Pad3(aid), "", 3);
  }

  /** `showAsset` of the client. */
  lemma AssetRequestRoundTrip(aid: nat)
    requires aid <= 999
    ensures ParseAsset(Pad3(aid) + "\n" + "") == Good(ShowAsset(Pad3(aid)))
  {
    Pow10Small();
    PadReads(aid, 3);
    TakeWord(Pad3(aid), "", 3);
  }
}
