/** How the client reads the server's text replies (client/functions.c, client/aux_functions.c). */
module Client {
  import opened Text
  import opened Domain
  import opened Wire

  // ---------- verify_buffer ----------

  /** Ends in a newline, does not start with a space, holds more than one character and no two adjacent spaces. */
  predicate WellFormed(s: string)
  {
    |s| > 1 && s[|s| - 1] == '\n' && s[0] != ' ' && NoDoubleSpace(s)
  }

  method VerifyBuffer(input: string) returns (ok: bool)
    requires |input| >= 1
    ensures ok == WellFormed(input)
  {
    var size := |input|;
    if input[size - 1] != '\n' { return false; }
    if input[0] == ' ' { return false; }
    if size <= 1 { return false; }
    for i := 1 to size
      invariant forall k | 1 <= k < i :: !(input[k] == ' ' && input[k - 1] == ' ')
    {
      if input[i] == ' ' && input[i - 1] == ' ' { return false; }
    }
    return true;
  }

  predicate NoDoubleSpace(s: string) { forall i | 1 <= i < |s| :: !(s[i] == ' ' && s[i - 1] == ' ') }

  lemma {:induction false} AfterHasNoDoubleSpace(w: string, ws: seq<string>)
    requires IsWord(w) && AllWords(ws)
    ensures NoDoubleSpace(w + After(ws) + "\n")
    decreases |ws|
  {
    if ws == [] {
      assert w + After(ws) + "\n" == w + "\n";
    } else {
      AfterHasNoDoubleSpace(ws[0], ws[1..]);
      var t := ws[0] + After(ws[1..]) + "\n";
      var s := w + After(ws) + "\n";
      assert s == w + " " + t;
      forall i | 1 <= i < |s|
        ensures !(s[i] == ' ' && s[i - 1] == ' ')
      {
        if i > |w| + 1 { assert s[i] == t[i - |w| - 1] && s[i - 1] == t[i - |w| - 2]; }
      }
    }
  }

  /** Every reply made of words separated by single spaces and closed by a newline passes. */
  lemma SpacedIsWellFormed(ws: seq<string>)
    requires ws != [] && AllWords(ws)
    ensures WellFormed(Spaced(ws) + "\n")
  {
    AfterHasNoDoubleSpace(ws[0], ws[1..]);
  }

  // ---------- read_buffer_token ----------

  /** Where a token of at most `size` characters stops. */
  function TokenLen(s: string, size: nat): (n: nat)
    requires s != "" && s[|s| - 1] == '\n'
    ensures n < |s| && n <= size
    ensures forall k | 0 <= k < n :: s[k] != ' ' && s[k] != '\n'
    ensures s[n] == ' ' || s[n] == '\n' || n == size
  {
    if s[0] == ' ' || s[0] == '\n' || size == 0 then 0 else 1 + TokenLen(s[1..], size - 1)
  }

  /** What one call leaves in the token array `a` and returns: the position of the separator after the token,
      or -1 when the line ended. */
  ghost predicate TokenRead(buffer: string, start: nat, size: nat, a: seq<char>, i: int)
    requires start < |buffer| && buffer[|buffer| - 1] == '\n' && size < |a|
  {
    var n := TokenLen(buffer[start..], size);
    && a[..n] == buffer[start..start + n] && a[n] == '\0'
    && i == if n < size && buffer[start + n] == '\n' then -1 else start + n
  }

  method ReadBufferToken(buffer: string, token: array<char>, tokenSize: nat, startPos: nat) returns (i: int)
    requires 1 <= tokenSize <= token.Length
    requires startPos < |buffer| && buffer[|buffer| - 1] == '\n'
    modifies token
    ensures TokenRead(buffer, startPos, tokenSize - 1, token[..], i)
  {
    var size := tokenSize - 1;
    var j := 0;
    i := startPos;
    ghost var n := TokenLen(buffer[startPos..], size);
    while buffer[i] != ' ' && j < size
      invariant 0 <= j <= n && i == startPos + j
      invariant forall k | 0 <= k < j :: token[k] == buffer[startPos + k]
      decreases n - j
    {
      if buffer[i] == '\n' {
        token[j] := '\0';
        return -1;
      }
      token[j] := buffer[i];
      i := i + 1;
      j := j + 1;
    }
    token[j] := '\0';
  }

  /** On a word followed by a space or by the final newline. */
  lemma TokenIsWord(s: string, w: string, rest: string, size: nat)
    requires IsWord(w) && |w| <= size && s == w + rest && rest != "" && s[|s| - 1] == '\n'
    requires rest[0] == ' ' || rest[0] == '\n'
    ensures TokenLen(s, size) == |w|
  {
    var n := TokenLen(s, size);
    assert s[|w|] == rest[0];
    assert forall k | 0 <= k < |w| :: s[k] == w[k] && s[k] != ' ' && s[k] != '\n';
  }

  /** A reply whose words `ws` are still to be read from position |done| on. */
  ghost predicate Unread(buffer: string, done: string, ws: seq<string>)
  {
    buffer == done + (Spaced(ws) + "\n") && AllWords(ws)
  }

  lemma LineEnds(buffer: string, done: string, ws: seq<string>)
    requires Unread(buffer, done, ws)
    ensures |done| < |buffer| && buffer[|buffer| - 1] == '\n'
  {
  }

  lemma Slices(buffer: string, done: string, w: string, rest: string)
    requires buffer == done + (w + rest) && rest != ""
    ensures |done| + |w| < |buffer| && buffer[|done|..] == w + rest
    ensures buffer[|done|..|done| + |w|] == w && buffer[|done| + |w|] == rest[0]
  {
  }

  lemma UnreadNext(buffer: string, done: string, ws: seq<string>)
    requires Unread(buffer, done, ws) && |ws| > 1
    ensures Unread(buffer, done + ws[0] + " ", ws[1..])
  {
    var tail := Spaced(ws[1..]) + "\n";
    assert Spaced(ws) + "\n" == ws[0] + (" " + tail);
    assert done + (ws[0] + (" " + tail)) == done + ws[0] + " " + tail;
  }

  lemma FirstWord(ws: seq<string>) returns (w: string, rest: string)
    requires ws != []
    ensures w == ws[0] && Spaced(ws) + "\n" == w + rest && rest != ""
    ensures rest[0] == if |ws| == 1 then '\n' else ' '
  {
    w, rest := ws[0], After(ws[1..]) + "\n";
  }

  /** A call at the start of the unread words reads the first of them. */
  lemma WordRead(buffer: string, done: string, ws: seq<string>, size: nat, a: seq<char>, i: int)
    requires Unread(buffer, done, ws) && ws != [] && size < |a|
    requires if |ws| == 1 then |ws[0]| < size else |ws[0]| <= size
    requires |done| < |buffer| && buffer[|buffer| - 1] == '\n' && TokenRead(buffer, |done|, size, a, i)
    ensures CString(a) == ws[0] && i == if |ws| == 1 then -1 else |done| + |ws[0]|
  {
    var w, rest := FirstWord(ws);
    Slices(buffer, done, w, rest);
    TokenIsWord(buffer[|done|..], w, rest, size);
    TokenText(a, |w|, w);
  }

  /** Read one word and take the C string out of the token array. */
  method NextWord(buffer: string, token: array<char>, startPos: nat, ghost done: string, ghost ws: seq<string>)
    returns (w: string, i: int, ghost done': string)
    requires token.Length >= 2 && Unread(buffer, done, ws) && ws != [] && startPos == |done|
    requires if |ws| == 1 then |ws[0]| < token.Length - 1 else |ws[0]| <= token.Length - 1
    modifies token
    ensures w == ws[0]
    ensures if |ws| == 1 then i == -1 else i >= 0 && i + 1 == |done'| && Unread(buffer, done', ws[1..])
  {
    LineEnds(buffer, done, ws);
    i := ReadBufferToken(buffer, token, token.Length, startPos);
    WordRead(buffer, done, ws, token.Length - 1, token[..], i);
    w := CString(token[..]);
    done' := done + ws[0] + " ";
    if |ws| > 1 { UnreadNext(buffer, done, ws); }
  }

  // ---------- list, myauctions, mybids ----------

  function Pairs(ids: seq<nat>, open: map<nat, bool>): seq<(string, string)>
    requires forall id | id in ids :: id in open
  {
    if ids == [] then [] else [(Pad3(ids[0]), OpenFlag(open[ids[0]]))] + Pairs(ids[1..], open)
  }

  lemma {:induction false} PairsAppend(a: seq<nat>, id: nat, open: map<nat, bool>)
    requires forall x | x in a + [id] :: x in open
    ensures (forall x | x in a :: x in a + [id]) && id in a + [id]
    ensures Pairs(a + [id], open) == Pairs(a, open) + [(Pad3(id), OpenFlag(open[id]))]
  {
    assert forall x | x in a :: x in a + [id];
    assert (a + [id])[|a|] == id;
    if a == [] {
      assert a + [id] == [id];
    } else {
      assert (a + [id])[1..] == a[1..] + [id];
      assert forall x | x in a[1..] + [id] :: x in a + [id];
      PairsAppend(a[1..], id, open);
    }
  }

  /** The loop of `listAllAuctions`, `myAuctions` and `myBids` on a reply that lists `ids`: it ends and
      prints exactly their numbers and flags in order. */
  method ReadList(buffer: string, ghost head: string, ghost ids: seq<nat>, ghost open: map<nat, bool>)
    returns (printed: seq<(string, string)>)
    requires ids != [] && forall id | id in ids :: id in open && id <= 999
    requires |head| == 7 && Unread(buffer, head, ListWords(ids, open))
    ensures printed == Pairs(ids, open)
  {
    var token := new char[4];
    printed := [];
    var i: int := 7;
    ghost var k, done := 0, head;
    while i > 0
      invariant 0 <= k <= |ids| && (i > 0 <==> k < |ids|)
      invariant i > 0 ==> i == |done| && Unread(buffer, done, ListWords(ids[k..], open))
      invariant forall id | id in ids[..k] :: id in open
      invariant printed == Pairs(ids[..k], open)
      decreases |ids| - k
    {
      ghost var ws, id := ListWords(ids[k..], open), ids[k];
      PairStep(ids, k, open);
      var a, b: string;
      a, i, done := NextWord(buffer, token, i, done, ws);
      i := i + 1;
      b, i, done := NextWord(buffer, token, i, done, ws[1..]);
      printed := printed + [(a, b)];
      i := i + 1;
      k := k + 1;
    }
    assert ids[..k] == ids;
  }

  lemma PairStep(ids: seq<nat>, k: nat, open: map<nat, bool>)
    requires k < |ids| && forall id | id in ids :: id in open && id <= 999
    ensures (forall id | id in ids[k..] :: id in open) && (forall id | id in ids[k + 1..] :: id in open)
    ensures (forall id | id in ids[..k] :: id in open) && (forall id | id in ids[..k + 1] :: id in open)
    ensures var ws, id := ListWords(ids[k..], open), ids[k];
            |ws| == 2 * (|ids| - k) && ws[0] == Pad3(id) && |ws[0]| == 3 && ws[1] == OpenFlag(open[id]) &&
            ws[1..][1..] == ListWords(ids[k + 1..], open)
    ensures Pairs(ids[..k + 1], open) == Pairs(ids[..k], open) + [(Pad3(ids[k]), OpenFlag(open[ids[k]]))]
  {
    assert ids[k..][0] == ids[k] && ids[k] in ids && ids[k..][1..] == ids[k + 1..];
    Pad3Digits(ids[k]);
    assert ids[..k] + [ids[k]] == ids[..k + 1];
    PairsAppend(ids[..k], ids[k], open);
    var ws := ListWords(ids[k..], open);
    assert ws == [Pad3(ids[k]), OpenFlag(open[ids[k]])] + ListWords(ids[k + 1..], open);
  }

  // ---------- show_record ----------

  /** What the client prints. */
  datatype Line =
    | HostUid(s: string) | AuctionName(s: string) | AssetFilename(s: string) | StartValue(s: string)
    | StartDate(date: string, clock: string) | TimeActive(s: string)
    | BidderUid(s: string) | BidValue(s: string) | BidDate(date: string, clock: string) | BidSecs(s: string)
    | EndDate(date: string, clock: string) | EndSecs(s: string)
    | ParseError

  /** The switch of `showRecord` on words instead of buffer positions: from `part` on, what is printed. */
  function Interpret(part: nat, ws: seq<string>): seq<Line>
    requires Shaped(part, ws)
    decreases |ws|
  {
    if ws == [] then []
    else match part
      case 0 => [HostUid(ws[0])] + Interpret(1, ws[1..])
      case 1 => [AuctionName(ws[0])] + Interpret(2, ws[1..])
      case 2 => [AssetFilename(ws[0])] + Interpret(3, ws[1..])
      case 3 => [StartValue(ws[0])] + Interpret(4, ws[1..])
      case 4 => [StartDate(ws[0], ws[1])] + Interpret(5, ws[2..])
      case 5 => [TimeActive(ws[0])] + Interpret(6, ws[1..])
      case 6 => Interpret(if ws[0] == "B" then 7 else 11, ws[1..])
      case 7 => [BidderUid(ws[0])] + Interpret(8, ws[1..])
      case 8 => [BidValue(ws[0])] + Interpret(9, ws[1..])
      case 9 => [BidDate(ws[0], ws[1])] + Interpret(10, ws[2..])
      case 10 => [BidSecs(ws[0])] + Interpret(6, ws[1..])
      case 11 => [EndDate(ws[0], ws[1])] + Interpret(12, ws[2..])
      case _ => [EndSecs(ws[0])]
  }

  /** Words the switch can read without running out inside a date or meeting an unknown tag. */
  predicate Shaped(part: nat, ws: seq<string>)
    decreases |ws|
  {
    if ws == [] then part <= 12
    else match part
      case 0 => Shaped(1, ws[1..])
      case 1 => Shaped(2, ws[1..])
      case 2 => Shaped(3, ws[1..])
      case 3 => Shaped(4, ws[1..])
      case 4 => |ws| >= 2 && Shaped(5, ws[2..])
      case 5 => Shaped(6, ws[1..])
      case 6 => (ws[0] == "B" && Shaped(7, ws[1..])) || (ws[0] == "E" && Shaped(11, ws[1..]))
      case 7 => Shaped(8, ws[1..])
      case 8 => Shaped(9, ws[1..])
      case 9 => |ws| >= 2 && Shaped(10, ws[2..])
      case 10 => Shaped(6, ws[1..])
      case 11 => |ws| >= 2 && Shaped(12, ws[2..])
      case 12 => |ws| == 1
      case _ => false
  }

  /** Every word fits the client's 25-character token arrays with room to see what follows. */
  predicate FitTokens(ws: seq<string>)
  {
    AllWords(ws) && (forall i | 0 <= i < |ws| :: |ws[i]| <= 24) && (ws != [] ==> |ws[|ws| - 1]| < 24)
  }

  /** The parts that read a date and a clock time. */
  predicate TwoWords(part: nat) { part == 4 || part == 9 || part == 11 }

  function NextPart(part: nat, w: string): nat
  {
    if part == 6 then (if w == "B" then 7 else 11) else if part == 10 then 6 else if part == 12 then 12 else part + 1
  }

  function DateLine(part: nat, date: string, clock: string): Line
  {
    if part == 4 then StartDate(date, clock) else if part == 9 then BidDate(date, clock) else EndDate(date, clock)
  }

  function WordLine(part: nat, w: string): Line
  {
    match part
    case 0 => HostUid(w)
    case 1 => AuctionName(w)
    case 2 => AssetFilename(w)
    case 3 => StartValue(w)
    case 5 => TimeActive(w)
    case 7 => BidderUid(w)
    case 8 => BidValue(w)
    case 10 => BidSecs(w)
    case 12 => EndSecs(w)
    case _ => ParseError
  }

  /** One round of the switch, on words. */
  lemma InterpretStep(part: nat, ws: seq<string>)
    requires Shaped(part, ws) && ws != []
    ensures part <= 12
    ensures TwoWords(part) ==>
              |ws| >= 2 && Shaped(NextPart(part, ws[0]), ws[2..]) &&
              Interpret(part, ws) == [DateLine(part, ws[0], ws[1])] + Interpret(NextPart(part, ws[0]), ws[2..])
    ensures part == 6 ==>
              (ws[0] == "B" || ws[0] == "E") && Shaped(NextPart(part, ws[0]), ws[1..]) &&
              Interpret(part, ws) == Interpret(NextPart(part, ws[0]), ws[1..])
    ensures part == 12 ==> |ws| == 1
    ensures !TwoWords(part) && part != 6 ==>
              Shaped(NextPart(part, ws[0]), ws[1..]) &&
              Interpret(part, ws) == [WordLine(part, ws[0])] + Interpret(NextPart(part, ws[0]), ws[1..])
  {
  }

  lemma FitTail(ws: seq<string>)
    requires FitTokens(ws) && ws != []
    ensures FitTokens(ws[1..])
    ensures if |ws| == 1 then |ws[0]| < 24 else |ws[0]| <= 24
  {
  }

  lemma Reassociate(a: seq<Line>, l: Line, b: seq<Line>)
    ensures a + ([l] + b) == a + [l] + b
  {
  }

  /** `showRecord` on a reply holding the words `ws`: the loop ends, and what it prints is what the
      word-level reading of the whole reply gives. */
  method ShowRecord(buffer: string, ghost head: string, ghost ws: seq<string>) returns (printed: seq<Line>)
    requires ws != [] && FitTokens(ws) && Shaped(0, ws)
    requires |head| == 7 && Unread(buffer, head, ws)
    ensures printed == Interpret(0, ws)
  {
    var token, token2 := new char[25], new char[25];
    var part := 0;
    printed := [];
    var i: int := 7;
    ghost var left, done := ws, head;
    while i > 0
      invariant fresh(token) && fresh(token2) && token.Length == token2.Length == 25
      invariant Shaped(part, left) && FitTokens(left)
      invariant printed + Interpret(part, left) == Interpret(0, ws)
      invariant if i > 0 then left != [] && i == |done| && Unread(buffer, done, left) else left == []
      decreases |left|
    {
      var w, w2: string;
      var line: Line;
      InterpretStep(part, left);
      FitTail(left);
      w, i, done := NextWord(buffer, token, i, done, left);
      if TwoWords(part) {
        FitTail(left[1..]);
        i := i + 1;
        w2, i, done := NextWord(buffer, token2, i, done, left[1..]);
        assert left[1..][1..] == left[2..];
        left := left[2..];
        line := DateLine(part, w, w2);
      } else {
        left := left[1..];
        line := WordLine(part, w);
        if part == 12 || (part == 6 && (|w| != 1 || (w[0] != 'B' && w[0] != 'E'))) { i := -1; }
      }
      if part != 6 {
        Reassociate(printed, line, Interpret(NextPart(part, w), left));
        printed := printed + [line];
      }
      part := if part == 6 && w[0] == 'E' then 11 else if part == 6 then 7 else if part == 10 then 6
              else if part == 12 then 12 else part + 1;
      i := i + 1;
    }
  }

  // ---------- close ----------

  /** What `closeAuction` tells the user. There is no message for a wrong password. */
  datatype CloseMessage = Closed | NotLoggedIn | NoSuchAuction | NotOwner | AlreadyEnded | WrongPassword | ServerError

  /** `strncmp(buffer, prefix, strlen(prefix)) == 0`. */
  predicate StartsWith(buffer: string, prefix: string) { |buffer| >= |prefix| && buffer[..|prefix|] == prefix }

  /** Six characters of "RCL OAU" are compared. */
  function ReportClose(buffer: string): CloseMessage
  {
    if StartsWith(buffer, "RCL OK") then Closed
    else if StartsWith(buffer, "RCL NLG") then NotLoggedIn
    else if StartsWith(buffer, "RCL OA") then NoSuchAuction
    else if StartsWith(buffer, "RCL EOW") then NotOwner
    else if StartsWith(buffer, "RCL END") then AlreadyEnded
    else ServerError
  }

  /** The replies to CLS and what each means. */
  predicate IsCloseReply(p: Reply) { p.Ok? || p.Nlg? || p.Nok? || p.Eau? || p.Eow? || p.Ended? }

  function CloseMeaning(p: Reply): CloseMessage
    requires IsCloseReply(p)
  {
    match p
    case Ok => Closed
    case Nlg => NotLoggedIn
    case Nok => WrongPassword
    case Eau => NoSuchAuction
    case Eow => NotOwner
    case Ended => AlreadyEnded
  }

  /** The client reports the outcome of a close exactly when the server's reply is neither EAU, which it
      spells differently, nor NOK, which it does not know; those two it reports as a server error. */
  lemma CloseReported(p: Reply)
    requires IsCloseReply(p)
    ensures WellFormed(StatusLine("RCL", Status(p)))
    ensures ReportClose(StatusLine("RCL", Status(p))) == CloseMeaning(p) <==> !p.Eau? && !p.Nok?
    ensures p.Eau? || p.Nok? ==> ReportClose(StatusLine("RCL", Status(p))) == ServerError
  {
    var code := Status(p);
    var line := StatusLine("RCL", code);
    CodeLine(code);
    assert line == "RCL " + code + "\n";
    assert |line| == 5 + |code| && line[4] == code[0] && line[5] == code[1];
    if p.Ok? { assert line[..6] == "RCL OK"; }
    if p.Nlg? { assert line[..7] == "RCL NLG"; }
    if p.Eow? { assert line[..7] == "RCL EOW"; }
    if p.Ended? { assert line[..7] == "RCL END"; }
  }

  lemma CodeLine(code: string)
    requires IsWord(code)
    ensures WellFormed(StatusLine("RCL", code))
  {
    SpacedIsWellFormed(["RCL", code]);
    assert ["RCL", code][1..] == [code] && [code][1..] == [];
    assert After([code]) == " " + code;
    assert Spaced(["RCL", code]) + "\n" == StatusLine("RCL", code);
  }
}
