/** Characters, decimal numbers and space-separated words: what `isdigit`, `isalnum`, `%d`,
    `%03d`, `atoi`, `alphasort` and the `%s` conversions of `fscanf` and `sprintf` do. */
module Text {

  // ---------- Characters ----------

  predicate IsDigit(c: char) { '0' <= c <= '9' }

  predicate IsAlpha(c: char) { 'a' <= c <= 'z' || 'A' <= c <= 'Z' }

  predicate IsAlnum(c: char) { IsDigit(c) || IsAlpha(c) }

  predicate AllDigits(s: string) { forall i | 0 <= i < |s| :: IsDigit(s[i]) }

  predicate AllAlnum(s: string) { forall i | 0 <= i < |s| :: IsAlnum(s[i]) }

  function Digit(d: nat): char
    requires d < 10
  {
    ('0' as int + d) as char
  }

  function DigitValue(c: char): nat
    requires IsDigit(c)
  {
    c as int - '0' as int
  }

  // ---------- Printing numbers ----------

  /** `%d` of a natural number. */
  function Dec(n: nat): (s: string)
    ensures |s| >= 1 && AllDigits(s)
  {
    if n < 10 then [Digit(n)] else Dec(n / 10) + [Digit(n % 10)]
  }

  function Zeros(k: nat): (s: string)
    ensures |s| == k && AllDigits(s)
  {
    seq(k, _ => '0')
  }

  /** `%0wd` of a natural number: never cut, padded with zeros to `width`. */
  function Pad(n: nat, width: nat): (s: string)
    ensures |s| >= 1 && |s| >= width && AllDigits(s)
  {
    if |Dec(n)| >= width then Dec(n) else Zeros(width - |Dec(n)|) + Dec(n)
  }

  function Pad3(n: nat): string { Pad(n, 3) }

  /** `%ld` of a signed number. */
  function IntText(i: int): string { if i < 0 then "-" + Dec(-i) else Dec(i) }

  // ---------- Reading numbers ----------

  function Num(s: string): nat
    requires AllDigits(s)
  {
    if s == "" then 0 else 10 * Num(s[..|s| - 1]) + DigitValue(s[|s| - 1])
  }

  /** How many digits `s` starts with. */
  function DigitSpan(s: string): (k: nat)
    ensures k <= |s| && AllDigits(s[..k])
    ensures k < |s| ==> !IsDigit(s[k])
  {
    if s == "" || !IsDigit(s[0]) then 0 else 1 + DigitSpan(s[1..])
  }

  /** `atoi` on text with no leading white space: the value of the leading digits. */
  function Atoi(s: string): nat { Num(s[..DigitSpan(s)]) }

  /** `%ld` reading one word: an optional minus sign, then digits. */
  function IntOf(s: string): int { if s != "" && s[0] == '-' then 0 - Atoi(s[1..]) else Atoi(s) }

  lemma {:induction false} DigitSpanOf(d: string, rest: string)
    requires AllDigits(d) && (rest == "" || !IsDigit(rest[0]))
    ensures DigitSpan(d + rest) == |d|
    ensures Atoi(d + rest) == Num(d)
  {
    if d == "" {
      assert d + rest == rest;
    } else {
      assert (d + rest)[1..] == d[1..] + rest;
      DigitSpanOf(d[1..], rest);
    }
    assert (d + rest)[..|d|] == d;
  }

  lemma {:induction false} NumDec(n: nat)
    ensures Num(Dec(n)) == n
  {
    if n >= 10 {
      NumDec(n / 10);
      assert Dec(n)[..|Dec(n)| - 1] == Dec(n / 10);
    } else {
      assert Dec(n)[..0] == "";
    }
  }

  lemma {:induction false} NumZeros(k: nat, s: string)
    requires AllDigits(s)
    ensures Num(Zeros(k) + s) == Num(s)
    decreases k + |s|
  {
    var t := Zeros(k) + s;
    if s != "" {
      assert t[..|t| - 1] == Zeros(k) + s[..|s| - 1];
      NumZeros(k, s[..|s| - 1]);
    } else if k > 0 {
      assert t[..|t| - 1] == Zeros(k - 1) + s;
      NumZeros(k - 1, s);
    }
  }

  /** `atoi` inverts `%0wd` whatever non-digit text follows, such as ".txt". */
  lemma AtoiPad(n: nat, width: nat, rest: string)
    requires rest == "" || !IsDigit(rest[0])
    ensures Atoi(Pad(n, width) + rest) == n
  {
    DigitSpanOf(Pad(n, width), rest);
    NumDec(n);
    if |Dec(n)| < width { NumZeros(width - |Dec(n)|, Dec(n)); }
  }

  lemma AtoiDec(n: nat, rest: string)
    requires rest == "" || !IsDigit(rest[0])
    ensures Atoi(Dec(n) + rest) == n
  {
    AtoiPad(n, 0, rest);
  }

  lemma IntOfIntText(i: int)
    ensures IntOf(IntText(i)) == i
  {
    if i < 0 {
      AtoiDec(-i, "");
      assert IntText(i)[1..] == Dec(-i);
      assert Dec(-i) + "" == Dec(-i);
    } else {
      AtoiDec(i, "");
      assert Dec(i) + "" == Dec(i);
      assert IsDigit(IntText(i)[0]);
    }
  }

  // ---------- How long a printed number is ----------

  function Pow10(k: nat): (p: nat)
    ensures p >= 1
  {
    if k == 0 then 1 else 10 * Pow10(k - 1)
  }

  lemma {:induction false} DecLength(n: nat, k: nat)
    requires k >= 1
    ensures |Dec(n)| <= k <==> n < Pow10(k)
  {
    if n >= 10 && k > 1 {
      DecLength(n / 10, k - 1);
    }
  }

  /** A number below 10^w is padded to exactly w characters. */
  lemma PadLength(n: nat, width: nat)
    requires width >= 1
    ensures |Pad(n, width)| == width <==> n < Pow10(width)
  {
    DecLength(n, width);
  }

  lemma {:induction false} NumBound(s: string)
    requires AllDigits(s)
    ensures Num(s) < Pow10(|s|)
  {
    if s != "" { NumBound(s[..|s| - 1]); }
  }

  /** Padding what was read from text of the padded width gives the text back. */
  lemma {:induction false} DecNum(s: string)
    requires AllDigits(s) && |s| >= 1
    ensures s == Pad(Num(s), |s|)
  {
    var n := |s| - 1;
    var d := DigitValue(s[n]);
    if n == 0 {
      assert s[..0] == "";
      assert s == Dec(d);
    } else {
      DecNum(s[..n]);
      var m := Num(s[..n]);
      NumBound(s[..n]);
      PadStep(m, d, n);
      assert s == s[..n] + [Digit(d)];
    }
  }

  lemma PadStep(m: nat, d: nat, n: nat)
    requires d < 10 && n >= 1 && |Dec(m)| <= n
    ensures Pad(10 * m + d, n + 1) == Pad(m, n) + [Digit(d)]
  {
  }

  // ---------- The order of `alphasort` ----------

  /** `strcmp(a, b) < 0`. */
  predicate LexLess(a: string, b: string)
  {
    b != "" && (a == "" || a[0] < b[0] || (a[0] == b[0] && LexLess(a[1..], b[1..])))
  }

  lemma {:induction false} LexTrichotomy(a: string, b: string)
    ensures LexLess(a, b) || LexLess(b, a) || a == b
    ensures !(LexLess(a, b) && LexLess(b, a))
    ensures !LexLess(a, a)
  {
    if a != "" { LexTrichotomy(a[1..], a[1..]); }
    if a != "" && b != "" { LexTrichotomy(a[1..], b[1..]); }
  }

  lemma {:induction false} LexTransitive(a: string, b: string, c: string)
    requires LexLess(a, b) && LexLess(b, c)
    ensures LexLess(a, c)
  {
    if a != "" && a[0] == b[0] == c[0] { LexTransitive(a[1..], b[1..], c[1..]); }
  }

  lemma Pad3Digits(n: nat)
    requires n <= 999
    ensures Pad3(n) == [Digit(n / 100), Digit(n / 10 % 10), Digit(n % 10)]
  {
    if n < 10 {
      assert Dec(n) == [Digit(n)];
    } else if n < 100 {
      assert Dec(n) == [Digit(n / 10), Digit(n % 10)];
    } else {
      assert Dec(n / 10) == [Digit(n / 100), Digit(n / 10 % 10)];
    }
  }

  lemma LexStep(c: char, a: string, d: char, b: string)
    ensures LexLess([c] + a, [d] + b) <==> c < d || (c == d && LexLess(a, b))
  {
  }

  /** Three-digit names, with any common suffix, sort by name exactly as they sort by number. */
  lemma Pad3Order(m: nat, n: nat, suffix: string)
    requires m <= 999 && n <= 999
    ensures LexLess(Pad3(m) + suffix, Pad3(n) + suffix) <==> m < n
  {
    Pad3Digits(m);
    Pad3Digits(n);
    var a1, b1 := [Digit(m % 10)] + suffix, [Digit(n % 10)] + suffix;
    var a2, b2 := [Digit(m / 10 % 10)] + a1, [Digit(n / 10 % 10)] + b1;
    assert Pad3(m) + suffix == [Digit(m / 100)] + a2;
    assert Pad3(n) + suffix == [Digit(n / 100)] + b2;
    LexStep(Digit(m / 100), a2, Digit(n / 100), b2);
    LexStep(Digit(m / 10 % 10), a1, Digit(n / 10 % 10), b1);
    LexStep(Digit(m % 10), suffix, Digit(n % 10), suffix);
    LexTrichotomy(suffix, suffix);
    DigitOrder(m, n);
  }

  lemma DigitOrder(m: nat, n: nat)
    requires m <= 999 && n <= 999
    ensures m < n <==>
            m / 100 < n / 100 ||
            (m / 100 == n / 100 && (m / 10 % 10 < n / 10 % 10 ||
                                    (m / 10 % 10 == n / 10 % 10 && m % 10 < n % 10)))
  {
  }

  ghost predicate Increasing(s: seq<nat>) { forall i, j | 0 <= i < j < |s| :: s[i] < s[j] }

  // ---------- C strings ----------

  /** The C string in a character array. */
  function CString(a: seq<char>): (s: string)
    ensures |s| <= |a|
  {
    if a == [] || a[0] == '\0' then "" else [a[0]] + CString(a[1..])
  }

  lemma {:induction false} CStringOf(w: string, rest: seq<char>)
    requires forall i | 0 <= i < |w| :: w[i] != '\0'
    ensures CString(w + ['\0'] + rest) == w
  {
    var a := w + ['\0'] + rest;
    if w != "" {
      CStringOf(w[1..], rest);
      assert a[1..] == w[1..] + ['\0'] + rest;
    }
  }

  lemma {:induction false} CStringStops(a: seq<char>, n: nat)
    requires n < |a| && a[n] == '\0'
    ensures CString(a) == CString(a[..n])
  {
    if n > 0 && a[0] != '\0' {
      CStringStops(a[1..], n - 1);
      assert a[1..][..n - 1] == a[..n][1..];
    }
  }

  lemma {:induction false} CStringOfWord(w: string)
    requires forall i | 0 <= i < |w| :: w[i] != '\0'
    ensures CString(w) == w
  {
    if w != "" { CStringOfWord(w[1..]); }
  }

  lemma TokenText(a: seq<char>, n: nat, w: string)
    requires n < |a| && a[..n] == w && a[n] == '\0' && IsWord(w)
    ensures CString(a) == w
  {
    assert a == w + ['\0'] + a[n + 1..];
    CStringOf(w, a[n + 1..]);
  }

  // ---------- Words ----------

  predicate IsBlank(c: char) { c == ' ' || c == '\n' }

  /** A word: what one `%s` prints or reads. */
  predicate IsWord(w: string) { w != "" && forall i | 0 <= i < |w| :: !IsBlank(w[i]) && w[i] != '\0' }

  predicate AllWords(ws: seq<string>) { forall i | 0 <= i < |ws| :: IsWord(ws[i]) }

  /** `" %s %s ..."`: every word with a space in front. */
  function After(ws: seq<string>): string
  {
    if ws == [] then "" else " " + ws[0] + After(ws[1..])
  }

  /** `"%s %s ..."`: the words with one space between neighbours. */
  function Spaced(ws: seq<string>): string
  {
    if ws == [] then "" else ws[0] + After(ws[1..])
  }

  lemma {:induction false} AfterAppend(a: seq<string>, b: seq<string>)
    ensures After(a + b) == After(a) + After(b)
  {
    if a == [] {
      assert a + b == b;
    } else {
      assert (a + b)[1..] == a[1..] + b;
      AfterAppend(a[1..], b);
    }
  }

  /** The length of the word `s` starts with. */
  function WordSpan(s: string): (k: nat)
    ensures k <= |s|
    ensures s != "" && !IsBlank(s[0]) ==> k >= 1
  {
    if s == "" || IsBlank(s[0]) then 0 else 1 + WordSpan(s[1..])
  }

  /** The words that successive `%s` conversions of `fscanf` find in a file. */
  function Words(s: string): seq<string>
    decreases |s|
  {
    if s == "" then []
    else if IsBlank(s[0]) then Words(s[1..])
    else [s[..WordSpan(s)]] + Words(s[WordSpan(s)..])
  }

  lemma {:induction false} WordSpanOf(w: string, rest: string)
    requires forall i | 0 <= i < |w| :: !IsBlank(w[i])
    requires rest == "" || IsBlank(rest[0])
    ensures WordSpan(w + rest) == |w|
  {
    if w == "" {
      assert w + rest == rest;
    } else {
      assert (w + rest)[1..] == w[1..] + rest;
      WordSpanOf(w[1..], rest);
    }
  }

  /** Reading words back: `fscanf` finds exactly the words `fprintf` wrote. */
  lemma {:induction false} WordsOfSpaced(ws: seq<string>)
    requires AllWords(ws)
    ensures Words(Spaced(ws)) == ws
  {
    if ws != [] {
      var w, rest := ws[0], ws[1..];
      WordsStep(w, After(rest));
      WordsOfSpaced(rest);
      WordsAfter(rest);
      assert ws == [w] + rest;
    }
  }

  lemma WordsStep(w: string, rest: string)
    requires IsWord(w) && (rest == "" || IsBlank(rest[0]))
    ensures Words(w + rest) == [w] + Words(rest)
  {
    WordSpanOf(w, rest);
    var s := w + rest;
    assert s[..|w|] == w && s[|w|..] == rest;
    assert s[0] == w[0];
  }

  lemma WordsAfter(ws: seq<string>)
    ensures Words(After(ws)) == Words(Spaced(ws))
  {
    if ws != [] {
      assert After(ws) == " " + Spaced(ws);
      assert After(ws)[1..] == Spaced(ws);
    }
  }

  lemma DigitsAreWord(s: string)
    requires s != "" && AllDigits(s)
    ensures IsWord(s)
  {
  }

  lemma IntTextIsWord(i: int)
    ensures IsWord(IntText(i))
  {
  }

  /** `"%s %s ... "`: every word with a space behind. */
  function Trailed(ws: seq<string>): string
  {
    if ws == [] then "" else ws[0] + (" " + Trailed(ws[1..]))
  }

  lemma {:induction false} TrailedAppend(a: seq<string>, w: string)
    ensures Trailed(a + [w]) == Trailed(a) + (w + " ")
  {
    if a == [] {
      assert a + [w] == [w] && [w][1..] == [];
      assert Trailed([w]) == w + " ";
    } else {
      assert (a + [w])[1..] == a[1..] + [w];
      TrailedAppend(a[1..], w);
      Rejoin(a[0], " ", Trailed(a[1..]), w + " ");
    }
  }

  lemma Rejoin(a: string, b: string, c: string, d: string)
    ensures a + (b + (c + d)) == a + (b + c) + d
  {
  }

  /** `strtok` at spaces takes such a text apart again. */
  lemma {:induction false} WordsOfTrailed(ws: seq<string>)
    requires AllWords(ws)
    ensures Words(Trailed(ws)) == ws
  {
    if ws != [] {
      var rest := " " + Trailed(ws[1..]);
      WordsStep(ws[0], rest);
      assert rest[1..] == Trailed(ws[1..]);
      WordsOfTrailed(ws[1..]);
      assert ws == [ws[0]] + ws[1..];
    }
  }
}
