/** The text of START, bid and END files: one `fprintf` writes each, several `fscanf` calls with
    different formats read them. */
module FileText {
  import opened Text
  import opened Domain

  // ---------- Dates ----------

  /** "%Y-%m-%d %H:%M:%S": two words, a date and a clock time. */
  datatype Stamp = Stamp(date: string, clock: string)

  predicate GoodStamp(p: Stamp) { |p.date| == 10 && IsWord(p.date) && |p.clock| == 8 && IsWord(p.clock) }

  const EPOCH: Stamp := Stamp("1970-01-01", "00:00:00")

  lemma EpochIsGood()
    ensures GoodStamp(EPOCH)
  {
  }

  /** `localtime` followed by `strftime`, whatever the time zone. */
  type Calendar = c: nat -> Stamp | forall t: nat :: GoodStamp(c(t)) ghost witness (EpochIsGood(); (t: nat) => EPOCH)

  // ---------- fscanf ----------

  /** `%*s`, `%s`, and `%d` or `%ld`. */
  datatype Conversion = Skip | Word | Number

  datatype Field = Str(s: string) | Int(i: int)

  function Converted(w: string, c: Conversion): seq<Field>
  {
    match c
    case Skip => []
    case Word => [Str(w)]
    case Number => [Int(IntOf(w))]
  }

  function Scan(words: seq<string>, format: seq<Conversion>, k: nat): seq<Field>
    decreases |format| - k
  {
    if k >= |format| || k >= |words| then [] else Converted(words[k], format[k]) + Scan(words, format, k + 1)
  }

  /** The values `fscanf` assigns. */
  function Fscanf(text: string, format: seq<Conversion>): seq<Field> { Scan(Words(text), format, 0) }

  // ---------- START_aid.txt ----------

  function StartWords(st: Start, cal: Calendar): seq<string>
  {
    [st.owner, st.name, st.fname, Dec(st.startValue), Dec(st.timeActive),
     cal(st.startTime).date, cal(st.startTime).clock, Dec(st.startTime)]
  }

  /** `fprintf` in `create_auction`. */
  function StartText(st: Start, cal: Calendar): string { Spaced(StartWords(st, cal)) }

  /** The four formats START is read with. */
  const ONGOING_FORMAT: seq<Conversion> := [Skip, Skip, Skip, Skip, Number, Skip, Skip, Number]
  const BID_FORMAT: seq<Conversion> := [Skip, Skip, Skip, Number, Skip, Skip, Skip, Number]
  const CLOSE_FORMAT: seq<Conversion> := [Skip, Skip, Skip, Skip, Skip, Skip, Skip, Number]
  const INFO_FORMAT: seq<Conversion> := [Word, Word, Word, Number, Number, Word, Word, Number]

  predicate WordFields(st: Start) { IsWord(st.owner) && IsWord(st.name) && IsWord(st.fname) }

  lemma IntOfDec(n: nat)
    ensures IntOf(Dec(n)) == n
  {
    IntOfIntText(n);
  }

  /** Reading an eight-word file with any format gives the conversions of its words in order. */
  lemma ScanEight(w: seq<string>, f: seq<Conversion>)
    requires |w| == 8 && |f| == 8
    ensures Scan(w, f, 0) ==
            Converted(w[0], f[0]) + (Converted(w[1], f[1]) + (Converted(w[2], f[2]) + (Converted(w[3], f[3]) +
            (Converted(w[4], f[4]) + (Converted(w[5], f[5]) + (Converted(w[6], f[6]) + Converted(w[7], f[7])))))))
  {
    assert Scan(w, f, 8) == [];
    assert Scan(w, f, 7) == Converted(w[7], f[7]);
    assert Scan(w, f, 6) == Converted(w[6], f[6]) + Scan(w, f, 7);
    assert Scan(w, f, 5) == Converted(w[5], f[5]) + Scan(w, f, 6);
    assert Scan(w, f, 4) == Converted(w[4], f[4]) + Scan(w, f, 5);
    assert Scan(w, f, 3) == Converted(w[3], f[3]) + Scan(w, f, 4);
    assert Scan(w, f, 2) == Converted(w[2], f[2]) + Scan(w, f, 3);
    assert Scan(w, f, 1) == Converted(w[1], f[1]) + Scan(w, f, 2);
  }

  lemma StartWordsRead(st: Start, cal: Calendar)
    requires WordFields(st)
    ensures Words(StartText(st, cal)) == StartWords(st, cal)
  {
    var ws := StartWords(st, cal);
    DigitsAreWord(Dec(st.startValue));
    DigitsAreWord(Dec(st.timeActive));
    DigitsAreWord(Dec(st.startTime));
    assert GoodStamp(cal(st.startTime));
    assert AllWords(ws);
    WordsOfSpaced(ws);
  }

  lemma ReadByOngoing(st: Start, cal: Calendar)
    requires WordFields(st)
    ensures Fscanf(StartText(st, cal), ONGOING_FORMAT) == [Int(st.timeActive), Int(st.startTime)]
  {
    StartWordsRead(st, cal);
    IntOfDec(st.timeActive);
    IntOfDec(st.startTime);
    ScanEight(StartWords(st, cal), ONGOING_FORMAT);
  }

  lemma ReadByBid(st: Start, cal: Calendar)
    requires WordFields(st)
    ensures Fscanf(StartText(st, cal), BID_FORMAT) == [Int(st.startValue), Int(st.startTime)]
  {
    StartWordsRead(st, cal);
    IntOfDec(st.startValue);
    IntOfDec(st.startTime);
    ScanEight(StartWords(st, cal), BID_FORMAT);
  }

  lemma ReadByClose(st: Start, cal: Calendar)
    requires WordFields(st)
    ensures Fscanf(StartText(st, cal), CLOSE_FORMAT) == [Int(st.startTime)]
  {
    StartWordsRead(st, cal);
    IntOfDec(st.startTime);
    ScanEight(StartWords(st, cal), CLOSE_FORMAT);
  }

  lemma ReadByInfo(st: Start, cal: Calendar)
    requires WordFields(st)
    ensures Fscanf(StartText(st, cal), INFO_FORMAT) ==
            [Str(st.owner), Str(st.name), Str(st.fname), Int(st.startValue), Int(st.timeActive),
             Str(cal(st.startTime).date), Str(cal(st.startTime).clock), Int(st.startTime)]
  {
    StartWordsRead(st, cal);
    IntOfDec(st.startValue);
    IntOfDec(st.timeActive);
    IntOfDec(st.startTime);
    ScanEight(StartWords(st, cal), INFO_FORMAT);
  }

  /** Main result: each of the four readers gets exactly the fields the one writer stored. */
  lemma StartRoundTrip(st: Start, cal: Calendar)
    requires WordFields(st)
    ensures Fscanf(StartText(st, cal), ONGOING_FORMAT) == [Int(st.timeActive), Int(st.startTime)]
    ensures Fscanf(StartText(st, cal), BID_FORMAT) == [Int(st.startValue), Int(st.startTime)]
    ensures Fscanf(StartText(st, cal), CLOSE_FORMAT) == [Int(st.startTime)]
    ensures Fscanf(StartText(st, cal), INFO_FORMAT) ==
            [Str(st.owner), Str(st.name), Str(st.fname), Int(st.startValue), Int(st.timeActive),
             Str(cal(st.startTime).date), Str(cal(st.startTime).clock), Int(st.startTime)]
  {
    ReadByOngoing(st, cal);
    ReadByBid(st, cal);
    ReadByClose(st, cal);
    ReadByInfo(st, cal);
  }

  // ---------- bids/value.txt ----------

  function BidWords(value: nat, b: Bid, cal: Calendar): seq<string>
  {
    [b.bidder, Dec(value), cal(b.time).date, cal(b.time).clock, IntText(b.secs)]
  }

  function BidText(value: nat, b: Bid, cal: Calendar): string { Spaced(BidWords(value, b, cal)) }

  const BID_INFO_FORMAT: seq<Conversion> := [Word, Number, Word, Word, Number]

  lemma BidRoundTrip(value: nat, b: Bid, cal: Calendar)
    requires IsWord(b.bidder)
    ensures Fscanf(BidText(value, b, cal), BID_INFO_FORMAT) ==
            [Str(b.bidder), Int(value), Str(cal(b.time).date), Str(cal(b.time).clock), Int(b.secs)]
  {
    var w, f := BidWords(value, b, cal), BID_INFO_FORMAT;
    DigitsAreWord(Dec(value));
    IntTextIsWord(b.secs);
    assert GoodStamp(cal(b.time));
    assert AllWords(w);
    WordsOfSpaced(w);
    IntOfDec(value);
    IntOfIntText(b.secs);
    assert Scan(w, f, 5) == [];
    assert Scan(w, f, 4) == Converted(w[4], f[4]);
    assert Scan(w, f, 3) == Converted(w[3], f[3]) + Scan(w, f, 4);
    assert Scan(w, f, 2) == Converted(w[2], f[2]) + Scan(w, f, 3);
    assert Scan(w, f, 1) == Converted(w[1], f[1]) + Scan(w, f, 2);
  }

  // ---------- END_aid.txt ----------

  function EndWords(e: End, cal: Calendar): seq<string>
  {
    [cal(e.time).date, cal(e.time).clock, IntText(e.secs)]
  }

  function EndText(e: End, cal: Calendar): string { Spaced(EndWords(e, cal)) }

  const END_FORMAT: seq<Conversion> := [Word, Word, Number]

  lemma EndRoundTrip(e: End, cal: Calendar)
    ensures Fscanf(EndText(e, cal), END_FORMAT) == [Str(cal(e.time).date), Str(cal(e.time).clock), Int(e.secs)]
  {
    var w, f := EndWords(e, cal), END_FORMAT;
    IntTextIsWord(e.secs);
    assert GoodStamp(cal(e.time));
    assert AllWords(w);
    WordsOfSpaced(w);
    IntOfIntText(e.secs);
    assert Scan(w, f, 3) == [];
    assert Scan(w, f, 2) == Converted(w[2], f[2]);
    assert Scan(w, f, 1) == Converted(w[1], f[1]) + Scan(w, f, 2);
  }

  /** pass.txt is read back with one `%s`. */
  lemma PassRoundTrip(pass: string)
    requires GoodPass(pass)
    ensures Fscanf(pass, [Word]) == [Str(pass)]
  {
    assert AllWords([pass]);
    WordsOfSpaced([pass]);
    assert Spaced([pass]) == pass;
    assert Scan([pass], [Word], 1) == [];
  }

  lemma GoodFieldsAreWords(s: string)
    requires GoodUid(s) || GoodName(s) || GoodFname(s) || GoodPass(s)
    ensures IsWord(s)
  {
  }
}
