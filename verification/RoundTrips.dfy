/** The client recovers exactly what the server printed: records and lists. */
module RoundTrips {
  import opened Text
  import opened Domain
  import opened LazyServer
  import opened Invariants
  import opened FileText
  import opened Wire
  import opened Client

  // ---------- Records ----------

  function BidLines(order: seq<nat>, bids: map<nat, Bid>, cal: Calendar): seq<Line>
    requires forall v | v in order :: v in bids
  {
    if order == [] then []
    else
      var v, b := order[0], bids[order[0]];
      [BidderUid(b.bidder), BidValue(Dec(v)), BidDate(cal(b.time).date, cal(b.time).clock), BidSecs(IntText(b.secs))]
      + BidLines(order[1..], bids, cal)
  }

  function EndLines(end: Option<End>, cal: Calendar): seq<Line>
  {
    if end.None? then []
    else [EndDate(cal(end.value.time).date, cal(end.value.time).clock), EndSecs(IntText(end.value.secs))]
  }

  function HeadLines(st: Start, cal: Calendar): seq<Line>
  {
    [HostUid(st.owner), AuctionName(st.name), AssetFilename(st.fname), StartValue(Dec(st.startValue)),
     StartDate(cal(st.startTime).date, cal(st.startTime).clock), TimeActive(Dec(st.timeActive))]
  }

  /** What the client should show of a record. */
  function RecordLines(st: Start, bids: map<nat, Bid>, order: seq<nat>, end: Option<End>, cal: Calendar): seq<Line>
    requires forall v | v in order :: v in bids
  {
    HeadLines(st, cal) + (BidLines(order, bids, cal) + EndLines(end, cal))
  }

  /** A 64-bit count of seconds. */
  predicate IsLong(i: int) { -0x8000_0000_0000_0000 <= i < 0x8000_0000_0000_0000 }

  lemma Pow10Values()
    ensures Pow10(5) == 100_000 && Pow10(6) == 1_000_000 && Pow10(19) == 10_000_000_000_000_000_000
  {
  }

  /** Such a count prints in at most 20 characters, a six-digit number in at most 6. */
  lemma PrintedLengths(i: int, n: nat)
    requires IsLong(i) && n <= 999999
    ensures |IntText(i)| <= 20 && IsWord(IntText(i))
    ensures |Dec(n)| <= 6 && IsWord(Dec(n))
  {
    Pow10Values();
    DecLength(if i < 0 then -i else i, 19);
    DecLength(n, 6);
    IntTextIsWord(i);
    DigitsAreWord(Dec(n));
  }

  /** What `showRecord` can be given: fields in their formats, counts that fit a long. */
  ghost predicate Showable(st: Start, bids: map<nat, Bid>, end: Option<End>)
  {
    && GoodStart(st)
    && (forall v: nat | v in bids :: GoodUid(bids[v].bidder) && v <= 999999 && IsLong(bids[v].secs))
    && (end.Some? ==> IsLong(end.value.secs))
  }

  predicate ShortWords(ws: seq<string>) { AllWords(ws) && forall i | 0 <= i < |ws| :: |ws[i]| <= 24 }

  lemma EndInterprets(end: Option<End>, cal: Calendar)
    requires end.Some? ==> IsLong(end.value.secs)
    ensures Shaped(6, EndingWords(end, cal)) && Interpret(6, EndingWords(end, cal)) == EndLines(end, cal)
    ensures ShortWords(EndingWords(end, cal))
    ensures end.Some? ==> |EndingWords(end, cal)| == 4 && |EndingWords(end, cal)[3]| <= 20
  {
    if end.Some? {
      var ws := EndingWords(end, cal);
      PrintedLengths(end.value.secs, 0);
      assert GoodStamp(cal(end.value.time));
      assert ws[1..] == [ws[1], ws[2], ws[3]];
      assert ws[1..][2..] == [ws[3]];
      assert Shaped(12, [ws[3]]);
      assert Interpret(12, [ws[3]]) == [EndSecs(ws[3])];
      assert Shaped(11, ws[1..]);
    }
  }

  lemma OneBidInterprets(v: nat, b: Bid, cal: Calendar, rest: seq<string>)
    requires Shaped(6, rest)
    ensures var ws := OneBidWords(v, b, cal) + rest;
            Shaped(6, ws) &&
            Interpret(6, ws) ==
            [BidderUid(b.bidder), BidValue(Dec(v)), BidDate(cal(b.time).date, cal(b.time).clock),
              BidSecs(IntText(b.secs))]
            + Interpret(6, rest)
  {
    var o := OneBidWords(v, b, cal);
    BidShape(o[1], o[2], o[3], o[4], o[5], rest);
    SixWords(o[0], o[1], o[2], o[3], o[4], o[5], rest);
    FourLines(BidderUid(o[1]), BidValue(o[2]), BidDate(o[3], o[4]), BidSecs(o[5]), Interpret(6, rest));
  }

  lemma BidShape(bidder: string, value: string, date: string, clock: string, secs: string, rest: seq<string>)
    requires Shaped(6, rest)
    ensures var ws := ["B"] + ([bidder] + ([value] + ([date, clock] + ([secs] + rest))));
            Shaped(6, ws) &&
            Interpret(6, ws) ==
            [BidderUid(bidder)] + ([BidValue(value)] + ([BidDate(date, clock)] + ([BidSecs(secs)] +
            Interpret(6, rest))))
  {
    var w5 := [secs] + rest;
    var w3 := [date, clock] + w5;
    var w2 := [value] + w3;
    OneWord(10, secs, rest);
    TwoWord(9, date, clock, w5);
    OneWord(8, value, w3);
    OneWord(7, bidder, w2);
    BidTag([bidder] + w2);
  }

  lemma SixWords(a: string, b: string, c: string, d: string, e: string, f: string, rest: seq<string>)
    ensures [a, b, c, d, e, f] + rest == [a] + ([b] + ([c] + ([d, e] + ([f] + rest))))
  {
  }

  lemma FourLines(a: Line, b: Line, c: Line, d: Line, rest: seq<Line>)
    ensures [a] + ([b] + ([c] + ([d] + rest))) == [a, b, c, d] + rest
  {
  }

  lemma OneWord(part: nat, w: string, rest: seq<string>)
    requires part <= 11 && !TwoWords(part) && part != 6 && Shaped(NextPart(part, w), rest)
    ensures Shaped(part, [w] + rest) && Interpret(part, [w] + rest) ==
        [WordLine(part, w)] + Interpret(NextPart(part, w), rest)
  {
  }

  lemma TwoWord(part: nat, date: string, clock: string, rest: seq<string>)
    requires TwoWords(part) && Shaped(part + 1, rest)
    ensures Shaped(part, [date, clock] + rest)
    ensures Interpret(part, [date, clock] + rest) == [DateLine(part, date, clock)] + Interpret(part + 1, rest)
  {
  }

  lemma BidTag(rest: seq<string>)
    requires Shaped(7, rest)
    ensures Shaped(6, ["B"] + rest) && Interpret(6, ["B"] + rest) == Interpret(7, rest)
  {
  }

  lemma {:induction false} BidsInterpret(order: seq<nat>, bids: map<nat, Bid>, cal: Calendar, rest: seq<string>)
    requires (forall v | v in order :: v in bids) && Shaped(6, rest)
    ensures Shaped(6, BidsWords(order, bids, cal) + rest)
    ensures Interpret(6, BidsWords(order, bids, cal) + rest) == BidLines(order, bids, cal) + Interpret(6, rest)
  {
    if order == [] {
      assert BidsWords(order, bids, cal) + rest == rest;
    } else {
      var v := order[0];
      var tail := BidsWords(order[1..], bids, cal) + rest;
      BidsInterpret(order[1..], bids, cal, rest);
      OneBidInterprets(v, bids[v], cal, tail);
      Append3(OneBidWords(v, bids[v], cal), BidsWords(order[1..], bids, cal), rest);
    }
  }

  lemma Append3(a: seq<string>, b: seq<string>, c: seq<string>)
    ensures a + b + c == a + (b + c)
  {
  }

  lemma HeadInterprets(st: Start, cal: Calendar, rest: seq<string>)
    requires Shaped(6, rest)
    ensures Shaped(0, HeadWords(st, cal) + rest)
    ensures Interpret(0, HeadWords(st, cal) + rest) == HeadLines(st, cal) + Interpret(6, rest)
  {
    var h := HeadWords(st, cal);
    HeadShape(h[0], h[1], h[2], h[3], h[4], h[5], h[6], rest);
    SevenWords(h[0], h[1], h[2], h[3], h[4], h[5], h[6], rest);
    SixLines(HostUid(h[0]), AuctionName(h[1]), AssetFilename(h[2]), StartValue(h[3]),
             StartDate(h[4], h[5]), TimeActive(h[6]), Interpret(6, rest));
  }

  lemma HeadShape(owner: string, name: string, fname: string, value: string, date: string, clock: string, time: string,
                  rest: seq<string>)
    requires Shaped(6, rest)
    ensures var ws := [owner] + ([name] + ([fname] + ([value] + ([date, clock] + ([time] + rest)))));
            Shaped(0, ws) &&
            Interpret(0, ws) ==
            [HostUid(owner)] + ([AuctionName(name)] + ([AssetFilename(fname)] + ([StartValue(value)] +
            ([StartDate(date, clock)] + ([TimeActive(time)] + Interpret(6, rest))))))
  {
    var w6 := [time] + rest;
    var w4 := [date, clock] + w6;
    var w3 := [value] + w4;
    var w2 := [fname] + w3;
    OneWord(5, time, rest);
    TwoWord(4, date, clock, w6);
    OneWord(3, value, w4);
    OneWord(2, fname, w3);
    OneWord(1, name, w2);
    OneWord(0, owner, [name] + w2);
  }

  lemma SevenWords(a: string, b: string, c: string, d: string, e: string, f: string, g: string, rest: seq<string>)
    ensures [a, b, c, d, e, f, g] + rest == [a] + ([b] + ([c] + ([d] + ([e, f] + ([g] + rest)))))
  {
  }

  lemma SixLines(a: Line, b: Line, c: Line, d: Line, e: Line, f: Line, rest: seq<Line>)
    ensures [a] + ([b] + ([c] + ([d] + ([e] + ([f] + rest))))) == [a, b, c, d, e, f] + rest
  {
  }

  lemma {:induction false} BidsFit(order: seq<nat>, bids: map<nat, Bid>, cal: Calendar)
    requires forall v | v in order :: v in bids && GoodUid(bids[v].bidder) && v <= 999999 && IsLong(bids[v].secs)
    ensures var ws := BidsWords(order, bids, cal);
            ShortWords(ws) && (ws != [] ==> |ws[|ws| - 1]| <= 20)
  {
    if order != [] {
      var v := order[0];
      assert v in order;
      BidsFit(order[1..], bids, cal);
      PrintedLengths(bids[v].secs, v);
      GoodFieldsAreWords(bids[v].bidder);
      assert GoodStamp(cal(bids[v].time));
      assert ShortWords(OneBidWords(v, bids[v], cal));
    }
  }

  lemma HeadFits(st: Start, cal: Calendar)
    requires GoodStart(st)
    ensures ShortWords(HeadWords(st, cal)) && |HeadWords(st, cal)[6]| <= 6
  {
    GoodFieldsAreWords(st.owner);
    GoodFieldsAreWords(st.name);
    GoodFieldsAreWords(st.fname);
    PrintedLengths(0, st.startValue);
    PrintedLengths(0, st.timeActive);
    assert GoodStamp(cal(st.startTime));
  }

  lemma FitConcat(a: seq<string>, b: seq<string>)
    requires ShortWords(a) && ShortWords(b)
    requires if b != [] then |b[|b| - 1]| < 24 else a != [] ==> |a[|a| - 1]| < 24
    ensures ShortWords(a + b) && FitTokens(a + b)
  {
  }

  /** Word by word, the client reads a record as the server meant it. */
  lemma RecordInterprets(st: Start, bids: map<nat, Bid>, order: seq<nat>, end: Option<End>, cal: Calendar)
    requires Showable(st, bids, end) && forall v | v in order :: v in bids
    ensures var ws := RecordWords(st, bids, order, end, cal);
            ws != [] && FitTokens(ws) && Shaped(0, ws) && Interpret(0, ws) == RecordLines(st, bids, order, end, cal)
  {
    var h, b, e := HeadWords(st, cal), BidsWords(order, bids, cal), EndingWords(end, cal);
    RecordFits(st, bids, order, end, cal);
    EndInterprets(end, cal);
    BidsInterpret(order, bids, cal, e);
    HeadInterprets(st, cal, b + e);
    assert h + b + e == h + (b + e);
  }

  lemma RecordFits(st: Start, bids: map<nat, Bid>, order: seq<nat>, end: Option<End>, cal: Calendar)
    requires Showable(st, bids, end) && forall v | v in order :: v in bids
    ensures FitTokens(RecordWords(st, bids, order, end, cal))
  {
    var h, b, e := HeadWords(st, cal), BidsWords(order, bids, cal), EndingWords(end, cal);
    EndInterprets(end, cal);
    HeadFits(st, cal);
    BidsFit(order, bids, cal);
    FitConcat(h, b);
    FitConcat(h + b, e);
  }

  lemma Regroup(a: string, b: string, c: string, d: string, e: string)
    ensures a + b + (c + d) + e == (a + b + c) + (d + e)
  {
  }

  lemma SpacedTwo(a: string, b: string, ws: seq<string>)
    ensures Spaced([a, b] + ws) == a + (" " + b) + After(ws)
  {
  }

  /** The part of a reply the loops skip: the verb, OK and a space. */
  function Head(verb: string): string { verb + " OK" + " " }

  lemma ReplyIsWellFormed(verb: string, ws: seq<string>)
    requires IsWord(verb) && AllWords(ws)
    ensures WellFormed(OkLine(verb, After(ws)))
  {
    SpacedTwo(verb, "OK", ws);
    assert " " + "OK" == " OK";
    SpacedIsWellFormed([verb, "OK"] + ws);
  }

  lemma ReplyIsUnread(verb: string, ws: seq<string>)
    requires |verb| == 3 && AllWords(ws) && ws != []
    ensures |Head(verb)| == 7 && Unread(OkLine(verb, After(ws)), Head(verb), ws)
  {
    assert After(ws) == " " + Spaced(ws);
    Regroup(verb, " OK", " ", Spaced(ws), "\n");
  }

  lemma OkLineReads(verb: string, ws: seq<string>)
    requires |verb| == 3 && IsWord(verb) && AllWords(ws) && ws != []
    ensures WellFormed(OkLine(verb, After(ws))) && |Head(verb)| == 7 && Unread(OkLine(verb, After(ws)), Head(verb), ws)
  {
    ReplyIsWellFormed(verb, ws);
    ReplyIsUnread(verb, ws);
  }

  lemma RecordLineIs(id: nat, st: Start, bids: map<nat, Bid>, order: seq<nat>, end: Option<End>, cal: Calendar,
                     ws: seq<string>)
    requires (forall v | v in order :: v in bids) && ws == RecordWords(st, bids, order, end, cal)
    ensures Printed(Request.ShowRecord(id), Record(st, bids, end), order, cal) == OkLine("RRC", After(ws))
  {
  }

  /** Main result: whatever order the server read the bid files in, its record reply passes
      `verify_buffer`, and the loop of `showRecord` ends having shown every field, every bid in that
      order and the end record, and nothing else. */
  method RecordRoundTrip(ghost id: nat, ghost st: Start, ghost bids: map<nat, Bid>, ghost order: seq<nat>,
                         ghost end: Option<End>, ghost cal: Calendar, reply: string)
    returns (lines: seq<Line>)
    requires Showable(st, bids, end) && forall v | v in order :: v in bids
    requires reply == Printed(Request.ShowRecord(id), Record(st, bids, end), order, cal)
    ensures WellFormed(reply) && lines == RecordLines(st, bids, order, end, cal)
  {
    ghost var ws := RecordWords(st, bids, order, end, cal);
    RecordInterprets(st, bids, order, end, cal);
    RecordLineIs(id, st, bids, order, end, cal, ws);
    OkLineReads("RRC", ws);
    var ok := VerifyBuffer(reply);
    assert ok;
    if !ok { return [ParseError]; }
    lines := Client.ShowRecord(reply, Head("RRC"), ws);
  }

  /** Every reachable auction can be shown, as long as the clock fits a long. */
  lemma ReachableIsShowable(run: seq<Event>, id: nat)
    requires ValidRun(run) && id in Reached(run).auctions && IsLong(EndTime(run))
    ensures var a := Reached(run).auctions[id]; Showable(a.start, a.bids, a.end)
  {
    ReachedInv(run);
    var s := Reached(run);
    var a := s.auctions[id];
    assert AuctionOk(a, s.users.Keys, EndTime(run));
    forall v: nat | v in a.bids
      ensures GoodUid(a.bids[v].bidder) && v <= 999999 && IsLong(a.bids[v].secs)
    {
      assert UserOk(s.users[a.bids[v].bidder], a.bids[v].bidder, s.auctions);
    }
  }

  // ---------- Lists ----------

  /** Main result: the reply to a list request, for any nonempty set of identifiers of at most three
      digits, passes `verify_buffer`, and the client's loop ends having printed every identifier once, in
      increasing order, with its flag. */
  method ListRoundTrip(ghost r: Request, ghost entries: map<nat, bool>, ghost cal: Calendar, reply: string)
    returns (printed: seq<(string, string)>)
    requires entries != map[] && forall id | id in entries :: id <= 999
    requires reply == Printed(r, Listed(entries), [], cal)
    ensures WellFormed(reply) && forall id | id in Ascending(entries.Keys) :: id in entries
    ensures |printed| == |entries| == |Ascending(entries.Keys)|
    ensures forall n: nat | n < |printed| :: IsEntry(printed[n], Ascending(entries.Keys)[n], entries)
  {
    ghost var ids := Ascending(entries.Keys);
    AscendingIs(entries.Keys);
    assert ids != [];
    OkLineReads(Verb(r), ListWords(ids, entries));
    var ok := VerifyBuffer(reply);
    assert ok;
    if !ok { return []; }
    printed := ReadList(reply, Head(Verb(r)), ids, entries);
    PairsAre(ids, entries);
  }

  /** A number in three digits, and the digit 1 exactly for an open auction, the digit 0 for an ended one. */
  predicate IsEntry(printed: (string, string), id: nat, open: map<nat, bool>)
  {
    id in open && printed.0 == Pad3(id) && printed.1 == if open[id] then "1" else "0"
  }

  lemma {:induction false} PairsAre(ids: seq<nat>, open: map<nat, bool>)
    requires forall id | id in ids :: id in open
    ensures |Pairs(ids, open)| == |ids|
    ensures forall n: nat | n < |ids| :: IsEntry(Pairs(ids, open)[n], ids[n], open)
  {
    if ids != [] {
      assert ids[0] in ids && forall id | id in ids[1..] :: id in ids;
      PairsAre(ids[1..], open);
      forall n: nat | n < |ids|
        ensures IsEntry(Pairs(ids, open)[n], ids[n], open)
      {
        if n > 0 { assert ids[n] == ids[1..][n - 1]; }
      }
    }
  }
}
