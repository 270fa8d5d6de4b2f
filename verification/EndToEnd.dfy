/** Client and server together: what one side types is what the other side stores, and back. */
module EndToEnd {
  import opened Text
  import opened Domain
  import opened LazyServer
  import opened IdealServer
  import opened Invariants
  import opened Histories
  import opened FileText
  import opened Wire
  import opened Client
  import opened RoundTrips
  import opened Streams
  import opened Requests
  import opened Handling
  import opened Serving
  import Protocol

  // ---------- Requests over TCP, command included ----------

  lemma CommandOf(command: string, rest: string)
    requires |command| == 3 && IsWord(command)
    ensures CommandText(command + " " + rest) == command && Rest(command + " " + rest, 4) == rest
  {
    var s := command + " " + rest;
    FieldOfWord(command, ' ', rest, 4);
    assert s == command + [' '] + rest;
    assert s[3] == ' ' && Stop(s, 5) == 3;
    assert s[..3] == command;
    CStringOfWord(command);
  }

  lemma Dispatch(s: string, upload: Upload)
    ensures CommandText(s) == "BID" ==> ParseTcp(s, upload) == ParseBid(Rest(s, 4))
    ensures CommandText(s) == "CLS" ==> ParseTcp(s, upload) == ParseClose(Rest(s, 4))
    ensures CommandText(s) == "SAS" ==> ParseTcp(s, upload) == ParseAsset(Rest(s, 4))
  {
    if CommandText(s) == "BID" {
      DispatchBid(s, upload);
    } else if CommandText(s) == "CLS" {
      DispatchClose(s, upload);
    } else if CommandText(s) == "SAS" {
      DispatchAsset(s, upload);
    }
  }

  lemma DispatchBid(s: string, upload: Upload)
    requires CommandText(s) == "BID"
    ensures ParseTcp(s, upload) == ParseBid(Rest(s, 4))
  {
    var c := CommandText(s);
    Differs(c[..3], "OPA");
    Differs(c, "CLS");
    Differs(c, "SAS");
  }

  lemma Differs(c: string, d: string)
    requires c != "" && d != "" && c[0] != d[0]
    ensures c != d
  {
  }

  lemma DispatchClose(s: string, upload: Upload)
    requires CommandText(s) == "CLS"
    ensures ParseTcp(s, upload) == ParseClose(Rest(s, 4))
  {
    Differs(CommandText(s)[..3], "OPA");
  }

  lemma DispatchAsset(s: string, upload: Upload)
    requires CommandText(s) == "SAS"
    ensures ParseTcp(s, upload) == ParseAsset(Rest(s, 4))
  {
    Differs(CommandText(s)[..3], "OPA");
    Differs(CommandText(s), "CLS");
  }

  lemma DispatchOpen(s: string, a: OpenArgs, rest: string, upload: Upload)
    requires CommandText(s) == "OPA" && ParseOpen(Rest(s, 4)) == OpenHeader(a, rest)
    ensures ParseTcp(s, upload) == Good(OpenRequest(a, upload))
    ensures UploadOf(s, upload) == UploadFrom(rest, a.fsize, upload)
  {
    assert "OPA"[..3] == "OPA";
  }

  /** BID, CLS and SAS as the client sends them reach the handlers as the same requests. */
  lemma TcpRoundTrip(uid: string, pass: string, aid: nat, value: nat, upload: Upload)
    requires GoodUid(uid) && GoodPass(pass) && aid <= 999 && value <= 999999
    ensures ParseTcp("BID" + " " + BidLine(uid, pass, aid, value), upload) == Good(BidOn(uid, pass, aid, value))
    ensures ParseTcp("CLS" + " " + CloseLine(uid, pass, aid), upload) == Good(Close(uid, pass, Pad3(aid)))
    ensures ParseTcp("SAS" + " " + (Pad3(aid) + "\n" + ""), upload) == Good(ShowAsset(Pad3(aid)))
  {
    CommandOf("BID", BidLine(uid, pass, aid, value));
    CommandOf("CLS", CloseLine(uid, pass, aid));
    CommandOf("SAS", Pad3(aid) + "\n" + "");
    Dispatch("BID" + " " + BidLine(uid, pass, aid, value), upload);
    Dispatch("CLS" + " " + CloseLine(uid, pass, aid), upload);
    Dispatch("SAS" + " " + (Pad3(aid) + "\n" + ""), upload);
    BidRequestRoundTrip(uid, pass, aid, value);
    CloseRequestRoundTrip(uid, pass, aid);
    AssetRequestRoundTrip(aid);
  }

  /** Main result: the server takes from an OPA request the fields the client printed and stores exactly
      the bytes of the file; what follows the closing newline stays unread. An upload as `store_file` may
      report it is a complete one, and the request the state model sees is the one the client meant. */
  lemma OpenStreamRoundTrip(a: OpenArgs, data: string, more: string, upload: Upload)
    requires GoodOpenArgs(a) && |data| == a.fsize
    requires UploadOf("OPA" + " " + OpenText(a, data + "\n" + more), upload)
    ensures upload == Upload(data, true)
    ensures ParseTcp("OPA" + " " + OpenText(a, data + "\n" + more), upload) == Good(OpenRequest(a, upload))
    ensures ParseOpen(OpenText(a, data + "\n" + more)) == OpenHeader(a, data + "\n" + more)
    ensures (data + "\n" + more)[a.fsize + 1..] == more
  {
    var rest := data + "\n" + more;
    var text := OpenText(a, rest);
    CommandOf("OPA", text);
    OpenHeaderRoundTrip(a, rest);
    DispatchOpen("OPA" + " " + text, a, rest, upload);
    WholeUpload(data, more, upload);
  }

  lemma WholeUpload(data: string, more: string, upload: Upload)
    requires UploadFrom(data + "\n" + more, |data|, upload)
    ensures upload == Upload(data, true) && (data + "\n" + more)[|data| + 1..] == more
  {
  }

  // ---------- Assets ----------

  /** Main result: once an open was answered with an identifier, asking for its asset at any later point of
      the run gives the client, however the socket cuts the bytes, the original file name, size and bytes. */
  method AssetEndToEnd(ghost run: seq<Event>, ghost k: nat, ghost j: nat, ghost id: nat, ghost cal: Calendar,
                       sock: Socket)
    returns (name: string, size: nat, file: string)
    requires ValidRun(run) && k < j < |run|
    requires run[k].req.Open? && ReplyAt(run, k) == Opened(id) && |run[k].req.upload.received| <= 10_000_000
    requires run[j].req == ShowAsset(Pad3(id))
    requires sock.incoming == Printed(run[j].req, ReplyAt(run, j), [], cal)
    modifies sock`incoming
    ensures name == run[k].req.fname && file == run[k].req.upload.received && size == |file|
  {
    AssetStaysAvailable(run, k, j, id);
    ghost var fname, bytes := run[k].req.fname, run[k].req.upload.received;
    Pow10Small();
    DecFits(|bytes|, 8, 10_000_000);
    var r;
    name, size, file, r := ReadAssetReply(sock, fname, bytes);
  }

  // ---------- The files of the server against the ideal server ----------

  lemma {:induction false} RunPrefix(inputs: seq<Incoming>, log: seq<Entry>, i: nat)
    requires |log| == |inputs| && i <= |inputs|
    ensures var run, before := RunOf(inputs, log), RunOf(inputs[..i], log[..i]);
            |before| <= |run| && run[..|before|] == before &&
            (i < |inputs| && log[i].parsed.Good? ==>
               |before| < |run| && run[|before|] == Event(log[i].parsed.req, Opening(inputs[i]), Closing(inputs[i])))
  {
    if i == |inputs| {
      assert inputs[..i] == inputs && log[..i] == log;
    } else {
      var n := |inputs| - 1;
      RunPrefix(inputs[..n], log[..n], i);
      assert inputs[..n][..i] == inputs[..i] && log[..n][..i] == log[..i];
    }
  }

  /** Main result: every request the main loop answers over its files gets, byte for byte, the printed
      reply of the server that ends each auction on time by itself. */
  lemma FilesRefineIdeal(inputs: seq<Incoming>, log: seq<Entry>, replies: seq<string>, i: nat, cal: Calendar)
    requires |inputs| == |log| == |replies| && i < |inputs| && log[i].parsed.Good?
    requires ValidRun(RunOf(inputs, log)) && AllAnswered(inputs, log, replies, |inputs|, cal)
    ensures var run, k := RunOf(inputs, log), |RunOf(inputs[..i], log[..i])|;
            k < |run| && run[k].req == log[i].parsed.req &&
            var p := IdealStepAt(run, k).1;
            (p.Record? ==> Enumerates(log[i].order, p.bids)) && replies[i] == Printed(run[k].req, p, log[i].order, cal)
  {
    MessageReply(inputs, log, replies, cal, i);
    LazyRefinesIdeal(RunOf(inputs, log), |RunOf(inputs[..i], log[..i])|);
  }

  // ---------- From the bytes of an open to the bytes of an asset ----------

  /** The only reply to an open that reads as an identifier is the one that grants it. */
  lemma OpenedByText(s: State, r: Request, now: nat, id: nat, cal: Calendar)
    requires r.Open? && Printed(r, OpenStep(s, r, now).1, [], cal) == StatusLine("ROA", "OK " + Pad3(id))
    ensures OpenStep(s, r, now).1 == Opened(id)
  {
    var p := OpenStep(s, r, now).1;
    assert Verb(r) == "ROA";
    if p.Opened? {
      SameCode("ROA", "OK " + Pad3(p.aid), "OK " + Pad3(id));
      assert ("OK " + Pad3(p.aid))[3..] == Pad3(p.aid) && ("OK " + Pad3(id))[3..] == Pad3(id);
      PadReads3(p.aid);
      PadReads3(id);
    } else {
      SameCode("ROA", Status(p), "OK " + Pad3(id));
    }
  }

  lemma PadReads3(n: nat)
    ensures Atoi(Pad3(n)) == n
  {
    AtoiPad(n, 3, "");
    assert Pad3(n) + "" == Pad3(n);
  }

  lemma SameCode(verb: string, a: string, b: string)
    requires StatusLine(verb, a) == StatusLine(verb, b)
    ensures a == b
  {
    var x, y, n := StatusLine(verb, a), StatusLine(verb, b), |verb| + 1;
    assert x[n..|x| - 1] == a && y[n..|y| - 1] == b;
  }

  /** Requests of earlier messages come earlier in the run. */
  lemma RunOrder(inputs: seq<Incoming>, log: seq<Entry>, i: nat, j: nat)
    requires |log| == |inputs| && i < j <= |inputs| && log[i].parsed.Good?
    ensures |RunOf(inputs[..i], log[..i])| < |RunOf(inputs[..j], log[..j])|
  {
    RunPrefix(inputs[..j], log[..j], i);
    assert inputs[..j][..i] == inputs[..i] && log[..j][..i] == log[..i];
  }

  /** Main result: message `i` is the client's OPA request with the bytes of a file, and was answered with
      an identifier; message `j`, later, is the client's SAS request for it. Then, whatever else arrived and
      however the socket cuts the bytes, the client gets back the file name, the size and the bytes. */
  method AssetThroughServer(ghost inputs: seq<Incoming>, ghost log: seq<Entry>, ghost replies: seq<string>,
                            ghost cal: Calendar, ghost i: nat, ghost j: nat, ghost a: OpenArgs, ghost data: string,
                            ghost id: nat, sock: Socket)
    returns (name: string, size: nat, file: string)
    requires |inputs| == |log| == |replies| && i < j < |inputs|
    requires ValidRun(RunOf(inputs, log)) && AllAnswered(inputs, log, replies, |inputs|, cal)
    requires GoodOpenArgs(a) && |data| == a.fsize && id <= 999
    requires inputs[i].Connection? && inputs[i].stream == "OPA" + " " + OpenText(a, data + "\n" + "")
    requires replies[i] == StatusLine("ROA", "OK " + Pad3(id))
    requires inputs[j].Connection? && inputs[j].stream == "SAS" + " " + (Pad3(id) + "\n" + "")
    requires sock.incoming == replies[j]
    modifies sock`incoming
    ensures name == a.fname && size == a.fsize && file == data
  {
    ghost var run, k, m := RunOf(inputs, log), |RunOf(inputs[..i], log[..i])|, |RunOf(inputs[..j], log[..j])|;
    assert AnsweredAt(inputs, log, replies, i, cal) && AnsweredAt(inputs, log, replies, j, cal);
    OpenParsed(inputs[i], log[i].parsed, a, data);
    AssetParsed(inputs[j], log[j].parsed, id);
    OpenMessage(inputs, log, replies, cal, i, OpenRequest(a, Upload(data, true)), id);
    AssetMessage(inputs, log, replies, cal, j, id);
    RunOrder(inputs, log, i, j);
    AssetStaysAvailable(run, k, m, id);
    name, size, file := AssetEndToEnd(run, k, m, id, cal, sock);
  }

  /** Where the request of message `i` is in the run, and what was answered. */
  lemma MessageReply(inputs: seq<Incoming>, log: seq<Entry>, replies: seq<string>, cal: Calendar, i: nat)
    requires |inputs| == |log| == |replies| && i < |inputs| && log[i].parsed.Good?
    requires ValidRun(RunOf(inputs, log)) && AllAnswered(inputs, log, replies, |inputs|, cal)
    ensures var run, k := RunOf(inputs, log), |RunOf(inputs[..i], log[..i])|;
            k < |run| && run[k].req == log[i].parsed.req &&
            var p := ReplyAt(run, k);
            (p.Record? ==> Enumerates(log[i].order, p.bids)) && replies[i] == Printed(run[k].req, p, log[i].order, cal)
  {
    RunPrefix(inputs, log, i);
    assert AnsweredAt(inputs, log, replies, i, cal);
  }

  lemma OrderIsForRecords(r: Request, p: Reply, order: seq<nat>, cal: Calendar)
    requires !p.Record?
    ensures Printed(r, p, order, cal) == Printed(r, p, [], cal)
  {
  }

  lemma OpenParsed(input: Incoming, parsed: Parsed, a: OpenArgs, data: string)
    requires GoodOpenArgs(a) && |data| == a.fsize && ParsedFrom(input, parsed)
    requires input.Connection? && input.stream == "OPA" + " " + OpenText(a, data + "\n" + "")
    ensures parsed == Good(OpenRequest(a, Upload(data, true)))
  {
    var upload :| UploadOf(input.stream, upload) && parsed == ParseTcp(input.stream, upload);
    OpenStreamRoundTrip(a, data, "", upload);
  }

  lemma AssetTextParses(stream: string, id: nat, upload: Upload)
    requires id <= 999 && stream == "SAS" + " " + (Pad3(id) + "\n" + "")
    ensures ParseTcp(stream, upload) == Good(ShowAsset(Pad3(id)))
  {
    CommandOf("SAS", Pad3(id) + "\n" + "");
    Dispatch(stream, upload);
    AssetRequestRoundTrip(id);
  }

  lemma AssetParsed(input: Incoming, parsed: Parsed, id: nat)
    requires id <= 999 && ParsedFrom(input, parsed)
    requires input.Connection? && input.stream == "SAS" + " " + (Pad3(id) + "\n" + "")
    ensures parsed == Good(ShowAsset(Pad3(id)))
  {
    var upload :| UploadOf(input.stream, upload) && parsed == ParseTcp(input.stream, upload);
    AssetTextParses(input.stream, id, upload);
  }

  lemma OpenMessage(inputs: seq<Incoming>, log: seq<Entry>, replies: seq<string>, cal: Calendar, i: nat, r: Request,
                    id: nat)
    requires |inputs| == |log| == |replies| && i < |inputs| && log[i].parsed == Good(r) && r.Open?
    requires ValidRun(RunOf(inputs, log)) && AllAnswered(inputs, log, replies, |inputs|, cal)
    requires replies[i] == StatusLine("ROA", "OK " + Pad3(id))
    ensures var run, k := RunOf(inputs, log), |RunOf(inputs[..i], log[..i])|;
            k < |run| && run[k].req == r && ReplyAt(run, k) == Opened(id)
  {
    MessageReply(inputs, log, replies, cal, i);
    var run, k := RunOf(inputs, log), |RunOf(inputs[..i], log[..i])|;
    var s := Reached(run[..k]);
    assert ReplyAt(run, k) == OpenStep(s, r, run[k].t2).1;
    OrderIsForRecords(r, ReplyAt(run, k), log[i].order, cal);
    OpenedByText(s, r, run[k].t2, id, cal);
  }

  lemma AssetReplyAt(run: seq<Event>, m: nat, aidText: string)
    requires ValidRun(run) && m < |run| && run[m].req == ShowAsset(aidText)
    ensures !ReplyAt(run, m).Record?
  {
  }

  lemma AssetMessage(inputs: seq<Incoming>, log: seq<Entry>, replies: seq<string>, cal: Calendar, j: nat, id: nat)
    requires |inputs| == |log| == |replies| && j < |inputs| && log[j].parsed == Good(ShowAsset(Pad3(id)))
    requires ValidRun(RunOf(inputs, log)) && AllAnswered(inputs, log, replies, |inputs|, cal)
    ensures var run, m := RunOf(inputs, log), |RunOf(inputs[..j], log[..j])|;
            m < |run| && run[m].req == ShowAsset(Pad3(id)) && !ReplyAt(run, m).Record? &&
            replies[j] == Printed(run[m].req, ReplyAt(run, m), [], cal)
  {
    MessageReply(inputs, log, replies, cal, j);
    var run, m := RunOf(inputs, log), |RunOf(inputs[..j], log[..j])|;
    AssetReplyAt(run, m, Pad3(id));
    OrderIsForRecords(run[m].req, ReplyAt(run, m), log[j].order, cal);
  }

  // ---------- From a query to what the client shows ----------

  lemma PlainText(t: string)
    requires forall i | 0 <= i < |t| :: t[i] != '\0'
    ensures CString(t) == t
  {
    CStringOfWord(t);
  }

  lemma RecordParsed(input: Incoming, parsed: Parsed, aid: nat)
    requires aid <= 999 && ParsedFrom(input, parsed) && input.Datagram? && input.text == RecordText(aid)
    ensures parsed == Good(Request.ShowRecord(aid))
  {
    var t := RecordText(aid);
    assert forall i | 0 <= i < |Pad3(aid)| :: IsDigit(Pad3(aid)[i]);
    PlainText(t);
    var firstEntry :| parsed == ParseUdp(CString(t), firstEntry);
    RecordRequestRoundTrip(aid);
    SameForAll(t, firstEntry);
  }

  /** Only LST depends on the first entry. */
  lemma SameForAll(t: string, firstEntry: Option<nat>)
    requires ParseUdp(t, None).Good? && !ParseUdp(t, None).req.List?
    ensures ParseUdp(t, firstEntry) == ParseUdp(t, None)
  {
  }

  lemma RecordShowable(run: seq<Event>, k: nat)
    requires ValidRun(run) && k < |run| && run[k].req.ShowRecord? && ReplyAt(run, k).Record? && IsLong(EndTime(run))
    ensures var p := ReplyAt(run, k); Showable(p.start, p.bids, p.end)
  {
    var after := run[..k + 1];
    ValidPrefix(run, k + 1);
    assert after[..k] == run[..k] && after[k] == run[k];
    assert EndTime(after) <= EndTime(run);
    ReachableIsShowable(after, run[k].req.aid);
  }

  lemma RecordReplies(run: seq<Event>, k: nat)
    requires ValidRun(run) && k < |run| && run[k].req.ShowRecord?
    ensures ReplyAt(run, k) == Nok || ReplyAt(run, k).Record?
  {
  }

  /** Main result: the client's SRC sent to the main loop at any point shows the record the ideal server has
      then, with every bid once; or the ideal server says that there is none. */
  method RecordThroughServer(ghost inputs: seq<Incoming>, ghost log: seq<Entry>, ghost replies: seq<string>,
                             ghost cal: Calendar, ghost i: nat, ghost aid: nat, reply: string)
    returns (lines: seq<Line>)
    requires |inputs| == |log| == |replies| && i < |inputs| && reply == replies[i] && aid <= 999
    requires ValidRun(RunOf(inputs, log)) && AllAnswered(inputs, log, replies, |inputs|, cal)
    requires IsLong(EndTime(RunOf(inputs, log)))
    requires inputs[i].Datagram? && inputs[i].text == RecordText(aid)
    ensures var run, k := RunOf(inputs, log), |RunOf(inputs[..i], log[..i])|;
            k < |run| && run[k].req == Request.ShowRecord(aid) &&
            var p := IdealStepAt(run, k).1;
            (p == Nok || p.Record?) &&
            (p.Record? ==> Enumerates(log[i].order, p.bids) && WellFormed(reply) &&
                           lines == RecordLines(p.start, p.bids, log[i].order, p.end, cal))
  {
    ghost var p := RecordMessage(inputs, log, replies, cal, i, aid);
    lines := ShowIfRecord(aid, p, log[i].order, cal, reply);
  }

  lemma RecordMessage(inputs: seq<Incoming>, log: seq<Entry>, replies: seq<string>, cal: Calendar, i: nat, aid: nat)
    returns (p: Reply)
    requires |inputs| == |log| == |replies| && i < |inputs| && aid <= 999
    requires ValidRun(RunOf(inputs, log)) && AllAnswered(inputs, log, replies, |inputs|, cal)
    requires IsLong(EndTime(RunOf(inputs, log)))
    requires inputs[i].Datagram? && inputs[i].text == RecordText(aid)
    ensures var run, k := RunOf(inputs, log), |RunOf(inputs[..i], log[..i])|;
            k < |run| && run[k].req == Request.ShowRecord(aid) && p == IdealStepAt(run, k).1
    ensures p == Nok || (p.Record? && Showable(p.start, p.bids, p.end) && Enumerates(log[i].order, p.bids))
    ensures replies[i] == Printed(Request.ShowRecord(aid), p, log[i].order, cal)
  {
    var run, k := RunOf(inputs, log), |RunOf(inputs[..i], log[..i])|;
    assert AnsweredAt(inputs, log, replies, i, cal);
    RecordParsed(inputs[i], log[i].parsed, aid);
    MessageReply(inputs, log, replies, cal, i);
    LazyRefinesIdeal(run, k);
    RecordReplies(run, k);
    p := ReplyAt(run, k);
    if p.Record? { RecordShowable(run, k); }
  }

  lemma RecordStatus(aid: nat, p: Reply, order: seq<nat>, cal: Calendar, reply: string)
    requires p == Nok || (p.Record? && Enumerates(order, p.bids))
    requires reply == Printed(Request.ShowRecord(aid), p, order, cal)
    ensures StartsWith(reply, "RRC OK") == p.Record?
  {
    var verb := "RRC";
    StatusTold(verb, if p.Record? then After(RecordWords(p.start, p.bids, order, p.end, cal)) else "");
    assert verb + " OK" == "RRC OK";
    if p.Record? {
      var ws := RecordWords(p.start, p.bids, order, p.end, cal);
      RoundTrips.RecordLineIs(aid, p.start, p.bids, order, p.end, cal, ws);
    }
  }

  /** `showRecord` looks at the status before it reads on. */
  method ShowIfRecord(ghost aid: nat, ghost p: Reply, ghost order: seq<nat>, ghost cal: Calendar, reply: string)
    returns (lines: seq<Line>)
    requires p == Nok || (p.Record? && Showable(p.start, p.bids, p.end) && Enumerates(order, p.bids))
    requires reply == Printed(Request.ShowRecord(aid), p, order, cal)
    ensures p.Record? ==> WellFormed(reply) && lines == RecordLines(p.start, p.bids, order, p.end, cal)
  {
    RecordStatus(aid, p, order, cal, reply);
    if !StartsWith(reply, "RRC OK") { return []; }
    lines := ShowReply(aid, p, order, cal, reply);
  }

  method ShowReply(ghost aid: nat, ghost p: Reply, ghost order: seq<nat>, ghost cal: Calendar, reply: string)
    returns (lines: seq<Line>)
    requires p.Record? && Showable(p.start, p.bids, p.end) && Enumerates(order, p.bids)
    requires reply == Printed(Request.ShowRecord(aid), p, order, cal)
    ensures WellFormed(reply) && lines == RecordLines(p.start, p.bids, order, p.end, cal)
  {
    lines := RecordRoundTrip(aid, p.start, p.bids, order, p.end, cal, reply);
  }

  /** The client's three list requests, and the verb it expects in the reply. */
  ghost predicate AsksList(text: string, verb: string)
  {
    (text == "LST\n" && verb == "RLS") || exists uid :: OwnListText(text, verb, uid)
  }

  predicate OwnListText(text: string, verb: string, uid: string)
  {
    GoodUid(uid) && ((text == "LMA " + uid + "\n" && verb == "RMA") || (text == "LMB " + uid + "\n" && verb == "RMB"))
  }

  /** The list request a text of the client stands for. */
  predicate ListAsked(text: string, r: Request)
  {
    match r
    case List(_) => text == "LST\n"
    case MyAuctions(uid) => text == "LMA " + uid + "\n"
    case MyBids(uid) => text == "LMB " + uid + "\n"
    case _ => false
  }

  predicate AsksForList(r: Request) { r.List? || r.MyAuctions? || r.MyBids? }

  lemma ListParsed(input: Incoming, parsed: Parsed, verb: string)
    requires ParsedFrom(input, parsed) && input.Datagram? && AsksList(input.text, verb)
    ensures parsed.Good? && AsksForList(parsed.req) && Verb(parsed.req) == verb && ListAsked(input.text, parsed.req)
  {
    var t := input.text;
    var firstEntry :| parsed == ParseUdp(CString(t), firstEntry);
    if uid :| OwnListText(t, verb, uid) {
      OwnListRequest(t, verb, uid, firstEntry);
    } else {
      AllListRequest(t, verb, firstEntry);
    }
  }

  lemma AllListRequest(t: string, verb: string, firstEntry: Option<nat>)
    requires t == "LST\n" && verb == "RLS"
    ensures var parsed := ParseUdp(CString(t), firstEntry);
            parsed.Good? && AsksForList(parsed.req) && Verb(parsed.req) == verb && ListAsked(t, parsed.req)
  {
    PlainText(t);
    ListRequestsRoundTrip("123456", firstEntry);
  }

  lemma OwnListRequest(t: string, verb: string, uid: string, firstEntry: Option<nat>)
    requires OwnListText(t, verb, uid)
    ensures var parsed := ParseUdp(CString(t), firstEntry);
            parsed.Good? && AsksForList(parsed.req) && Verb(parsed.req) == verb && ListAsked(t, parsed.req)
  {
    assert forall i | 0 <= i < |uid| :: IsDigit(uid[i]);
    PlainText(t);
    ListRequestsRoundTrip(uid, firstEntry);
  }

  /** What a list reply of the state model holds. */
  lemma ListEntries(s: State, r: Request, t0: nat, t1: nat, t2: nat)
    requires AsksForList(r) && ValidRequest(r) && Inv(s, t0) && |s.auctions| <= 999
    ensures var p := Step(s, r, t1, t2).1;
            p == Nok || p == Nlg || (p.Listed? && p.entries != map[] && forall id | id in p.entries :: id <= 999)
  {
    if r.List? {
      AllEntries(s, r.firstEntry, t1);
    } else {
      IndexIsSmall(s, t0, if r.MyAuctions? then Paths.HostedDir(r.uid) else Paths.BiddedDir(r.uid));
      OwnEntries(s, r.uid, if r.MyAuctions? then HostedOf(s, r.uid) else BiddedOf(s, r.uid), t1);
    }
  }

  lemma AllEntries(s: State, firstEntry: Option<nat>, now: nat)
    ensures var p := ListStep(s, firstEntry, now).1;
            p == Nok || (p.Listed? && p.entries.Keys == s.auctions.Keys && p.entries != map[])
  {
    if SeesAuctions(s, firstEntry) {
      var id :| id in s.auctions && firstEntry != Some(id);
      assert id in Statuses(s, s.auctions.Keys, now);
    }
  }

  lemma OwnEntries(s: State, uid: string, ids: set<nat>, now: nat)
    ensures var p := OwnListStep(s, uid, ids, now).1;
            p == Nok || p == Nlg || (p.Listed? && p.entries.Keys == ids && p.entries != map[])
  {
    if ids != {} {
      var id :| id in ids;
      assert id in Statuses(s, ids, now);
    }
  }

  lemma ListMessage(inputs: seq<Incoming>, log: seq<Entry>, replies: seq<string>, cal: Calendar, i: nat, verb: string)
    returns (p: Reply)
    requires |inputs| == |log| == |replies| && i < |inputs|
    requires ValidRun(RunOf(inputs, log)) && AllAnswered(inputs, log, replies, |inputs|, cal)
    requires inputs[i].Datagram? && AsksList(inputs[i].text, verb)
    ensures log[i].parsed.Good? && AsksForList(log[i].parsed.req) && Verb(log[i].parsed.req) == verb
    ensures ListAsked(inputs[i].text, log[i].parsed.req)
    ensures var run, k := RunOf(inputs, log), |RunOf(inputs[..i], log[..i])|;
            k < |run| && run[k].req == log[i].parsed.req && p == IdealStepAt(run, k).1
    ensures p == Nok || p == Nlg || (p.Listed? && p.entries != map[] && forall id | id in p.entries :: id <= 999)
    ensures replies[i] == Printed(log[i].parsed.req, p, [], cal)
  {
    var run, before := RunOf(inputs, log), RunOf(inputs[..i], log[..i]);
    var k := |before|;
    assert AnsweredAt(inputs, log, replies, i, cal);
    ListParsed(inputs[i], log[i].parsed, verb);
    MessageReply(inputs, log, replies, cal, i);
    RunPrefix(inputs, log, i);
    LazyRefinesIdeal(run, k);
    p := ReplyAt(run, k);
    ReachedInv(before);
    ListEntries(Reached(before), run[k].req, EndTime(before), run[k].t1, run[k].t2);
    OrderIsForRecords(run[k].req, p, log[i].order, cal);
  }

  /** What the client printed is, auction by auction in increasing order, the number and whether the auction
      runs: it has not been closed and the clock is before start time + time active. */
  ghost predicate ShowsAuctions(printed: seq<(string, string)>, ids: set<nat>, m: map<nat, Auction>, now: nat)
  {
    |printed| == |Ascending(ids)| &&
    forall n: nat | n < |printed| :: ShowsAuction(printed[n], Ascending(ids)[n], m, now)
  }

  predicate ShowsAuction(shown: (string, string), id: nat, m: map<nat, Auction>, now: nat)
  {
    && id in m && shown.0 == Pad3(id)
    && shown.1 == if m[id].end.None? && now < m[id].start.startTime + m[id].start.timeActive then "1" else "0"
  }

  lemma EntriesShown(i: State, r: Request, now: nat, printed: seq<(string, string)>)
    requires ValidRequest(r) && AsksForList(r) && Protocol.Consistent(i) && Answer(i, r, now).Listed?
    requires var entries := Answer(i, r, now).entries;
             |printed| == |Ascending(entries.Keys)| &&
             forall n: nat | n < |printed| :: RoundTrips.IsEntry(printed[n], Ascending(entries.Keys)[n], entries)
    ensures ShowsAuctions(printed, Protocol.AskedFor(i.auctions, r), i.auctions, now)
  {
    Protocol.EntriesMean(i, r, now);
  }

  /** Main result: a list request of the client sent to the main loop at any point shows exactly the auctions
      asked for (all, those the user hosts or those it has bid on), in increasing order, each with the digit 1
      exactly if the ideal server has it running; or the ideal server refuses. */
  method ListThroughServer(ghost inputs: seq<Incoming>, ghost log: seq<Entry>, ghost replies: seq<string>,
                           ghost cal: Calendar, ghost i: nat, verb: string, reply: string)
    returns (printed: seq<(string, string)>)
    requires |inputs| == |log| == |replies| && i < |inputs| && reply == replies[i]
    requires ValidRun(RunOf(inputs, log)) && AllAnswered(inputs, log, replies, |inputs|, cal)
    requires inputs[i].Datagram? && AsksList(inputs[i].text, verb)
    ensures var run, k := RunOf(inputs, log), |RunOf(inputs[..i], log[..i])|;
            k < |run| && ValidRun(run[..k]) && AsksForList(run[k].req) && ListAsked(inputs[i].text, run[k].req) &&
            var p, m := IdealStepAt(run, k).1, IdealReached(run[..k]).auctions;
            (p == Nok || p == Nlg || p.Listed?) &&
            (p.Listed? ==>
               WellFormed(reply) && ShowsAuctions(printed, Protocol.AskedFor(m, run[k].req), m, run[k].t1))
  {
    ghost var p := ListMessage(inputs, log, replies, cal, i, verb);
    printed := ShowIfList(log[i].parsed.req, verb, p, cal, reply);
    if p.Listed? { ListMessageShown(inputs, log, i, p, printed); }
  }

  lemma ListMessageShown(inputs: seq<Incoming>, log: seq<Entry>, i: nat, p: Reply, printed: seq<(string, string)>)
    requires |inputs| == |log| && i < |inputs| && ValidRun(RunOf(inputs, log))
    requires var run, k := RunOf(inputs, log), |RunOf(inputs[..i], log[..i])|;
             k < |run| && AsksForList(run[k].req) && p == IdealStepAt(run, k).1
    requires p.Listed? && |printed| == |Ascending(p.entries.Keys)|
    requires forall n: nat | n < |printed| :: RoundTrips.IsEntry(printed[n], Ascending(p.entries.Keys)[n], p.entries)
    ensures var run, k := RunOf(inputs, log), |RunOf(inputs[..i], log[..i])|;
            ValidRun(run[..k]) &&
            var m := IdealReached(run[..k]).auctions;
            ShowsAuctions(printed, Protocol.AskedFor(m, run[k].req), m, run[k].t1)
  {
    var run, k := RunOf(inputs, log), |RunOf(inputs[..i], log[..i])|;
    ValidPrefix(run, k);
    Protocol.IdealIsConsistent(run[..k]);
    EntriesShown(IdealReached(run[..k]), run[k].req, run[k].t1, printed);
  }

  /** The list loops are entered only after a look at the status. */
  method ShowIfList(ghost r: Request, verb: string, ghost p: Reply, ghost cal: Calendar, reply: string)
    returns (printed: seq<(string, string)>)
    requires p == Nok || p == Nlg || (p.Listed? && p.entries != map[] && forall id | id in p.entries :: id <= 999)
    requires verb == Verb(r) && reply == Printed(r, p, [], cal)
    ensures p.Listed? ==>
              WellFormed(reply) && |printed| == |Ascending(p.entries.Keys)| &&
              forall n: nat | n < |printed| :: RoundTrips.IsEntry(printed[n], Ascending(p.entries.Keys)[n], p.entries)
  {
    StatusTold(verb, if p.Listed? then ListedText(p.entries) else "");
    if !StartsWith(reply, verb + " OK") { return []; }
    printed := ListRoundTrip(r, p.entries, cal, reply);
  }

  lemma StatusTold(verb: string, text: string)
    requires |verb| == 3
    ensures StartsWith(OkLine(verb, text), verb + " OK")
    ensures !StartsWith(StatusLine(verb, "NOK"), verb + " OK") && !StartsWith(StatusLine(verb, "NLG"), verb + " OK")
  {
    assert OkLine(verb, text)[..6] == verb + " OK";
    assert (verb + " OK")[4] == 'O' && StatusLine(verb, "NOK")[4] == 'N' && StatusLine(verb, "NLG")[4] == 'N';
  }

  // ---------- Close ----------

  lemma CloseRepliesAre(s: State, r: Request, t1: nat, t2: nat)
    requires r.Close? && ValidRequest(r)
    ensures IsCloseReply(Step(s, r, t1, t2).1)
  {
  }

  /** The client reports the outcome of a close exactly when the server's reply is neither EAU nor NOK. */
  lemma CloseOutcomeReported(s: State, r: Request, t1: nat, t2: nat, cal: Calendar)
    requires r.Close? && ValidRequest(r)
    ensures var p := Step(s, r, t1, t2).1;
            IsCloseReply(p) && (ReportClose(Printed(r, p, [], cal)) == CloseMeaning(p) <==> p != Eau && p != Nok)
  {
    CloseRepliesAre(s, r, t1, t2);
    CloseReported(Step(s, r, t1, t2).1);
  }
}
