/** The server's main loop on any sequence of messages, tied to the runs the other results speak of. */
module Serving {
  import opened Text
  import opened Domain
  import opened LazyServer
  import opened Invariants
  import opened FileText
  import opened Wire
  import opened Streams
  import opened Requests
  import opened Handling
  import opened FileServer

  /** What arrives, with the clock read while it is handled. Of a datagram the server sees what comes before
      the first NUL, since it uses `strlen`. */
  datatype Incoming =
    | Datagram(text: string, now: nat)
    | Connection(stream: string, t1: nat, t2: nat)

  function Opening(i: Incoming): nat { if i.Datagram? then i.now else i.t1 }

  function Closing(i: Incoming): nat { if i.Datagram? then i.now else i.t2 }

  predicate Paced(inputs: seq<Incoming>)
  {
    (forall i | 0 <= i < |inputs| :: Opening(inputs[i]) <= Closing(inputs[i])) &&
    (forall i, j | 0 <= i < j < |inputs| :: Closing(inputs[i]) <= Opening(inputs[j]))
  }

  /** Every connection may create one auction. */
  function Connections(inputs: seq<Incoming>): nat
  {
    if inputs == [] then 0
    else Connections(inputs[..|inputs| - 1]) + if inputs[|inputs| - 1].Connection? then 1 else 0
  }

  /** What the parsers made of one message, and the order in which a record's bids were read. */
  datatype Entry = Entry(parsed: Parsed, order: seq<nat>)

  ghost predicate ParsedFrom(i: Incoming, parsed: Parsed)
  {
    match i
    case Datagram(text, _) => exists firstEntry :: parsed == ParseUdp(CString(text), firstEntry)
    case Connection(stream, _, _) => exists upload :: UploadOf(stream, upload) && parsed == ParseTcp(stream, upload)
  }

  /** The requests among the messages. */
  function RunOf(inputs: seq<Incoming>, log: seq<Entry>): seq<Event>
    requires |inputs| == |log|
  {
    if inputs == [] then []
    else
      var n := |inputs| - 1;
      RunOf(inputs[..n], log[..n]) +
      if log[n].parsed.Good? then [Event(log[n].parsed.req, Opening(inputs[n]), Closing(inputs[n]))] else []
  }

  /** Message `i` was answered as the state model answers it after the requests before it. */
  ghost predicate AnsweredAt(inputs: seq<Incoming>, log: seq<Entry>, replies: seq<string>, i: nat, cal: Calendar)
    requires i < |inputs| && |inputs| == |log| == |replies|
  {
    var before := RunOf(inputs[..i], log[..i]);
    && ParsedFrom(inputs[i], log[i].parsed)
    && match log[i].parsed
       case Bad(text) => replies[i] == text
       case Good(req) =>
         var t1, t2 := Opening(inputs[i]), Closing(inputs[i]);
         && ValidRun(before) && ValidRequest(req)
         && (inputs[i].Datagram? ==> |Reached(before).auctions| <= 999)
         && var p := Step(Reached(before), req, t1, t2).1;
            (p.Record? ==> Enumerates(log[i].order, p.bids)) && replies[i] == Printed(req, p, log[i].order, cal)
  }

  /** One more message adds its request, if it is one, to the run. */
  lemma RunGrowsBy(inputs: seq<Incoming>, log: seq<Entry>, i: nat, e: Entry)
    requires i < |inputs| && |log| == i
    ensures var before, after := RunOf(inputs[..i], log), RunOf(inputs[..i + 1], log + [e]);
            after == before + if e.parsed.Good? then [Event(e.parsed.req, Opening(inputs[i]), Closing(inputs[i]))]
                              else []
  {
    assert inputs[..i + 1][..i] == inputs[..i] && (log + [e])[..i] == log;
  }

  /** What the loop keeps about the run so far. */
  ghost predicate FollowsRun(run: seq<Event>, s: State, clock: nat)
  {
    ValidRun(run) && EndTime(run) <= clock && s == Reached(run)
  }

  lemma FollowsMore(run: seq<Event>, s: State, clock: nat, req: Request, t1: nat, t2: nat)
    requires FollowsRun(run, s, clock) && ValidRequest(req) && clock <= t1 <= t2
    ensures FollowsRun(run + [Event(req, t1, t2)], Step(s, req, t1, t2).0, t2)
  {
  }

  ghost predicate AllAnswered(inputs: seq<Incoming>, log: seq<Entry>, replies: seq<string>, k: nat, cal: Calendar)
    requires k <= |inputs| && |inputs| == |log| == |replies|
  {
    forall j | 0 <= j < k :: AnsweredAt(inputs, log, replies, j, cal)
  }

  /** The answers given earlier depend on the earlier messages only. */
  lemma AnsweredEarlier(inputs: seq<Incoming>, log: seq<Entry>, replies: seq<string>, i: nat, e: Entry, reply: string,
                        cal: Calendar)
    requires i < |inputs| && |log| == |replies| == i
    requires AllAnswered(inputs[..i], log, replies, i, cal)
    ensures AllAnswered(inputs[..i + 1], log + [e], replies + [reply], i, cal)
  {
    var inputs', log', replies' := inputs[..i + 1], log + [e], replies + [reply];
    forall j | 0 <= j < i
      ensures AnsweredAt(inputs', log', replies', j, cal)
    {
      assert AnsweredAt(inputs[..i], log, replies, j, cal);
      assert inputs[..i][..j] == inputs'[..j] && log'[..j] == log[..j];
    }
  }

  lemma AnsweredNow(inputs: seq<Incoming>, log: seq<Entry>, replies: seq<string>, i: nat, e: Entry, reply: string,
                    s: State, s': State, clock: nat, cal: Calendar)
    requires i < |inputs| && |log| == |replies| == i
    requires FollowsRun(RunOf(inputs[..i], log), s, clock) && clock <= Opening(inputs[i]) <= Closing(inputs[i])
    requires Handled(inputs[i], s, s', reply, e, cal) && (inputs[i].Datagram? ==> |s.auctions| <= 999)
    ensures AnsweredAt(inputs[..i + 1], log + [e], replies + [reply], i, cal)
    ensures FollowsRun(RunOf(inputs[..i + 1], log + [e]), s', Closing(inputs[i]))
  {
    RunGrowsBy(inputs, log, i, e);
    var run := RunOf(inputs[..i], log);
    assert inputs[..i + 1][..i] == inputs[..i] && (log + [e])[..i] == log;
    if e.parsed.Good? {
      FollowsMore(run, s, clock, e.parsed.req, Opening(inputs[i]), Closing(inputs[i]));
    } else {
      assert run + [] == run;
    }
  }

  /** One message creates at most one auction, and only over TCP. */
  lemma AtMostOneMore(s: State, req: Request, t1: nat, t2: nat)
    requires ValidRequest(req)
    ensures |Step(s, req, t1, t2).0.auctions| <= |s.auctions| + if req.Open? then 1 else 0
  {
    var s' := Step(s, req, t1, t2).0;
    if !req.Open? {
      assert s'.auctions.Keys == s.auctions.Keys;
      assert |s'.auctions| == |s'.auctions.Keys| && |s.auctions| == |s.auctions.Keys|;
    }
  }

  /** What the loop keeps after `i` messages. */
  ghost predicate Served(inputs: seq<Incoming>, i: nat, log: seq<Entry>, replies: seq<string>, s: State, clock: nat,
                         cal: Calendar)
  {
    && i <= |inputs| && |replies| == |log| == i
    && (i < |inputs| ==> clock <= Opening(inputs[i]))
    && FollowsRun(RunOf(inputs[..i], log), s, clock)
    && |s.auctions| <= Connections(inputs[..i])
    && AllAnswered(inputs[..i], log, replies, i, cal)
  }

  lemma ServedMore(inputs: seq<Incoming>, i: nat, log: seq<Entry>, replies: seq<string>, s: State, clock: nat,
                   e: Entry, reply: string, s': State, cal: Calendar)
    requires Paced(inputs) && Served(inputs, i, log, replies, s, clock, cal) && i < |inputs|
    requires Handled(inputs[i], s, s', reply, e, cal) && (inputs[i].Datagram? ==> |s.auctions| <= 999)
    ensures Served(inputs, i + 1, log + [e], replies + [reply], s', Closing(inputs[i]), cal)
  {
    assert inputs[..i + 1][..i] == inputs[..i];
    HandledCount(inputs[i], s, s', reply, e, cal);
    AnsweredNow(inputs, log, replies, i, e, reply, s, s', clock, cal);
    AnsweredEarlier(inputs, log, replies, i, e, reply, cal);
  }

  /** Main result: from two empty directories, on any sequence of datagrams and connections, well formed
      or not, the path-keyed files always stand for the state the requests so far lead to, and every reply
      is the printed reply of the state model, or the error reply of the parsers. The server is followed
      until a datagram finds more auctions than three digits can number, which takes as many connections.
      Connections are served one after another here; modules Schedules and Overlaps are about those that overlap. */
  method Serve(cal: Calendar, inputs: seq<Incoming>)
    returns (replies: seq<string>, ghost log: seq<Entry>, server: AuctionServer)
    requires Paced(inputs)
    ensures |replies| == |log| <= |inputs|
    ensures |replies| < |inputs| ==> inputs[|replies|].Datagram? && |server.state.auctions| > 999
    ensures |server.state.auctions| <= Connections(inputs[..|replies|])
    ensures var served := inputs[..|replies|];
            AllAnswered(served, log, replies, |replies|, cal) &&
            ValidRun(RunOf(served, log)) && server.state == Reached(RunOf(served, log))
    ensures server.Valid()
  {
    server := new AuctionServer(cal);
    replies, log := [], [];
    var i := 0;
    while i < |inputs|
      invariant fresh(server) && server.cal == cal && server.Valid()
      invariant Served(inputs, i, log, replies, server.state, server.clock, cal)
    {
      NextIdIsFresh(server.state);
      var next := server.GetNextAuctionId();
      if inputs[i].Datagram? && next > 1000 { break; }
      var reply;
      ghost var e, s, clock := Entry(Bad(""), []), server.state, server.clock;
      reply, e := ServeOne(server, inputs[i]);
      ServedMore(inputs, i, log, replies, s, clock, e, reply, server.state, cal);
      log := log + [e];
      replies := replies + [reply];
      i := i + 1;
    }
  }

  /** What one message does to server, reply and log. */
  ghost predicate Handled(input: Incoming, s: State, s': State, reply: string, e: Entry, cal: Calendar)
  {
    && ParsedFrom(input, e.parsed)
    && match e.parsed
       case Bad(text) => reply == text && s' == s
       case Good(req) => Answers(s, req, Opening(input), Closing(input), s', reply, e.order, cal)
  }

  lemma HandledCount(input: Incoming, s: State, s': State, reply: string, e: Entry, cal: Calendar)
    requires Handled(input, s, s', reply, e, cal)
    ensures |s'.auctions| <= |s.auctions| + if input.Connection? then 1 else 0
  {
    if e.parsed.Good? { AtMostOneMore(s, e.parsed.req, Opening(input), Closing(input)); }
    if input.Datagram? { DatagramsOpenNothing(CString(input.text)); }
  }

  lemma DatagramsOpenNothing(text: string)
    ensures forall firstEntry | ParseUdp(text, firstEntry).Good? :: !ParseUdp(text, firstEntry).req.Open?
  {
  }

  method ServeDatagram(server: AuctionServer, text: string, now: nat) returns (reply: string, ghost e: Entry)
    requires server.Valid() && server.clock <= now && |server.state.auctions| <= 999
    modifies server
    ensures server.Valid() && server.clock == now
    ensures Handled(Datagram(text, now), old(server.state), server.state, reply, e, server.cal)
  {
    ghost var firstEntry, order;
    reply, firstEntry, order := server.ProcessUdpRequest(CString(text), now);
    e := Entry(ParseUdp(CString(text), firstEntry), order);
  }

  method ServeConnection(server: AuctionServer, stream: string, t1: nat, t2: nat)
    returns (reply: string, ghost e: Entry)
    requires server.Valid() && server.clock <= t1 <= t2
    modifies server
    ensures server.Valid() && server.clock == t2
    ensures Handled(Connection(stream, t1, t2), old(server.state), server.state, reply, e, server.cal)
  {
    var sock := new Socket(stream);
    ghost var text, upload;
    text, upload := server.ProcessTcpRequest(sock, t1, t2);
    reply := sock.outgoing;
    assert "" + text == text;
    e := Entry(ParseTcp(stream, upload), []);
  }

  /** One round of the main loop. */
  method ServeOne(server: AuctionServer, input: Incoming) returns (reply: string, ghost e: Entry)
    requires server.Valid() && server.clock <= Opening(input) <= Closing(input)
    requires input.Datagram? ==> |server.state.auctions| <= 999
    modifies server
    ensures server.Valid() && server.clock == Closing(input)
    ensures Handled(input, old(server.state), server.state, reply, e, server.cal)
  {
    match input {
      case Datagram(text, now) => reply, e := ServeDatagram(server, text, now);
      case Connection(stream, t1, t2) => reply, e := ServeConnection(server, stream, t1, t2);
    }
  }
}
