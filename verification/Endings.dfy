/** Which message puts END on file, and with what in it; and who has a directory. */
module Endings {
  import opened Text
  import opened Domain
  import opened LazyServer
  import opened Invariants
  import opened FileText
  import opened Serving
  import opened Protocol
  import opened Outcomes

  /** The requests that make the server look whether auction `id` is over. */
  predicate LooksAt(a: Account, m: map<nat, Auction>, r: Request, id: nat)
    requires ValidRequest(r)
  {
    id in m &&
    match r
    case List(firstEntry) => exists x :: x in m && firstEntry != Some(x)
    case MyAuctions(uid) => a.SignedIn? && m[id].start.owner == uid
    case MyBids(uid) => a.SignedIn? && exists v :: v in m[id].bids && m[id].bids[v].bidder == uid
    case ShowRecord(aid) => id == aid
    case BidOn(_, pass, aid, _) => a == SignedIn(pass) && id == aid
    case Close(uid, pass, text) => a == SignedIn(pass) && Named(m, text) && Num(text) == id && m[id].start.owner == uid
    case _ => false
  }

  /** What END of auction `id` holds after a request. */
  function EndAfter(a: Account, m: map<nat, Auction>, r: Request, id: nat, t1: nat, t2: nat): Option<End>
    requires ValidRequest(r) && id in m
  {
    var x := m[id];
    var deadline := x.start.startTime + x.start.timeActive;
    if x.end.Some? || !LooksAt(a, m, r, id) then x.end
    else if t1 >= deadline then Some(End(deadline, x.start.timeActive))
    else if r.Close? then Some(End(t2, t2 - x.start.startTime))
    else None
  }

  lemma NoticeEnds(s: State, ids: set<nat>, now: nat, id: nat)
    requires id in s.auctions
    ensures var x := s.auctions[id];
            var deadline := x.start.startTime + x.start.timeActive;
            Notice(s, ids, now).auctions[id].end ==
            if x.end.None? && id in ids && now >= deadline then Some(End(deadline, x.start.timeActive)) else x.end
  {
  }

  lemma ListEnds(s: State, r: Request, t1: nat, t2: nat, a: Account, id: nat)
    requires r.List? && id in s.auctions
    ensures var after := ListStep(s, r.firstEntry, t1).0.auctions;
            id in after && after[id].end == EndAfter(a, s.auctions, r, id, t1, t2)
  {
  }

  lemma OwnListEnds(s: State, r: Request, t1: nat, t2: nat, a: Account, id: nat)
    requires (r.MyAuctions? || r.MyBids?) && ValidRequest(r) && id in s.auctions && AccountIs(s, r.uid, a)
    requires UsersOk(s.users, s.auctions)
    ensures var after := Step(s, r, t1, t2).0.auctions;
            id in after && after[id].end == EndAfter(a, s.auctions, r, id, t1, t2)
  {
    var ids := if r.MyAuctions? then HostedOf(s, r.uid) else BiddedOf(s, r.uid);
    NoticeEnds(s, ids, t1, id);
    if r.uid in s.users {
      var u := s.users[r.uid];
      assert UserOk(u, r.uid, s.auctions);
      assert id in u.hosted <==> Hosts(s.auctions, id, r.uid);
      assert id in u.bidded <==> BidsIn(s.auctions, id, r.uid);
    }
  }

  lemma RecordEnds(s: State, r: Request, t1: nat, t2: nat, a: Account, id: nat)
    requires r.ShowRecord? && r.aid <= 999 && id in s.auctions
    ensures var after := RecordStep(s, r.aid, t1).0.auctions;
            id in after && after[id].end == EndAfter(a, s.auctions, r, id, t1, t2)
  {
  }

  lemma BidEnds(s: State, r: Request, t1: nat, t2: nat, a: Account, id: nat)
    requires r.BidOn? && ValidRequest(r) && id in s.auctions && AccountIs(s, r.uid, a)
    ensures var after := BidStep(s, r.uid, r.pass, r.aid, r.value, t1, t2).0.auctions;
            id in after && after[id].end == EndAfter(a, s.auctions, r, id, t1, t2)
  {
  }

  lemma CloseEnds(s: State, r: Request, t1: nat, t2: nat, a: Account, id: nat)
    requires r.Close? && ValidRequest(r) && id in s.auctions && AccountIs(s, r.uid, a)
    requires UsersOk(s.users, s.auctions) && 0 !in s.auctions
    ensures var after := CloseStep(s, r.uid, r.pass, r.aidText, t1, t2).0.auctions;
            id in after && after[id].end == EndAfter(a, s.auctions, r, id, t1, t2)
  {
    var n := Num(r.aidText);
    NoticeEnds(s, {n}, t1, id);
    DirectoryNames(s, r.aidText);
    if r.uid in s.users {
      assert UserOk(s.users[r.uid], r.uid, s.auctions);
      assert n in s.users[r.uid].hosted <==> Hosts(s.auctions, n, r.uid);
    }
  }

  lemma QueryEnds(s: State, r: Request, t1: nat, t2: nat, a: Account, id: nat)
    requires ValidRequest(r) && IsQuery(r) && id in s.auctions && AccountIs(s, UserOf(r), a)
    requires UsersOk(s.users, s.auctions)
    ensures var after := Step(s, r, t1, t2).0.auctions;
            id in after && after[id].end == EndAfter(a, s.auctions, r, id, t1, t2)
  {
    if r.List? {
      ListEnds(s, r, t1, t2, a, id);
    } else if r.ShowRecord? {
      RecordEnds(s, r, t1, t2, a, id);
    } else if !r.ShowAsset? {
      OwnListEnds(s, r, t1, t2, a, id);
    }
  }

  lemma OpenEnds(s: State, r: Request, now: nat, id: nat)
    requires r.Open? && Dense(s) && id in s.auctions
    ensures var after := OpenStep(s, r, now).0.auctions; id in after && after[id].end == s.auctions[id].end
  {
  }

  lemma StepEnds(s: State, r: Request, t0: nat, t1: nat, t2: nat, a: Account, id: nat)
    requires ValidRequest(r) && Inv(s, t0) && id in s.auctions && AccountIs(s, UserOf(r), a)
    ensures var after := Step(s, r, t1, t2).0.auctions;
            id in after && after[id].end == EndAfter(a, s.auctions, r, id, t1, t2)
  {
    if IsQuery(r) {
      QueryEnds(s, r, t1, t2, a, id);
    } else if r.BidOn? {
      BidEnds(s, r, t1, t2, a, id);
    } else if r.Close? {
      CloseEnds(s, r, t1, t2, a, id);
    } else if r.Open? {
      OpenEnds(s, r, t2, id);
    }
  }

  lemma NextFiles(inputs: seq<Incoming>, log: seq<Entry>, i: nat)
    requires |inputs| == |log| && i < |inputs| && ValidRun(RunOf(inputs, log)) && log[i].parsed.Good?
    ensures ValidRequest(log[i].parsed.req)
    ensures Files(inputs, log, i + 1) ==
            Step(Files(inputs, log, i), log[i].parsed.req, Opening(inputs[i]), Closing(inputs[i])).0
  {
    EarlierIsValid(inputs, log, i);
    EarlierIsValid(inputs, log, i + 1);
    var e := NextIs(inputs, log, i);
    var before, after := Earlier(inputs, log, i), Earlier(inputs, log, i + 1);
    assert after[..|before|] == before;
  }

  /** Main result: a message leaves END of an auction alone unless its request makes the server look at the auction;
      then, if there was no END, the scheduled end is written when its time has come, and a close writes its own
      moment before that. */
  lemma EndOnFileExactly(inputs: seq<Incoming>, log: seq<Entry>, replies: seq<string>, cal: Calendar, i: nat, id: nat)
    requires Conversation(inputs, log, replies, cal) && i < |inputs| && id in Files(inputs, log, i).auctions
    ensures var m, after := Files(inputs, log, i).auctions, Files(inputs, log, i + 1).auctions;
            id in after &&
            match log[i].parsed
            case Bad(_) => after[id].end == m[id].end
            case Good(r) =>
              ValidRequest(r) &&
              after[id].end == EndAfter(AccountAfter(Earlier(inputs, log, i), UserOf(r)), m, r, id, Opening(inputs[i]),
                                        Closing(inputs[i]))
  {
    match log[i].parsed {
      case Bad(_) => var firstEntry, upload := MalformedExactly(inputs, log, replies, cal, i);
      case Good(r) =>
        var a := AccountOnFile(inputs, log, i, UserOf(r));
        NextFiles(inputs, log, i);
        StepEnds(Files(inputs, log, i), r, EndTime(Earlier(inputs, log, i)), Opening(inputs[i]), Closing(inputs[i]), a,
                 id);
    }
  }

  // ---------- Directories of users ----------

  ghost predicate RegisteredBy(log: seq<Entry>, replies: seq<string>, i: nat, uid: string)
    requires |log| == |replies|
  {
    exists j: nat :: j < i && RegistersAt(log, replies, j, uid)
  }

  predicate RegistersAt(log: seq<Entry>, replies: seq<string>, j: nat, uid: string)
    requires |log| == |replies|
  {
    j < |log| && log[j].parsed.Good? && log[j].parsed.req.Login? && log[j].parsed.req.uid == uid &&
    replies[j] == "RLI REG\n"
  }

  lemma DirectoriesMove(s: State, r: Request, t1: nat, t2: nat, uid: string)
    requires ValidRequest(r)
    ensures uid in Step(s, r, t1, t2).0.users <==>
            uid in s.users || (r.Login? && r.uid == uid)
  {
  }

  lemma UsersMove(inputs: seq<Incoming>, log: seq<Entry>, replies: seq<string>, cal: Calendar, i: nat, uid: string)
    requires Conversation(inputs, log, replies, cal) && i < |inputs|
    ensures uid in Files(inputs, log, i + 1).users <==>
            uid in Files(inputs, log, i).users || RegistersAt(log, replies, i, uid)
  {
    if log[i].parsed.Bad? {
      var firstEntry, upload := MalformedExactly(inputs, log, replies, cal, i);
    } else {
      var r := log[i].parsed.req;
      NextFiles(inputs, log, i);
      DirectoriesMove(Files(inputs, log, i), r, Opening(inputs[i]), Closing(inputs[i]), uid);
      if r.Login? { LoginExactly(inputs, log, replies, cal, i, r.uid, r.pass); }
    }
  }

  lemma OneMoreReply(log: seq<Entry>, replies: seq<string>, i: nat, uid: string)
    requires |log| == |replies|
    ensures RegisteredBy(log, replies, i + 1, uid) <==>
            RegisteredBy(log, replies, i, uid) || RegistersAt(log, replies, i, uid)
  {
  }

  /** Main result: a user has a directory exactly when one of its LINs was answered REG; unregistering does not
      remove it. */
  lemma {:induction false} DirectoryIffRegistered(inputs: seq<Incoming>, log: seq<Entry>, replies: seq<string>,
                                                  cal: Calendar, i: nat, uid: string)
    requires Conversation(inputs, log, replies, cal) && i <= |inputs|
    ensures uid in Files(inputs, log, i).users <==> RegisteredBy(log, replies, i, uid)
  {
    if i > 0 {
      DirectoryIffRegistered(inputs, log, replies, cal, i - 1, uid);
      UsersMove(inputs, log, replies, cal, i - 1, uid);
      OneMoreReply(log, replies, i - 1, uid);
    }
  }
}
