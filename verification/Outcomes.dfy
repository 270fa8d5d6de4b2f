/** What each line the main loop sends tells the client about the files of the server, both ways. */
module Outcomes {
  import opened Text
  import opened Domain
  import opened LazyServer
  import opened IdealServer
  import opened Invariants
  import opened Wire
  import opened FileText
  import opened Requests
  import opened Serving
  import opened Protocol
  import opened Client
  import opened Handling
  import opened Streams
  import EndToEnd

  /** Messages answered by the main loop, see `Serve`. */
  ghost predicate Conversation(inputs: seq<Incoming>, log: seq<Entry>, replies: seq<string>, cal: Calendar)
  {
    |inputs| == |log| == |replies| && ValidRun(RunOf(inputs, log)) && AllAnswered(inputs, log, replies, |inputs|, cal)
  }

  /** The requests among the first `i` messages. */
  function Earlier(inputs: seq<Incoming>, log: seq<Entry>, i: nat): seq<Event>
    requires |inputs| == |log| && i <= |inputs|
  {
    RunOf(inputs[..i], log[..i])
  }

  lemma EarlierIsValid(inputs: seq<Incoming>, log: seq<Entry>, i: nat)
    requires |inputs| == |log| && i <= |inputs| && ValidRun(RunOf(inputs, log))
    ensures ValidRun(Earlier(inputs, log, i))
    ensures i < |inputs| && log[i].parsed.Good? ==>
              EndTime(Earlier(inputs, log, i)) <= Opening(inputs[i]) && ValidRequest(log[i].parsed.req)
  {
    EndToEnd.RunPrefix(inputs, log, i);
    var run, before := RunOf(inputs, log), Earlier(inputs, log, i);
    ValidPrefix(run, |before|);
  }

  /** What the files hold before message `i`. */
  ghost function Files(inputs: seq<Incoming>, log: seq<Entry>, i: nat): State
    requires |inputs| == |log| && i <= |inputs| && ValidRun(RunOf(inputs, log))
  {
    EarlierIsValid(inputs, log, i);
    Reached(Earlier(inputs, log, i))
  }

  /** Main result: whatever arrives, the main loop answers each request with the text that the requests before
      it call for. */
  lemma EveryReplySent(inputs: seq<Incoming>, log: seq<Entry>, replies: seq<string>, cal: Calendar, i: nat)
    requires Conversation(inputs, log, replies, cal) && i < |inputs| && log[i].parsed.Good?
    ensures var run, r := Earlier(inputs, log, i), log[i].parsed.req;
            ValidRun(run) && ValidRequest(r) &&
            var m := AuctionsAfter(run);
            (r.ShowRecord? && r.aid in m ==> Enumerates(log[i].order, m[r.aid].bids)) &&
            replies[i] == Expected(AccountAfter(run, UserOf(r)), m, r, Opening(inputs[i]), log[i].order, cal)
  {
    EarlierIsValid(inputs, log, i);
    EndToEnd.RunPrefix(inputs, log, i);
    EndToEnd.MessageReply(inputs, log, replies, cal, i);
    EveryReply(RunOf(inputs, log), |Earlier(inputs, log, i)|, log[i].order, cal);
  }

  // ---------- What the files say of accounts and auctions ----------

  lemma AccountOnFile(inputs: seq<Incoming>, log: seq<Entry>, i: nat, uid: string) returns (a: Account)
    requires |inputs| == |log| && i <= |inputs| && ValidRun(RunOf(inputs, log))
    ensures a == AccountAfter(Earlier(inputs, log, i), uid) && AccountIs(Files(inputs, log, i), uid, a)
    ensures Inv(Files(inputs, log, i), EndTime(Earlier(inputs, log, i)))
  {
    EarlierIsValid(inputs, log, i);
    a := AccountAfter(Earlier(inputs, log, i), uid);
    AccountsFollow(Earlier(inputs, log, i), uid);
    ReachedInv(Earlier(inputs, log, i));
  }

  /** The files and the auctions made by the requests differ in the ends already noticed only. */
  ghost predicate SameButNoticed(l: map<nat, Auction>, m: map<nat, Auction>, now: nat)
  {
    l.Keys == m.Keys &&
    forall id | id in l ::
      l[id].start == m[id].start && l[id].bids == m[id].bids && l[id].asset == m[id].asset &&
      (Runs(l, id, now) <==> Runs(m, id, now))
  }

  lemma AuctionsOnFile(run: seq<Event>, now: nat)
    requires ValidRun(run) && EndTime(run) <= now
    ensures SameButNoticed(Reached(run).auctions, AuctionsAfter(run), now)
  {
    ReachedSimulates(run);
    AuctionsFollow(run);
    var l, i := Reached(run), IdealReached(run);
    forall id | id in l.auctions
      ensures SameAuction(l.auctions[id], i.auctions[id], EndTime(run))
    {
    }
  }

  // ---------- Accounts ----------

  lemma ThirdLetters()
    ensures "RLI REG\n"[4] == 'R' && "RLI OK\n"[4] == 'O' && "RLI NOK\n"[4] == 'N'
    ensures "RLO OK\n"[4] == 'O' && "RLO UNR\n"[4] == 'U' && "RLO NOK\n"[4] == 'N'
    ensures "RUR OK\n"[4] == 'O' && "RUR NOK\n"[4] == 'N'
  {
  }

  /** Main result: LIN is answered REG exactly when no password of the user is on file, OK exactly when the
      password on file is the given one and the user is logged out, NOK in all other cases. */
  lemma LoginExactly(inputs: seq<Incoming>, log: seq<Entry>, replies: seq<string>, cal: Calendar, i: nat, uid: string,
                     pass: string)
    requires Conversation(inputs, log, replies, cal) && i < |inputs| && log[i].parsed == Good(Login(uid, pass))
    ensures var users := Files(inputs, log, i).users;
            var registered := uid in users && users[uid].pass.Some?;
            var mayEnter := registered && users[uid].pass.value == pass && !users[uid].login;
            && (replies[i] == "RLI REG\n" <==> !registered)
            && (replies[i] == "RLI OK\n" <==> mayEnter)
            && (replies[i] == "RLI NOK\n" <==> registered && !mayEnter)
  {
    EveryReplySent(inputs, log, replies, cal, i);
    var a := AccountOnFile(inputs, log, i, uid);
    var s := Files(inputs, log, i);
    if uid in s.users { assert UserOk(s.users[uid], uid, s.auctions); }
    ThirdLetters();
  }

  /** LOU is answered OK exactly when the password on file is the given one and the user is logged in, UNR
      exactly when no password is on file, NOK in all other cases. */
  lemma LogoutExactly(inputs: seq<Incoming>, log: seq<Entry>, replies: seq<string>, cal: Calendar, i: nat, uid: string,
                      pass: string)
    requires Conversation(inputs, log, replies, cal) && i < |inputs| && log[i].parsed == Good(Logout(uid, pass))
    ensures var users := Files(inputs, log, i).users;
            var registered := uid in users && users[uid].pass.Some?;
            var mayLeave := registered && users[uid].pass.value == pass && users[uid].login;
            && (replies[i] == "RLO OK\n" <==> mayLeave)
            && (replies[i] == "RLO UNR\n" <==> !registered)
            && (replies[i] == "RLO NOK\n" <==> registered && !mayLeave)
  {
    EveryReplySent(inputs, log, replies, cal, i);
    var a := AccountOnFile(inputs, log, i, uid);
    var s := Files(inputs, log, i);
    if uid in s.users { assert UserOk(s.users[uid], uid, s.auctions); }
    ThirdLetters();
  }

  /** UNR is answered OK exactly when the password on file is the given one and the user is logged in, NOK
      otherwise: an unknown user gets no line of its own. */
  lemma UnregisterExactly(inputs: seq<Incoming>, log: seq<Entry>, replies: seq<string>, cal: Calendar, i: nat,
                          uid: string, pass: string)
    requires Conversation(inputs, log, replies, cal) && i < |inputs| && log[i].parsed == Good(Unregister(uid, pass))
    ensures var users := Files(inputs, log, i).users;
            var mayLeave := uid in users && users[uid].pass == Some(pass) && users[uid].login;
            && (replies[i] == "RUR OK\n" <==> mayLeave)
            && (replies[i] == "RUR NOK\n" <==> !mayLeave)
  {
    EveryReplySent(inputs, log, replies, cal, i);
    var a := AccountOnFile(inputs, log, i, uid);
    ThirdLetters();
  }

  ghost predicate Entered(log: seq<Entry>, replies: seq<string>, j: nat, uid: string)
    requires |log| == |replies|
  {
    j < |log| && log[j].parsed.Good? && log[j].parsed.req.Login? && log[j].parsed.req.uid == uid &&
    (replies[j] == "RLI REG\n" || replies[j] == "RLI OK\n")
  }

  ghost predicate Removed(log: seq<Entry>, replies: seq<string>, j: nat, uid: string)
    requires |log| == |replies|
  {
    j < |log| && log[j].parsed.Good? && log[j].parsed.req.Unregister? && log[j].parsed.req.uid == uid &&
    replies[j] == "RUR OK\n"
  }

  /** Each successful LIN of the user among the first `i` messages is followed by a successful UNR. */
  ghost predicate AllRemoved(log: seq<Entry>, replies: seq<string>, i: nat, uid: string)
    requires |log| == |replies|
  {
    forall j: nat | j < i && Entered(log, replies, j, uid) ::
      exists k: nat :: j < k < i && Removed(log, replies, k, uid)
  }

  lemma AllRemovedStep(log: seq<Entry>, replies: seq<string>, i: nat, uid: string)
    requires |log| == |replies| && i < |log|
    ensures Entered(log, replies, i, uid) ==> !AllRemoved(log, replies, i + 1, uid)
    ensures Removed(log, replies, i, uid) ==> AllRemoved(log, replies, i + 1, uid)
    ensures !Entered(log, replies, i, uid) && !Removed(log, replies, i, uid) ==>
              (AllRemoved(log, replies, i + 1, uid) <==> AllRemoved(log, replies, i, uid))
  {
  }

  /** How one message changes an account, by its reply. */
  lemma AccountByReply(inputs: seq<Incoming>, log: seq<Entry>, replies: seq<string>, cal: Calendar, i: nat, uid: string)
    requires Conversation(inputs, log, replies, cal) && i < |inputs|
    ensures var a, b := AccountAfter(Earlier(inputs, log, i), uid), AccountAfter(Earlier(inputs, log, i + 1), uid);
            && (Entered(log, replies, i, uid) ==> b.SignedIn?)
            && (Removed(log, replies, i, uid) ==> b == Unregistered)
            && (!Entered(log, replies, i, uid) && !Removed(log, replies, i, uid) ==>
                  (a == Unregistered <==> b == Unregistered))
  {
    RunGrowsBy(inputs, log[..i], i, log[i]);
    assert log[..i] + [log[i]] == log[..i + 1];
    var before, after := Earlier(inputs, log, i), Earlier(inputs, log, i + 1);
    if log[i].parsed.Good? {
      EveryReplySent(inputs, log, replies, cal, i);
      assert after[..|after| - 1] == before;
      ThirdLetters();
    } else {
      assert after == before;
    }
  }

  /** Main result: a user is unregistered exactly when every successful LIN of it was followed by a successful
      UNR. With `LoginExactly` this says which LIN is answered REG by the lines sent before. */
  lemma {:induction false} RegisteredByReplies(inputs: seq<Incoming>, log: seq<Entry>, replies: seq<string>,
                                               cal: Calendar, i: nat, uid: string)
    requires Conversation(inputs, log, replies, cal) && i <= |inputs|
    ensures AccountAfter(Earlier(inputs, log, i), uid) == Unregistered <==> AllRemoved(log, replies, i, uid)
  {
    if i > 0 {
      RegisteredByReplies(inputs, log, replies, cal, i - 1, uid);
      AccountByReply(inputs, log, replies, cal, i - 1, uid);
      AllRemovedStep(log, replies, i - 1, uid);
    }
  }

  /** What is known when request `i` is answered: `a` and `m` are what the earlier requests make of the account
      of its user and of the auctions. */
  ghost predicate Known(inputs: seq<Incoming>, log: seq<Entry>, replies: seq<string>, cal: Calendar, i: nat,
                        a: Account, m: map<nat, Auction>)
    requires Conversation(inputs, log, replies, cal) && i < |inputs|
  {
    && log[i].parsed.Good? && ValidRequest(log[i].parsed.req)
    && var s, r, t1, t2 := Files(inputs, log, i), log[i].parsed.req, Opening(inputs[i]), Closing(inputs[i]);
       && AccountIs(s, UserOf(r), a) && SameButNoticed(s.auctions, m, t1)
       && SameButNoticed(Files(inputs, log, i + 1).auctions, AuctionsStep(a, m, r, t1, t2), t2)
       && (r.ShowRecord? && r.aid in m ==> Enumerates(log[i].order, m[r.aid].bids))
       && replies[i] == Expected(a, m, r, t1, log[i].order, cal)
  }

  lemma AllKnown(inputs: seq<Incoming>, log: seq<Entry>, replies: seq<string>, cal: Calendar, i: nat)
    returns (a: Account, m: map<nat, Auction>)
    requires Conversation(inputs, log, replies, cal) && i < |inputs| && log[i].parsed.Good?
    ensures Known(inputs, log, replies, cal, i, a, m)
  {
    EveryReplySent(inputs, log, replies, cal, i);
    EarlierIsValid(inputs, log, i);
    var before, r := Earlier(inputs, log, i), log[i].parsed.req;
    a, m := AccountAfter(before, UserOf(r)), AuctionsAfter(before);
    AccountsFollow(before, UserOf(r));
    AuctionsOnFile(before, Opening(inputs[i]));
    NextAuctions(inputs, log, i);
  }

  /** A request is the next event of the run. */
  lemma NextIs(inputs: seq<Incoming>, log: seq<Entry>, i: nat) returns (e: Event)
    requires |inputs| == |log| && i < |inputs| && log[i].parsed.Good?
    ensures e == Event(log[i].parsed.req, Opening(inputs[i]), Closing(inputs[i]))
    ensures Earlier(inputs, log, i + 1) == Earlier(inputs, log, i) + [e]
  {
    e := Event(log[i].parsed.req, Opening(inputs[i]), Closing(inputs[i]));
    RunGrowsBy(inputs, log[..i], i, log[i]);
    assert log[..i] + [log[i]] == log[..i + 1];
  }

  lemma NextAuctions(inputs: seq<Incoming>, log: seq<Entry>, i: nat)
    requires |inputs| == |log| && i < |inputs| && ValidRun(RunOf(inputs, log)) && log[i].parsed.Good?
    ensures ValidRun(Earlier(inputs, log, i)) && ValidRequest(log[i].parsed.req)
    ensures var before, r, t1, t2 := Earlier(inputs, log, i), log[i].parsed.req, Opening(inputs[i]), Closing(inputs[i]);
            var a, m := AccountAfter(before, UserOf(r)), AuctionsAfter(before);
            SameButNoticed(Files(inputs, log, i + 1).auctions, AuctionsStep(a, m, r, t1, t2), t2)
  {
    EarlierIsValid(inputs, log, i);
    EarlierIsValid(inputs, log, i + 1);
    var e := NextIs(inputs, log, i);
    OneMore(Earlier(inputs, log, i), e);
    AuctionsOnFile(Earlier(inputs, log, i + 1), Closing(inputs[i]));
  }

  // ---------- Bids ----------

  predicate BidIsOnFile(m: map<nat, Auction>, id: nat, value: nat) { id in m && value in m[id].bids }

  lemma BidIsMade(before: map<nat, Auction>, after: map<nat, Auction>, a: Account, m: map<nat, Auction>, r: Request,
                  t1: nat, t2: nat)
    requires r.BidOn? && SameButNoticed(before, m, t1) && SameButNoticed(after, AfterBid(a, m, r, t1, t2), t2)
    ensures MayBid(a, m, r, t1) <==> !BidIsOnFile(before, r.aid, r.value) && BidIsOnFile(after, r.aid, r.value)
  {
  }

  /** Main result: BID is answered ACC exactly when the value was not on file before and is after it; NLG, NOK,
      ILG and REF exactly under their conditions on the files before. */
  lemma BidExactly(inputs: seq<Incoming>, log: seq<Entry>, replies: seq<string>, cal: Calendar, i: nat, uid: string,
                   pass: string, id: nat, value: nat)
    requires Conversation(inputs, log, replies, cal) && i < |inputs|
    requires log[i].parsed == Good(BidOn(uid, pass, id, value))
    ensures var s, after, now := Files(inputs, log, i), Files(inputs, log, i + 1).auctions, Opening(inputs[i]);
            var loggedIn := uid in s.users && s.users[uid].login;
            var mayBid := loggedIn && s.users[uid].pass == Some(pass) && Runs(s.auctions, id, now);
            && (replies[i] == "RBD ACC\n" <==>
                  !BidIsOnFile(s.auctions, id, value) && BidIsOnFile(after, id, value))
            && (replies[i] == "RBD NLG\n" <==> !loggedIn)
            && (replies[i] == "RBD NOK\n" <==> loggedIn && !mayBid)
            && (replies[i] == "RBD ILG\n" <==> mayBid && s.auctions[id].start.owner == uid)
            && (replies[i] == "RBD REF\n" <==>
                  mayBid && s.auctions[id].start.owner != uid &&
                  (value <= s.auctions[id].start.startValue || exists v :: v in s.auctions[id].bids && value <= v))
  {
    var a, m := BidKnown(inputs, log, replies, cal, i);
    var s, after := Files(inputs, log, i), Files(inputs, log, i + 1).auctions;
    var r, t1, t2 := log[i].parsed.req, Opening(inputs[i]), Closing(inputs[i]);
    BidIsMade(s.auctions, after, a, m, r, t1, t2);
    BidMeans(s, a, m, r, t1);
  }

  lemma BidKnown(inputs: seq<Incoming>, log: seq<Entry>, replies: seq<string>, cal: Calendar, i: nat)
    returns (a: Account, m: map<nat, Auction>)
    requires Conversation(inputs, log, replies, cal) && i < |inputs|
    requires log[i].parsed.Good? && log[i].parsed.req.BidOn?
    ensures var r, t1, t2 := log[i].parsed.req, Opening(inputs[i]), Closing(inputs[i]);
            var s, after := Files(inputs, log, i), Files(inputs, log, i + 1).auctions;
            && replies[i] == ReplyToBid(a, m, r, t1) && AccountIs(s, r.uid, a)
            && SameButNoticed(s.auctions, m, t1) && SameButNoticed(after, AfterBid(a, m, r, t1, t2), t2)
  {
    a, m := AllKnown(inputs, log, replies, cal, i);
  }

  /** What a reply says of the files. */
  lemma BidMeans(s: State, a: Account, m: map<nat, Auction>, r: Request, now: nat)
    requires r.BidOn? && AccountIs(s, r.uid, a) && SameButNoticed(s.auctions, m, now)
    ensures var text, auctions := ReplyToBid(a, m, r, now), s.auctions;
            var loggedIn := r.uid in s.users && s.users[r.uid].login;
            var mayBid := loggedIn && s.users[r.uid].pass == Some(r.pass) && Runs(auctions, r.aid, now);
            && (text == "RBD ACC\n" <==> MayBid(a, m, r, now))
            && (text == "RBD NLG\n" <==> !loggedIn)
            && (text == "RBD NOK\n" <==> loggedIn && !mayBid)
            && (text == "RBD ILG\n" <==> mayBid && auctions[r.aid].start.owner == r.uid)
            && (text == "RBD REF\n" <==>
                  mayBid && auctions[r.aid].start.owner != r.uid &&
                  (r.value <= auctions[r.aid].start.startValue ||
                   exists v :: v in auctions[r.aid].bids && r.value <= v))
  {
  }

  // ---------- Closes ----------

  lemma CloseTexts(a: Account, m: map<nat, Auction>, r: Request, now: nat)
    requires r.Close? && GoodAidText(r.aidText)
    ensures var text, id := ReplyToClose(a, m, r, now), Num(r.aidText);
            var named := a == SignedIn(r.pass) && Named(m, r.aidText);
            var hosted := named && m[id].start.owner == r.uid;
            && (text == "RCL OK\n" <==> hosted && Runs(m, id, now))
            && (text == "RCL END\n" <==> hosted && !Runs(m, id, now))
            && (text == "RCL EOW\n" <==> a == SignedIn(r.pass) && (r.aidText == "" || named) && !hosted)
            && (text == "RCL EAU\n" <==> a == SignedIn(r.pass) && r.aidText != "" && !named)
            && (text == "RCL NOK\n" <==> a.SignedIn? && a.pass != r.pass)
            && (text == "RCL NLG\n" <==> !a.SignedIn?)
  {
  }

  /** Main result: CLS is answered OK exactly when the logged-in host, with its password, names an auction that
      runs, END exactly when it names one that is over, and so on for the rest. */
  lemma CloseExactly(inputs: seq<Incoming>, log: seq<Entry>, replies: seq<string>, cal: Calendar, i: nat, uid: string,
                     pass: string, text: string)
    requires Conversation(inputs, log, replies, cal) && i < |inputs| && log[i].parsed == Good(Close(uid, pass, text))
    ensures AllDigits(text)
    ensures var s, id, now := Files(inputs, log, i), Num(text), Opening(inputs[i]);
            var loggedIn := uid in s.users && s.users[uid].login;
            var trusted := loggedIn && s.users[uid].pass == Some(pass);
            var named := trusted && Named(s.auctions, text);
            var hosted := named && s.auctions[id].start.owner == uid;
            && (replies[i] == "RCL OK\n" <==> hosted && Runs(s.auctions, id, now))
            && (replies[i] == "RCL END\n" <==> hosted && !Runs(s.auctions, id, now))
            && (replies[i] == "RCL EOW\n" <==> trusted && (text == "" || named) && !hosted)
            && (replies[i] == "RCL EAU\n" <==> trusted && text != "" && !named)
            && (replies[i] == "RCL NOK\n" <==> loggedIn && !trusted)
            && (replies[i] == "RCL NLG\n" <==> !loggedIn)
  {
    var a, m := AllKnown(inputs, log, replies, cal, i);
    CloseTexts(a, m, log[i].parsed.req, Opening(inputs[i]));
  }

  // ---------- Opens ----------

  /** The line an open gets: NLG exactly when the password on file is the given one and the user is logged out,
      OK and the next number exactly when password, login and file are right, NOK in all other cases. */
  predicate OpenTold(reply: string, s: State, uid: string, pass: string, fileIsRight: bool)
  {
    var known := uid in s.users && s.users[uid].pass == Some(pass);
    var granted := known && s.users[uid].login && fileIsRight;
    && (reply == "ROA NLG\n" <==> known && !s.users[uid].login)
    && (reply == "ROA OK " + Pad3(|s.auctions| + 1) + "\n" <==> granted)
    && (reply == "ROA NOK\n" <==> !granted && (known ==> s.users[uid].login))
  }

  /** Main result: the answer to any OPA, by the files before it and the upload. */
  lemma OpenExactly(inputs: seq<Incoming>, log: seq<Entry>, replies: seq<string>, cal: Calendar, i: nat, r: Request)
    requires Conversation(inputs, log, replies, cal) && i < |inputs| && log[i].parsed == Good(r) && r.Open?
    ensures OpenTold(replies[i], Files(inputs, log, i), r.uid, r.pass,
                     r.upload.complete && r.upload.received != "" && r.fname != "." && r.fname != "..")
  {
    var a, m := AllKnown(inputs, log, replies, cal, i);
    OpenMeans(Files(inputs, log, i), a, m, r);
  }

  lemma OpenMeans(s: State, a: Account, m: map<nat, Auction>, r: Request)
    requires r.Open? && AccountIs(s, r.uid, a) && s.auctions.Keys == m.Keys
    ensures OpenTold(ReplyToOpen(a, r, |m|), s, r.uid, r.pass,
                     r.upload.complete && r.upload.received != "" && r.fname != "." && r.fname != "..")
  {
  }

  /** What an open by a logged-in user with its password puts on file, whatever the reply; other opens put
      nothing there. */
  lemma OpenedOnFile(inputs: seq<Incoming>, log: seq<Entry>, replies: seq<string>, cal: Calendar, i: nat, r: Request)
    requires Conversation(inputs, log, replies, cal) && i < |inputs| && log[i].parsed == Good(r) && r.Open?
    ensures var s, after := Files(inputs, log, i), Files(inputs, log, i + 1).auctions;
            var n := |s.auctions| + 1;
            if r.uid in s.users && s.users[r.uid].pass == Some(r.pass) && s.users[r.uid].login then
              var st := Start(r.uid, r.name, r.fname, r.startValue, r.timeActive, Closing(inputs[i]));
              n !in s.auctions && after.Keys == s.auctions.Keys + {n} &&
              after[n].start == st && after[n].bids == map[] &&
              after[n].asset == if r.fname == "." || r.fname == ".." then None else Some(r.upload.received)
            else
              after.Keys == s.auctions.Keys
  {
    var a, m := AllKnown(inputs, log, replies, cal, i);
    var b := AccountOnFile(inputs, log, i, r.uid);
    var s, after := Files(inputs, log, i), Files(inputs, log, i + 1).auctions;
    OpenShows(s, after, a, m, r, Opening(inputs[i]), Closing(inputs[i]));
  }

  lemma OpenShows(s: State, after: map<nat, Auction>, a: Account, m: map<nat, Auction>, r: Request, t1: nat, t2: nat)
    requires r.Open? && AccountIs(s, r.uid, a) && Dense(s) && SameButNoticed(s.auctions, m, t1)
    requires SameButNoticed(after, AfterOpen(a, m, r, t2), t2)
    ensures var n := |s.auctions| + 1;
            if r.uid in s.users && s.users[r.uid].pass == Some(r.pass) && s.users[r.uid].login then
              n !in s.auctions && after.Keys == s.auctions.Keys + {n} &&
              after[n].start == Start(r.uid, r.name, r.fname, r.startValue, r.timeActive, t2) &&
              after[n].bids == map[] &&
              after[n].asset == if r.fname == "." || r.fname == ".." then None else Some(r.upload.received)
            else
              after.Keys == s.auctions.Keys
  {
  }

  /** The same from the bytes of the stream: `rest` is what follows the header, which announces `fsize` bytes. When
      exactly these arrive and nothing behind them, the file may be taken as right or as wrong. */
  lemma OpenStreamExactly(inputs: seq<Incoming>, log: seq<Entry>, replies: seq<string>, cal: Calendar, i: nat,
                          x: OpenArgs, rest: string)
    requires Conversation(inputs, log, replies, cal) && i < |inputs| && inputs[i].Connection?
    requires var stream := inputs[i].stream; OpensWith(stream) && ParseOpen(Rest(stream, 4)) == OpenHeader(x, rest)
    ensures var arrived := x.fsize > 0 && |rest| > x.fsize && rest[x.fsize] == '\n';
            var named, s := x.fname != "." && x.fname != "..", Files(inputs, log, i);
            OpenTold(replies[i], s, x.uid, x.pass, arrived && named) ||
            (|rest| == x.fsize && OpenTold(replies[i], s, x.uid, x.pass, x.fsize > 0 && named))
  {
    var upload := UploadLogged(inputs, log, replies, cal, i, x, rest);
    OpenExactly(inputs, log, replies, cal, i, OpenRequest(x, upload));
    WholeArrives(rest, x.fsize, upload);
  }

  lemma UploadLogged(inputs: seq<Incoming>, log: seq<Entry>, replies: seq<string>, cal: Calendar, i: nat, x: OpenArgs,
                     rest: string)
    returns (upload: Upload)
    requires Conversation(inputs, log, replies, cal) && i < |inputs| && inputs[i].Connection?
    requires var stream := inputs[i].stream; OpensWith(stream) && ParseOpen(Rest(stream, 4)) == OpenHeader(x, rest)
    ensures log[i].parsed == Good(OpenRequest(x, upload)) && UploadFrom(rest, x.fsize, upload)
  {
    var stream := inputs[i].stream;
    assert AnsweredAt(inputs, log, replies, i, cal);
    upload :| UploadOf(stream, upload) && log[i].parsed == ParseTcp(stream, upload);
  }

  lemma WholeArrives(rest: string, fsize: nat, upload: Upload)
    requires UploadFrom(rest, fsize, upload)
    ensures var right := upload.complete && upload.received != "";
            right == (fsize > 0 && |rest| > fsize && rest[fsize] == '\n') || (|rest| == fsize && right == (fsize > 0))
  {
  }

  /** Message `j` makes auction `id`. */
  ghost predicate Opens(inputs: seq<Incoming>, log: seq<Entry>, j: nat, id: nat)
    requires |inputs| == |log| && j < |inputs| && ValidRun(RunOf(inputs, log))
  {
    log[j].parsed.Good? && log[j].parsed.req.Open? &&
    var s, r := Files(inputs, log, j), log[j].parsed.req;
    id == |s.auctions| + 1 && r.uid in s.users && s.users[r.uid].pass == Some(r.pass) && s.users[r.uid].login
  }

  lemma KeysMove(inputs: seq<Incoming>, log: seq<Entry>, replies: seq<string>, cal: Calendar, i: nat, id: nat)
    requires Conversation(inputs, log, replies, cal) && i < |inputs|
    ensures var before, after := Files(inputs, log, i).auctions, Files(inputs, log, i + 1).auctions;
            id in after <==> id in before || Opens(inputs, log, i, id)
  {
    if log[i].parsed.Good? {
      var r := log[i].parsed.req;
      if r.Open? {
        OpenedOnFile(inputs, log, replies, cal, i, r);
      } else {
        OtherKeys(inputs, log, replies, cal, i);
      }
    } else {
      RunGrowsBy(inputs, log[..i], i, log[i]);
      assert log[..i] + [log[i]] == log[..i + 1];
      assert Earlier(inputs, log, i + 1) == Earlier(inputs, log, i);
    }
  }

  lemma OtherKeys(inputs: seq<Incoming>, log: seq<Entry>, replies: seq<string>, cal: Calendar, i: nat)
    requires Conversation(inputs, log, replies, cal) && i < |inputs| && log[i].parsed.Good? && !log[i].parsed.req.Open?
    ensures Files(inputs, log, i + 1).auctions.Keys == Files(inputs, log, i).auctions.Keys
  {
    var a, m := AllKnown(inputs, log, replies, cal, i);
    OtherRequestsKeepKeys(a, m, log[i].parsed.req, Opening(inputs[i]), Closing(inputs[i]));
  }

  lemma OtherRequestsKeepKeys(a: Account, m: map<nat, Auction>, r: Request, t1: nat, t2: nat)
    requires ValidRequest(r) && !r.Open?
    ensures AuctionsStep(a, m, r, t1, t2).Keys == m.Keys
  {
  }

  ghost predicate OpenedBefore(inputs: seq<Incoming>, log: seq<Entry>, i: nat, id: nat)
    requires |inputs| == |log| && i <= |inputs| && ValidRun(RunOf(inputs, log))
  {
    exists j: nat :: j < i && Opens(inputs, log, j, id)
  }

  /** Main result: the auctions on file are those that an earlier OPA of a logged-in user with its password made,
      numbered in the order they came. */
  lemma {:induction false} OnFileIffOpened(inputs: seq<Incoming>, log: seq<Entry>, replies: seq<string>, cal: Calendar,
                                           i: nat, id: nat)
    requires Conversation(inputs, log, replies, cal) && i <= |inputs|
    ensures id in Files(inputs, log, i).auctions <==> OpenedBefore(inputs, log, i, id)
  {
    if i > 0 {
      OnFileIffOpened(inputs, log, replies, cal, i - 1, id);
      KeysMove(inputs, log, replies, cal, i - 1, id);
      OneMoreMessage(inputs, log, i - 1, id);
    }
  }

  lemma OneMoreMessage(inputs: seq<Incoming>, log: seq<Entry>, i: nat, id: nat)
    requires |inputs| == |log| && i < |inputs| && ValidRun(RunOf(inputs, log))
    ensures OpenedBefore(inputs, log, i + 1, id) <==> OpenedBefore(inputs, log, i, id) || Opens(inputs, log, i, id)
  {
  }

  // ---------- Assets ----------

  lemma AssetLetters(rest: string)
    ensures StartsWith("RSA OK " + rest, "RSA OK") && "RSA OK " + rest != "RSA NOK\n"
  {
    var reply := "RSA OK " + rest;
    assert reply[..6] == "RSA OK" && reply[4] == 'O' && "RSA NOK\n"[4] == 'N';
  }

  lemma NothingLetters()
    ensures "RSA OK \n" == "RSA OK " + "\n" && !StartsWith("RSA NOK\n", "RSA OK")
  {
    assert "RSA NOK\n"[4] == 'N' && "RSA OK"[4] == 'O';
  }

  lemma AssetTexts(m: map<nat, Auction>, text: string)
    ensures Named(m, text) <==> ReplyToAsset(m, text) != "RSA NOK\n"
    ensures Named(m, text) <==> StartsWith(ReplyToAsset(m, text), "RSA OK")
  {
    NothingLetters();
    AssetLetters("\n");
    if Named(m, text) && m[Num(text)].asset.Some? {
      var a := m[Num(text)];
      var bytes := a.asset.value;
      var rest := Grouped("RSA OK ", a.start.fname, " ", Dec(|bytes|), bytes, "\n\n");
      AssetLetters(rest);
    }
  }

  lemma Grouped(head: string, fname: string, space: string, size: string, bytes: string, end: string)
    returns (rest: string)
    ensures head + fname + space + size + space + bytes + end == head + rest
  {
    rest := fname + space + size + space + bytes + end;
  }

  lemma NamedOnFile(s: State, m: map<nat, Auction>, text: string, now: nat)
    requires Dense(s) && SameButNoticed(s.auctions, m, now) && AllDigits(text)
    ensures Named(m, text) <==> |text| == 3 && 1 <= Num(text) <= |s.auctions|
  {
  }

  lemma AssetTold(inputs: seq<Incoming>, log: seq<Entry>, replies: seq<string>, cal: Calendar, i: nat, text: string)
    returns (m: map<nat, Auction>)
    requires Conversation(inputs, log, replies, cal) && i < |inputs| && log[i].parsed == Good(ShowAsset(text))
    ensures AllDigits(text) && replies[i] == ReplyToAsset(m, text)
    ensures Named(m, text) <==> |text| == 3 && 1 <= Num(text) <= |Files(inputs, log, i).auctions|
  {
    var a;
    a, m := AllKnown(inputs, log, replies, cal, i);
    var b := AccountOnFile(inputs, log, i, "");
    NamedOnFile(Files(inputs, log, i), m, text, Opening(inputs[i]));
  }

  /** Main result: SAS is answered NOK exactly when its text is not the three-digit name of an auction on file;
      every other reply starts with RSA OK. */
  lemma AssetExactly(inputs: seq<Incoming>, log: seq<Entry>, replies: seq<string>, cal: Calendar, i: nat, text: string)
    requires Conversation(inputs, log, replies, cal) && i < |inputs| && log[i].parsed == Good(ShowAsset(text))
    ensures AllDigits(text)
    ensures var named := |text| == 3 && 1 <= Num(text) <= |Files(inputs, log, i).auctions|;
            (replies[i] == "RSA NOK\n" <==> !named) && (StartsWith(replies[i], "RSA OK") <==> named)
  {
    var m := AssetTold(inputs, log, replies, cal, i, text);
    AssetTexts(m, text);
  }

  // ---------- Lists and records ----------

  lemma ListLetters(verb: string, rest: string)
    requires |verb| == 3
    ensures verb + " NLG\n" != verb + " NOK\n"
    ensures verb + " OK" + rest != verb + " NLG\n" && verb + " OK" + rest != verb + " NOK\n"
  {
    var nlg, nok, ok := verb + " NLG\n", verb + " NOK\n", verb + " OK" + rest;
    assert nlg[4] == 'N' && nlg[5] == 'L' && nok[4] == 'N' && nok[5] == 'O' && ok[4] == 'O';
  }

  lemma OwnListTexts(a: Account, m: map<nat, Auction>, verb: string, ids: set<nat>, now: nat)
    requires |verb| == 3
    ensures var text := ReplyToOwnList(a, m, verb, ids, now);
            && (text == verb + " NLG\n" <==> !a.SignedIn?)
            && (text == verb + " NOK\n" <==> a.SignedIn? && ids == {})
  {
    var rest := Listed3(m, Ascending(ids), now) + "\n";
    ListLetters(verb, rest);
    assert verb + " OK" + Listed3(m, Ascending(ids), now) + "\n" == verb + " OK" + rest;
  }

  lemma SameSets(l: map<nat, Auction>, m: map<nat, Auction>, uid: string, now: nat)
    requires SameButNoticed(l, m, now)
    ensures HostedBy(l, uid) == HostedBy(m, uid) && WithBidBy(l, uid) == WithBidBy(m, uid)
  {
  }

  /** LMA and LMB are answered NLG exactly when the user is logged out, NOK exactly when it is logged in and hosts
      nothing, or has bid on nothing. */
  lemma OwnListExactly(inputs: seq<Incoming>, log: seq<Entry>, replies: seq<string>, cal: Calendar, i: nat, r: Request)
    requires Conversation(inputs, log, replies, cal) && i < |inputs| && log[i].parsed == Good(r)
    requires r.MyAuctions? || r.MyBids?
    ensures var s := Files(inputs, log, i);
            var loggedIn := r.uid in s.users && s.users[r.uid].login;
            && (r.MyAuctions? ==>
                  (replies[i] == "RMA" + " NLG\n" <==> !loggedIn) &&
                  (replies[i] == "RMA" + " NOK\n" <==> loggedIn && HostedBy(s.auctions, r.uid) == {}))
            && (r.MyBids? ==>
                  (replies[i] == "RMB" + " NLG\n" <==> !loggedIn) &&
                  (replies[i] == "RMB" + " NOK\n" <==> loggedIn && WithBidBy(s.auctions, r.uid) == {}))
  {
    var a, m := OwnListKnown(inputs, log, replies, cal, i, r);
    var now := Opening(inputs[i]);
    OwnListTexts(a, m, "RMA", HostedBy(m, r.uid), now);
    OwnListTexts(a, m, "RMB", WithBidBy(m, r.uid), now);
  }

  lemma OwnListKnown(inputs: seq<Incoming>, log: seq<Entry>, replies: seq<string>, cal: Calendar, i: nat, r: Request)
    returns (a: Account, m: map<nat, Auction>)
    requires Conversation(inputs, log, replies, cal) && i < |inputs| && log[i].parsed == Good(r)
    requires r.MyAuctions? || r.MyBids?
    ensures var s, now := Files(inputs, log, i), Opening(inputs[i]);
            && AccountIs(s, r.uid, a)
            && HostedBy(s.auctions, r.uid) == HostedBy(m, r.uid) && WithBidBy(s.auctions, r.uid) == WithBidBy(m, r.uid)
            && (r.MyAuctions? ==> replies[i] == ReplyToOwnList(a, m, "RMA", HostedBy(m, r.uid), now))
            && (r.MyBids? ==> replies[i] == ReplyToOwnList(a, m, "RMB", WithBidBy(m, r.uid), now))
  {
    a, m := AllKnown(inputs, log, replies, cal, i);
    SameSets(Files(inputs, log, i).auctions, m, r.uid, Opening(inputs[i]));
  }

  /** LST is answered NOK exactly when no auction is on file but, perhaps, the first entry read. */
  lemma ListExactly(inputs: seq<Incoming>, log: seq<Entry>, replies: seq<string>, cal: Calendar, i: nat,
                    firstEntry: Option<nat>)
    requires Conversation(inputs, log, replies, cal) && i < |inputs| && log[i].parsed == Good(List(firstEntry))
    ensures replies[i] == "RLS" + " NOK\n" <==>
            forall id | id in Files(inputs, log, i).auctions :: firstEntry == Some(id)
  {
    var m := ListKnown(inputs, log, replies, cal, i, firstEntry);
    ListTexts(m, firstEntry, Opening(inputs[i]));
  }

  lemma ListKnown(inputs: seq<Incoming>, log: seq<Entry>, replies: seq<string>, cal: Calendar, i: nat,
                  firstEntry: Option<nat>)
    returns (m: map<nat, Auction>)
    requires Conversation(inputs, log, replies, cal) && i < |inputs| && log[i].parsed == Good(List(firstEntry))
    ensures replies[i] == ReplyToList(m, firstEntry, Opening(inputs[i]))
    ensures m.Keys == Files(inputs, log, i).auctions.Keys
  {
    var a;
    a, m := AllKnown(inputs, log, replies, cal, i);
  }

  lemma ListTexts(m: map<nat, Auction>, firstEntry: Option<nat>, now: nat)
    ensures ReplyToList(m, firstEntry, now) == "RLS" + " NOK\n" <==> forall id | id in m.Keys :: firstEntry == Some(id)
  {
  }

  /** SRC is answered NOK exactly when no auction of the number is on file. */
  lemma RecordExactly(inputs: seq<Incoming>, log: seq<Entry>, replies: seq<string>, cal: Calendar, i: nat, aid: nat)
    requires Conversation(inputs, log, replies, cal) && i < |inputs|
    requires log[i].parsed == Good(Request.ShowRecord(aid))
    ensures replies[i] == "RRC" + " NOK\n" <==> aid !in Files(inputs, log, i).auctions
  {
    var a, m := AllKnown(inputs, log, replies, cal, i);
    RecordTexts(m, aid, Opening(inputs[i]), log[i].order, cal);
  }

  lemma RecordTexts(m: map<nat, Auction>, aid: nat, now: nat, order: seq<nat>, cal: Calendar)
    requires aid in m ==> forall v | v in order :: v in m[aid].bids
    ensures ReplyToRecord(m, aid, now, order, cal) == "RRC" + " NOK\n" <==> aid !in m
  {
  }

  // ---------- Texts that are no requests ----------

  /** A datagram that is no request: three letters the server knows get an error line of their own when a space
      follows, everything else the general one. */
  lemma MalformedDatagram(text: string, firstEntry: Option<nat>)
    requires ParseUdp(text, firstEntry).Bad?
    ensures var reply, spaced := ParseUdp(text, firstEntry).reply, |text| >= 4 && text[3] == ' ';
            if spaced && text[..3] == "LIN" then reply == "RLI ERR\n"
            else if spaced && text[..3] == "LOU" then reply == "RLO ERR\n"
            else if spaced && text[..3] == "UNR" then reply == "RUR ERR\n"
            else if spaced && text[..3] == "LMA" then reply == "RMA ERR\n"
            else if spaced && text[..3] == "LMB" then reply == "RMB ERR\n"
            else if spaced && text[..3] == "LST" then reply == "RLS ERR\n"
            else if spaced && text[..3] == "SRC" then reply == "RRC ERR\n"
            else reply == "ERR\n"
  {
  }

  /** A stream that is no request. For an asset, a line that cannot be read gets ERR, one that is no number gets
      NOK, and an empty one gets nothing. */
  lemma MalformedStream(stream: string, upload: Upload)
    requires ParseTcp(stream, upload).Bad?
    ensures var reply, command := ParseTcp(stream, upload).reply, CommandText(stream);
            if OpensWith(stream) then reply == "ROA ERR\n"
            else if command == "CLS" then reply == "RCL ERR\n"
            else if command == "BID" then reply == "RBD ERR\n"
            else if command == "SAS" then
              match TakeLine(Rest(stream, 4), 3)
              case Failed => reply == "RSA ERR\n"
              case Taken(text, _) => reply == if text == "" then "" else "RSA NOK\n"
            else reply == "ERR\n"
  {
  }

  /** Main result: what the main loop answers to a text that is no request, and that it changes nothing. */
  lemma MalformedExactly(inputs: seq<Incoming>, log: seq<Entry>, replies: seq<string>, cal: Calendar, i: nat)
    returns (firstEntry: Option<nat>, upload: Upload)
    requires Conversation(inputs, log, replies, cal) && i < |inputs| && log[i].parsed.Bad?
    ensures Files(inputs, log, i + 1) == Files(inputs, log, i)
    ensures match inputs[i]
            case Datagram(text, _) => ParseUdp(CString(text), firstEntry) == Bad(replies[i])
            case Connection(stream, _, _) => ParseTcp(stream, upload) == Bad(replies[i])
  {
    assert AnsweredAt(inputs, log, replies, i, cal);
    firstEntry, upload := None, Upload("", false);
    match inputs[i] {
      case Datagram(text, _) => firstEntry :| log[i].parsed == ParseUdp(CString(text), firstEntry);
      case Connection(stream, _, _) => upload :| UploadOf(stream, upload) && log[i].parsed == ParseTcp(stream, upload);
    }
    RunGrowsBy(inputs, log[..i], i, log[i]);
    assert log[..i] + [log[i]] == log[..i + 1];
    assert Earlier(inputs, log, i + 1) == Earlier(inputs, log, i);
  }
}
