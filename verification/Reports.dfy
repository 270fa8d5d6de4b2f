/** What the client tells its user after LIN, LOU, UNR, OPA and BID, and when that is true. */
module Reports {
  import opened Text
  import opened Domain
  import opened Invariants
  import opened FileText
  import opened Client
  import opened Requests
  import opened Serving
  import opened Protocol
  import opened Outcomes

  // ---------- Words ----------

  /** A line with a code starts with the same verb and code, and with nothing of another first letter. */
  lemma LineStarts(verb: string, code: string, line: string, head: string)
    requires IsWord(verb) && IsWord(code) && line == verb + " " + code + "\n" && head == verb + " " + code
    ensures StartsWith(line, head) && WellFormed(line)
  {
  }

  lemma OtherStart(line: string, head: string, i: nat)
    requires i < |line| && i < |head| && line[i] != head[i]
    ensures !StartsWith(line, head)
  {
  }

  // ---------- login ----------

  datatype LoginMessage = LoggedInNow | NewUser | PasswordDiffers | LoginError

  function ReportLogin(buffer: string): LoginMessage
  {
    if StartsWith(buffer, "RLI OK") then LoggedInNow
    else if StartsWith(buffer, "RLI REG") then NewUser
    else if StartsWith(buffer, "RLI NOK") then PasswordDiffers
    else LoginError
  }

  predicate Registered(s: State, uid: string) { uid in s.users && s.users[uid].pass.Some? }

  predicate InSession(s: State, uid: string) { uid in s.users && s.users[uid].login }

  predicate HasPassword(s: State, uid: string, pass: string) { uid in s.users && s.users[uid].pass == Some(pass) }

  predicate LoginTrue(said: LoginMessage, s: State, after: State, uid: string, pass: string)
  {
    match said
    case LoggedInNow => Registered(s, uid) && InSession(after, uid)
    case NewUser => !Registered(s, uid) && HasPassword(after, uid, pass) && InSession(after, uid)
    case PasswordDiffers => Registered(s, uid) && !HasPassword(s, uid, pass)
    case LoginError => false
  }

  lemma LoginWords()
    ensures ReportLogin("RLI OK\n") == LoggedInNow && WellFormed("RLI OK\n")
    ensures ReportLogin("RLI REG\n") == NewUser && WellFormed("RLI REG\n")
    ensures ReportLogin("RLI NOK\n") == PasswordDiffers && WellFormed("RLI NOK\n")
  {
    LineStarts("RLI", "OK", "RLI OK\n", "RLI OK");
    LineStarts("RLI", "REG", "RLI REG\n", "RLI REG");
    LineStarts("RLI", "NOK", "RLI NOK\n", "RLI NOK");
    OtherStart("RLI REG\n", "RLI OK", 4);
    OtherStart("RLI NOK\n", "RLI OK", 4);
    OtherStart("RLI NOK\n", "RLI REG", 4);
  }

  /** The account files after a request of the user itself. */
  lemma AccountNext(inputs: seq<Incoming>, log: seq<Entry>, replies: seq<string>, cal: Calendar, i: nat, uid: string)
    returns (a: Account, b: Account)
    requires Conversation(inputs, log, replies, cal) && i < |inputs| && log[i].parsed.Good?
    ensures AccountIs(Files(inputs, log, i), uid, a) && AccountIs(Files(inputs, log, i + 1), uid, b)
    ensures b == AccountStep(a, log[i].parsed.req, uid)
    ensures uid in Files(inputs, log, i).users ==>
              (Files(inputs, log, i).users[uid].login ==> Files(inputs, log, i).users[uid].pass.Some?)
  {
    a := AccountOnFile(inputs, log, i, uid);
    b := AccountOnFile(inputs, log, i + 1, uid);
    EarlierIsValid(inputs, log, i);
    EarlierIsValid(inputs, log, i + 1);
    var e := NextIs(inputs, log, i);
    OneMore(Earlier(inputs, log, i), e);
    var s := Files(inputs, log, i);
    if uid in s.users { assert UserOk(s.users[uid], uid, s.auctions); }
  }

  /** Main result: what the client says after LIN is true unless the user was already logged in: then it hears
      that the right password does not match. */
  lemma LoginReported(inputs: seq<Incoming>, log: seq<Entry>, replies: seq<string>, cal: Calendar, i: nat, uid: string,
                      pass: string)
    requires Conversation(inputs, log, replies, cal) && i < |inputs| && log[i].parsed == Good(Login(uid, pass))
    ensures WellFormed(replies[i])
    ensures var s, after := Files(inputs, log, i), Files(inputs, log, i + 1);
            LoginTrue(ReportLogin(replies[i]), s, after, uid, pass) <==>
            !(HasPassword(s, uid, pass) && InSession(s, uid))
  {
    LoginExactly(inputs, log, replies, cal, i, uid, pass);
    var a, b := AccountNext(inputs, log, replies, cal, i, uid);
    LoginWords();
  }

  // ---------- logout and unregister ----------

  datatype ExitMessage = Left | NotIn | Unknown | ExitError

  function ReportLogout(buffer: string): ExitMessage
  {
    if StartsWith(buffer, "RLO OK") then Left
    else if StartsWith(buffer, "RLO NOK") then NotIn
    else if StartsWith(buffer, "RLO UNR") then Unknown
    else ExitError
  }

  function ReportUnregister(buffer: string): ExitMessage
  {
    if StartsWith(buffer, "RUR OK") then Left
    else if StartsWith(buffer, "RUR NOK") then NotIn
    else if StartsWith(buffer, "RUR UNR") then Unknown
    else ExitError
  }

  predicate ExitTrue(said: ExitMessage, s: State, after: State, uid: string)
  {
    match said
    case Left => InSession(s, uid) && !InSession(after, uid)
    case NotIn => !InSession(s, uid)
    case Unknown => !Registered(s, uid)
    case ExitError => false
  }

  lemma LogoutWords()
    ensures ReportLogout("RLO OK\n") == Left && WellFormed("RLO OK\n")
    ensures ReportLogout("RLO NOK\n") == NotIn && WellFormed("RLO NOK\n")
    ensures ReportLogout("RLO UNR\n") == Unknown && WellFormed("RLO UNR\n")
  {
    LineStarts("RLO", "OK", "RLO OK\n", "RLO OK");
    LineStarts("RLO", "NOK", "RLO NOK\n", "RLO NOK");
    LineStarts("RLO", "UNR", "RLO UNR\n", "RLO UNR");
    OtherStart("RLO NOK\n", "RLO OK", 4);
    OtherStart("RLO UNR\n", "RLO OK", 4);
    OtherStart("RLO UNR\n", "RLO NOK", 4);
  }

  lemma UnregisterWords()
    ensures ReportUnregister("RUR OK\n") == Left && WellFormed("RUR OK\n")
    ensures ReportUnregister("RUR NOK\n") == NotIn && WellFormed("RUR NOK\n")
  {
    LineStarts("RUR", "OK", "RUR OK\n", "RUR OK");
    LineStarts("RUR", "NOK", "RUR NOK\n", "RUR NOK");
    OtherStart("RUR NOK\n", "RUR OK", 4);
  }

  /** Main result: what the client says after LOU is true unless a logged-in user gave a wrong password: then it
      hears that it was not logged in. */
  lemma LogoutReported(inputs: seq<Incoming>, log: seq<Entry>, replies: seq<string>, cal: Calendar, i: nat, uid: string,
                       pass: string)
    requires Conversation(inputs, log, replies, cal) && i < |inputs| && log[i].parsed == Good(Logout(uid, pass))
    ensures WellFormed(replies[i])
    ensures var s, after := Files(inputs, log, i), Files(inputs, log, i + 1);
            ExitTrue(ReportLogout(replies[i]), s, after, uid) <==>
            !(InSession(s, uid) && !HasPassword(s, uid, pass))
  {
    LogoutExactly(inputs, log, replies, cal, i, uid, pass);
    var a, b := AccountNext(inputs, log, replies, cal, i, uid);
    LogoutWords();
  }

  /** The same for UNR; the client never says that a user was not registered. */
  lemma UnregisterReported(inputs: seq<Incoming>, log: seq<Entry>, replies: seq<string>, cal: Calendar, i: nat,
                           uid: string, pass: string)
    requires Conversation(inputs, log, replies, cal) && i < |inputs| && log[i].parsed == Good(Unregister(uid, pass))
    ensures WellFormed(replies[i]) && ReportUnregister(replies[i]) != Unknown
    ensures var s, after := Files(inputs, log, i), Files(inputs, log, i + 1);
            ExitTrue(ReportUnregister(replies[i]), s, after, uid) <==>
            !(InSession(s, uid) && !HasPassword(s, uid, pass))
    ensures ReportUnregister(replies[i]) == Left ==> !Registered(Files(inputs, log, i + 1), uid)
  {
    UnregisterExactly(inputs, log, replies, cal, i, uid, pass);
    var a, b := AccountNext(inputs, log, replies, cal, i, uid);
    UnregisterWords();
  }

  // ---------- bid ----------

  datatype BidMessage = Accepted | NotActive | NotLogged | LargerBid | OwnAuction | BidError

  function ReportBid(buffer: string): BidMessage
  {
    if StartsWith(buffer, "RBD ACC") then Accepted
    else if StartsWith(buffer, "RBD NOK") then NotActive
    else if StartsWith(buffer, "RBD NLG") then NotLogged
    else if StartsWith(buffer, "RBD REF") then LargerBid
    else if StartsWith(buffer, "RBD ILG") then OwnAuction
    else BidError
  }

  predicate BidTrue(said: BidMessage, s: State, after: State, uid: string, id: nat, value: nat, now: nat)
  {
    match said
    case Accepted => !BidIsOnFile(s.auctions, id, value) && BidIsOnFile(after.auctions, id, value)
    case NotActive => !Runs(s.auctions, id, now)
    case NotLogged => !InSession(s, uid)
    case LargerBid => id in s.auctions && exists v :: v in s.auctions[id].bids && v > value
    case OwnAuction => id in s.auctions && s.auctions[id].start.owner == uid
    case BidError => false
  }

  lemma BidWords(reply: string)
    requires reply == "RBD ACC\n" || reply == "RBD NLG\n" || reply == "RBD NOK\n" || reply == "RBD ILG\n" ||
             reply == "RBD REF\n"
    ensures reply == "RBD ACC\n" ==> ReportBid(reply) == Accepted
    ensures reply == "RBD NOK\n" ==> ReportBid(reply) == NotActive
    ensures reply == "RBD NLG\n" ==> ReportBid(reply) == NotLogged
    ensures reply == "RBD REF\n" ==> ReportBid(reply) == LargerBid
    ensures reply == "RBD ILG\n" ==> ReportBid(reply) == OwnAuction
  {
  }

  lemma BidLinesAreWellFormed()
    ensures WellFormed("RBD ACC\n") && WellFormed("RBD NOK\n") && WellFormed("RBD NLG\n")
    ensures WellFormed("RBD REF\n") && WellFormed("RBD ILG\n")
  {
  }

  /** Main result: what the client says after BID is true except exactly in two cases: a logged-in user with a
      wrong password hears that a running auction is not active; and a bid not above the start value, or of a
      value on file, that no larger bid stands against hears of a larger bid. */
  lemma BidReported(inputs: seq<Incoming>, log: seq<Entry>, replies: seq<string>, cal: Calendar, i: nat, uid: string,
                    pass: string, id: nat, value: nat)
    requires Conversation(inputs, log, replies, cal) && i < |inputs|
    requires log[i].parsed == Good(BidOn(uid, pass, id, value))
    ensures WellFormed(replies[i])
    ensures var s, after, now := Files(inputs, log, i), Files(inputs, log, i + 1), Opening(inputs[i]);
            var running := InSession(s, uid) && Runs(s.auctions, id, now);
            BidTrue(ReportBid(replies[i]), s, after, uid, id, value, now) <==>
            && (running ==> HasPassword(s, uid, pass))
            && (running && s.auctions[id].start.owner != uid &&
                (value <= s.auctions[id].start.startValue || value in s.auctions[id].bids) ==>
                  exists v :: v in s.auctions[id].bids && v > value)
  {
    BidExactly(inputs, log, replies, cal, i, uid, pass, id, value);
    var a, m := BidKnown(inputs, log, replies, cal, i);
    BidLinesAreWellFormed();
    BidSaid(Files(inputs, log, i), Files(inputs, log, i + 1), uid, pass, id, value, Opening(inputs[i]), replies[i]);
  }

  /** The five lines, and what they say. */
  lemma BidSaid(s: State, after: State, uid: string, pass: string, id: nat, value: nat, now: nat, reply: string)
    requires var loggedIn := uid in s.users && s.users[uid].login;
             var mayBid := loggedIn && s.users[uid].pass == Some(pass) && Runs(s.auctions, id, now);
             && (reply == "RBD ACC\n" <==>
                   !BidIsOnFile(s.auctions, id, value) && BidIsOnFile(after.auctions, id, value))
             && (reply == "RBD NLG\n" <==> !loggedIn)
             && (reply == "RBD NOK\n" <==> loggedIn && !mayBid)
             && (reply == "RBD ILG\n" <==> mayBid && s.auctions[id].start.owner == uid)
             && (reply == "RBD REF\n" <==>
                   mayBid && s.auctions[id].start.owner != uid &&
                   (value <= s.auctions[id].start.startValue || exists v :: v in s.auctions[id].bids && value <= v))
    requires reply == "RBD ACC\n" || reply == "RBD NLG\n" || reply == "RBD NOK\n" || reply == "RBD ILG\n" ||
             reply == "RBD REF\n"
    ensures var running := InSession(s, uid) && Runs(s.auctions, id, now);
            BidTrue(ReportBid(reply), s, after, uid, id, value, now) <==>
            && (running ==> HasPassword(s, uid, pass))
            && (running && s.auctions[id].start.owner != uid &&
                (value <= s.auctions[id].start.startValue || value in s.auctions[id].bids) ==>
                  exists v :: v in s.auctions[id].bids && v > value)
  {
  }

  // ---------- open ----------

  datatype OpenMessage = Granted(aid: nat) | NotStarted | MustLogIn | OpenError

  function ReportOpen(buffer: string): OpenMessage
  {
    if StartsWith(buffer, "ROA NOK") then NotStarted
    else if StartsWith(buffer, "ROA NLG") then MustLogIn
    else if StartsWith(buffer, "ROA OK") then Granted(if |buffer| >= 7 then Atoi(buffer[7..]) else 0)
    else OpenError
  }

  predicate OpenTrue(said: OpenMessage, s: State, after: State, uid: string)
  {
    match said
    case Granted(n) => n !in s.auctions && n in after.auctions && after.auctions[n].start.owner == uid
    case NotStarted => after.auctions.Keys == s.auctions.Keys
    case MustLogIn => !InSession(s, uid)
    case OpenError => false
  }

  lemma OpenWords()
    ensures ReportOpen("ROA NOK\n") == NotStarted && WellFormed("ROA NOK\n")
    ensures ReportOpen("ROA NLG\n") == MustLogIn && WellFormed("ROA NLG\n")
  {
    LineStarts("ROA", "NOK", "ROA NOK\n", "ROA NOK");
    LineStarts("ROA", "NLG", "ROA NLG\n", "ROA NLG");
    OtherStart("ROA NLG\n", "ROA NOK", 5);
  }

  lemma GrantWords(n: nat)
    ensures var line := "ROA OK " + Pad3(n) + "\n"; ReportOpen(line) == Granted(n) && WellFormed(line)
  {
    var line := "ROA OK " + Pad3(n) + "\n";
    assert line[4] == 'O' && line[..6] == "ROA OK";
    OtherStart(line, "ROA NOK", 4);
    OtherStart(line, "ROA NLG", 4);
    assert line[7..] == Pad3(n) + "\n";
    AtoiPad(n, 3, "\n");
    GrantIsWellFormed(n, line);
  }

  lemma GrantIsWellFormed(n: nat, line: string)
    requires line == "ROA OK " + Pad3(n) + "\n"
    ensures WellFormed(line)
  {
  }

  /** Main result: what the client says after OPA is true, the number included, unless a logged-in user with its
      password sent a file that was cut short, was empty or has a dot name: then it hears that the auction could
      not be started, though it was. */
  lemma OpenReported(inputs: seq<Incoming>, log: seq<Entry>, replies: seq<string>, cal: Calendar, i: nat, r: Request)
    requires Conversation(inputs, log, replies, cal) && i < |inputs| && log[i].parsed == Good(r) && r.Open?
    ensures WellFormed(replies[i])
    ensures var s, after := Files(inputs, log, i), Files(inputs, log, i + 1);
            var fileIsRight := r.upload.complete && r.upload.received != "" && r.fname != "." && r.fname != "..";
            OpenTrue(ReportOpen(replies[i]), s, after, r.uid) <==>
            (HasPassword(s, r.uid, r.pass) && InSession(s, r.uid) ==> fileIsRight)
  {
    OpenExactly(inputs, log, replies, cal, i, r);
    OpenedOnFile(inputs, log, replies, cal, i, r);
    var s, after := Files(inputs, log, i), Files(inputs, log, i + 1);
    OpenWords();
    GrantWords(|s.auctions| + 1);
    assert after.auctions.Keys == s.auctions.Keys + {|s.auctions| + 1} ==> |s.auctions| + 1 in after.auctions.Keys;
  }
}
