/** What a client may expect, word for word, from the requests sent before: accounts by the requests alone,
    auctions by their START, their bids and whether they were closed, replies as literal texts. */
module Protocol {
  import opened Text
  import opened Domain
  import opened LazyServer
  import opened IdealServer
  import opened Invariants
  import Histories
  import opened FileText
  import opened Wire
  import opened Handling

  // ---------- Accounts ----------

  datatype Account = Unregistered | SignedIn(pass: string) | SignedOut(pass: string)

  /** The account of one user after one request. */
  function AccountStep(a: Account, r: Request, uid: string): Account
  {
    match r
    case Login(u, pass) =>
      if u != uid then a
      else if a == Unregistered || a == SignedOut(pass) then SignedIn(pass)
      else a
    case Logout(u, pass) => if u == uid && a == SignedIn(pass) then SignedOut(pass) else a
    case Unregister(u, pass) => if u == uid && a == SignedIn(pass) then Unregistered else a
    case _ => a
  }

  function AccountAfter(run: seq<Event>, uid: string): Account
  {
    if run == [] then Unregistered else AccountStep(AccountAfter(run[..|run| - 1], uid), run[|run| - 1].req, uid)
  }

  /** What the account files of one user look like. */
  predicate AccountIs(s: State, uid: string, a: Account)
  {
    match a
    case Unregistered => !(uid in s.users && (s.users[uid].pass.Some? || s.users[uid].login))
    case SignedIn(pass) => uid in s.users && s.users[uid].pass == Some(pass) && s.users[uid].login
    case SignedOut(pass) => uid in s.users && s.users[uid].pass == Some(pass) && !s.users[uid].login
  }

  lemma AccountRequests(s: State, r: Request, uid: string, a: Account)
    requires (r.Login? || r.Logout? || r.Unregister?) && AccountIs(s, uid, a)
    requires r.uid in s.users && s.users[r.uid].login ==> s.users[r.uid].pass.Some?
    ensures r.Login? ==> AccountIs(LoginStep(s, r.uid, r.pass).0, uid, AccountStep(a, r, uid))
    ensures r.Logout? ==> AccountIs(LogoutStep(s, r.uid, r.pass).0, uid, AccountStep(a, r, uid))
    ensures r.Unregister? ==> AccountIs(UnregisterStep(s, r.uid, r.pass).0, uid, AccountStep(a, r, uid))
  {
  }

  /** Other requests leave passwords and logins alone. */
  lemma OtherRequests(s: State, r: Request, t1: nat, t2: nat, uid: string, a: Account)
    requires ValidRequest(r) && AccountIs(s, uid, a) && !r.Login? && !r.Logout? && !r.Unregister?
    ensures AccountIs(Step(s, r, t1, t2).0, uid, a)
  {
  }

  /** Main result: the account files of a user are what the requests so far make of its account. */
  lemma {:induction false} AccountsFollow(run: seq<Event>, uid: string)
    requires ValidRun(run)
    ensures AccountIs(Reached(run), uid, AccountAfter(run, uid))
  {
    if run != [] {
      var k := |run| - 1;
      ValidPrefix(run, k);
      AccountsFollow(run[..k], uid);
      var s, r, a := Reached(run[..k]), run[k].req, AccountAfter(run[..k], uid);
      if r.Login? || r.Logout? || r.Unregister? {
        ReachedInv(run[..k]);
        if r.uid in s.users { assert UserOk(s.users[r.uid], r.uid, s.auctions); }
        AccountRequests(s, r, uid, a);
      } else {
        OtherRequests(s, r, run[k].t1, run[k].t2, uid, a);
      }
    }
  }

  // ---------- Auctions ----------

  /** Not closed, and the clock is before start time + time active. */
  predicate Runs(m: map<nat, Auction>, id: nat, now: nat)
  {
    id in m && m[id].end.None? && now < m[id].start.startTime + m[id].start.timeActive
  }

  function HostedBy(m: map<nat, Auction>, uid: string): set<nat> { set id | id in m && m[id].start.owner == uid }

  function WithBidBy(m: map<nat, Auction>, uid: string): set<nat>
  {
    set id | id in m && exists v :: v in m[id].bids && m[id].bids[v].bidder == uid
  }

  /** Three digits naming an auction. */
  predicate Named(m: map<nat, Auction>, text: string)
  {
    |text| == 3 && AllDigits(text) && Num(text) in m
  }

  function AfterOpen(a: Account, m: map<nat, Auction>, r: Request, now: nat): map<nat, Auction>
    requires r.Open?
  {
    if a != SignedIn(r.pass) then m
    else
      var asset := if r.fname == "." || r.fname == ".." then None else Some(r.upload.received);
      m[|m| + 1 := Auction(Start(r.uid, r.name, r.fname, r.startValue, r.timeActive, now), map[], None, asset)]
  }

  /** A bid that counts: by a logged-in user with its password who is not the host, while the auction runs,
      above the start value and all bids so far. */
  predicate MayBid(a: Account, m: map<nat, Auction>, r: Request, now: nat)
    requires r.BidOn?
  {
    && a == SignedIn(r.pass) && Runs(m, r.aid, now) && m[r.aid].start.owner != r.uid
    && r.value > m[r.aid].start.startValue && forall v | v in m[r.aid].bids :: r.value > v
  }

  function AfterBid(a: Account, m: map<nat, Auction>, r: Request, t1: nat, t2: nat): map<nat, Auction>
    requires r.BidOn?
  {
    if !MayBid(a, m, r, t1) then m
    else
      var bid := Bid(r.uid, t2, t2 - m[r.aid].start.startTime);
      m[r.aid := m[r.aid].(bids := m[r.aid].bids[r.value := bid])]
  }

  /** A close that counts: by the logged-in host with its password, while the auction runs. */
  predicate MayClose(a: Account, m: map<nat, Auction>, r: Request, now: nat)
    requires r.Close? && AllDigits(r.aidText)
  {
    && a == SignedIn(r.pass) && Named(m, r.aidText)
    && m[Num(r.aidText)].start.owner == r.uid && Runs(m, Num(r.aidText), now)
  }

  function AfterClose(a: Account, m: map<nat, Auction>, r: Request, t1: nat, t2: nat): map<nat, Auction>
    requires r.Close? && AllDigits(r.aidText)
  {
    if !MayClose(a, m, r, t1) then m
    else
      var id := Num(r.aidText);
      m[id := m[id].(end := Some(End(t2, t2 - m[id].start.startTime)))]
  }

  /** The auctions after one request by a user with account `a`. */
  function AuctionsStep(a: Account, m: map<nat, Auction>, r: Request, t1: nat, t2: nat): map<nat, Auction>
    requires ValidRequest(r)
  {
    match r
    case Open(_, _, _, _, _, _, _) => AfterOpen(a, m, r, t2)
    case BidOn(_, _, _, _) => AfterBid(a, m, r, t1, t2)
    case Close(_, _, _) => AfterClose(a, m, r, t1, t2)
    case _ => m
  }

  /** The auctions as the requests of a run make them: nothing here is ever noticed or indexed. */
  function AuctionsAfter(run: seq<Event>): map<nat, Auction>
    requires ValidRun(run)
  {
    if run == [] then map[]
    else
      var k := |run| - 1;
      var r := run[k].req;
      AuctionsStep(AccountAfter(run[..k], UserOf(r)), AuctionsAfter(run[..k]), r, run[k].t1, run[k].t2)
  }

  function UserOf(r: Request): string { if r.List? || r.ShowRecord? || r.ShowAsset? then "" else r.uid }

  // ---------- The texts of the replies ----------

  function ReplyToLogin(a: Account, pass: string): string
  {
    if a == Unregistered then "RLI REG\n" else if a == SignedOut(pass) then "RLI OK\n" else "RLI NOK\n"
  }

  function ReplyToLogout(a: Account, pass: string): string
  {
    if a == SignedIn(pass) then "RLO OK\n" else if a == Unregistered then "RLO UNR\n" else "RLO NOK\n"
  }

  function ReplyToUnregister(a: Account, pass: string): string
  {
    if a == SignedIn(pass) then "RUR OK\n" else "RUR NOK\n"
  }

  /** Every number in three digits, with a 1 behind it while the auction runs and a 0 from then on. */
  function Listed3(m: map<nat, Auction>, ids: seq<nat>, now: nat): string
  {
    if ids == [] then ""
    else " " + Pad3(ids[0]) + (if Runs(m, ids[0], now) then " 1" else " 0") + Listed3(m, ids[1..], now)
  }

  ghost function ReplyToOwnList(a: Account, m: map<nat, Auction>, verb: string, ids: set<nat>, now: nat): string
  {
    if !a.SignedIn? then verb + " NLG\n"
    else if ids == {} then verb + " NOK\n"
    else verb + " OK" + Listed3(m, Ascending(ids), now) + "\n"
  }

  ghost function ReplyToList(m: map<nat, Auction>, firstEntry: Option<nat>, now: nat): string
  {
    if m.Keys == {} || (firstEntry.Some? && m.Keys == {firstEntry.value}) then "RLS NOK\n"
    else "RLS OK" + Listed3(m, Ascending(m.Keys), now) + "\n"
  }

  function DateText(t: nat, cal: Calendar): string { cal(t).date + " " + cal(t).clock }

  function BidsShown(order: seq<nat>, bids: map<nat, Bid>, cal: Calendar): string
    requires forall v | v in order :: v in bids
  {
    if order == [] then ""
    else
      var b := bids[order[0]];
      " B " + b.bidder + " " + Dec(order[0]) + " " + DateText(b.time, cal) + " " + IntText(b.secs) +
      BidsShown(order[1..], bids, cal)
  }

  /** The end is that of the owner's close, or the scheduled one once its time has come. */
  function EndShown(a: Auction, now: nat, cal: Calendar): string
  {
    if a.end.Some? then " E " + DateText(a.end.value.time, cal) + " " + IntText(a.end.value.secs)
    else if now < a.start.startTime + a.start.timeActive then ""
    else " E " + DateText(a.start.startTime + a.start.timeActive, cal) + " " + Dec(a.start.timeActive)
  }

  function StartShown(st: Start, cal: Calendar): string
  {
    " " + st.owner + " " + st.name + " " + st.fname + " " + Dec(st.startValue) + " " + DateText(st.startTime, cal) +
    " " + Dec(st.timeActive)
  }

  /** `order` is any order of the bid values. */
  function ReplyToRecord(m: map<nat, Auction>, id: nat, now: nat, order: seq<nat>, cal: Calendar): string
    requires id in m ==> forall v | v in order :: v in m[id].bids
  {
    if id !in m then "RRC NOK\n"
    else
      "RRC OK" + StartShown(m[id].start, cal) + BidsShown(order, m[id].bids, cal) + EndShown(m[id], now, cal) + "\n"
  }

  /** `n` is the number of auctions there are. */
  function ReplyToOpen(a: Account, r: Request, n: nat): string
    requires r.Open?
  {
    if a == SignedOut(r.pass) then "ROA NLG\n"
    else if a == SignedIn(r.pass) && r.upload.complete && r.upload.received != "" && r.fname != "." && r.fname != ".."
    then "ROA OK " + Pad3(n + 1) + "\n"
    else "ROA NOK\n"
  }

  function ReplyToBid(a: Account, m: map<nat, Auction>, r: Request, now: nat): string
    requires r.BidOn?
  {
    if MayBid(a, m, r, now) then "RBD ACC\n"
    else if !a.SignedIn? then "RBD NLG\n"
    else if a.pass != r.pass || !Runs(m, r.aid, now) then "RBD NOK\n"
    else if m[r.aid].start.owner == r.uid then "RBD ILG\n"
    else "RBD REF\n"
  }

  function ReplyToClose(a: Account, m: map<nat, Auction>, r: Request, now: nat): string
    requires r.Close? && AllDigits(r.aidText)
  {
    if MayClose(a, m, r, now) then "RCL OK\n"
    else if !a.SignedIn? then "RCL NLG\n"
    else if a.pass != r.pass then "RCL NOK\n"
    else if r.aidText != "" && !Named(m, r.aidText) then "RCL EAU\n"
    else if r.aidText == "" || m[Num(r.aidText)].start.owner != r.uid then "RCL EOW\n"
    else "RCL END\n"
  }

  function ReplyToAsset(m: map<nat, Auction>, text: string): string
  {
    if !Named(m, text) then "RSA NOK\n"
    else
      var a := m[Num(text)];
      match a.asset
      case None => "RSA OK \n"
      case Some(bytes) => "RSA OK " + a.start.fname + " " + Dec(|bytes|) + " " + bytes + "\n\n"
  }

  /** The reply to a request when the account of its user is `a` and the auctions are `m`. */
  ghost function Expected(a: Account, m: map<nat, Auction>, r: Request, now: nat, order: seq<nat>, cal: Calendar)
    : string
    requires ValidRequest(r)
    requires r.ShowRecord? && r.aid in m ==> forall v | v in order :: v in m[r.aid].bids
  {
    match r
    case Login(_, pass) => ReplyToLogin(a, pass)
    case Logout(_, pass) => ReplyToLogout(a, pass)
    case Unregister(_, pass) => ReplyToUnregister(a, pass)
    case MyAuctions(uid) => ReplyToOwnList(a, m, "RMA", HostedBy(m, uid), now)
    case MyBids(uid) => ReplyToOwnList(a, m, "RMB", WithBidBy(m, uid), now)
    case List(firstEntry) => ReplyToList(m, firstEntry, now)
    case ShowRecord(aid) => ReplyToRecord(m, aid, now, order, cal)
    case Open(_, _, _, _, _, _, _) => ReplyToOpen(a, r, |m|)
    case BidOn(_, _, _, _) => ReplyToBid(a, m, r, now)
    case Close(_, _, _) => ReplyToClose(a, m, r, now)
    case ShowAsset(text) => ReplyToAsset(m, text)
  }

  // ---------- What the ideal server holds ----------

  /** No identifier 0, no login without a password, and the indexes of users say who hosts and who bids. */
  ghost predicate Consistent(i: State)
  {
    Dense(i) && forall uid | uid in i.users :: IndexesAre(i.users[uid], uid, i.auctions)
  }

  ghost predicate IndexesAre(u: User, uid: string, m: map<nat, Auction>)
  {
    (u.login ==> u.pass.Some?) && u.hosted == HostedBy(m, uid) && u.bidded == WithBidBy(m, uid)
  }

  lemma IndexesOfUser(u: User, uid: string, l: map<nat, Auction>, i: map<nat, Auction>)
    requires UserOk(u, uid, l) && l.Keys == i.Keys
    requires forall id | id in l :: l[id].start == i[id].start && l[id].bids == i[id].bids
    ensures IndexesAre(u, uid, i)
  {
  }

  lemma IdealIsConsistent(run: seq<Event>)
    requires ValidRun(run)
    ensures Consistent(IdealReached(run)) && IdealReached(run).users == Reached(run).users
  {
    ReachedInv(run);
    ReachedSimulates(run);
    var l, i := Reached(run), IdealReached(run);
    assert forall id | id in l.auctions :: SameAuction(l.auctions[id], i.auctions[id], EndTime(run));
    SameKeysDense(l, i);
    forall uid | uid in i.users
      ensures IndexesAre(i.users[uid], uid, i.auctions)
    {
      IndexesOfUser(l.users[uid], uid, l.auctions, i.auctions);
    }
  }

  lemma UserIs(i: State, uid: string, a: Account)
    requires Consistent(i) && AccountIs(i, uid, a)
    ensures LoggedIn(i, uid) <==> a.SignedIn?
    ensures LoggedIn(i, uid) ==> i.users[uid].hosted == HostedBy(i.auctions, uid)
    ensures LoggedIn(i, uid) ==> i.users[uid].bidded == WithBidBy(i.auctions, uid)
    ensures a.SignedIn? ==> forall pass :: PasswordOk(i, uid, pass) <==> pass == a.pass
  {
  }

  // ---------- The server answers so ----------

  lemma AccountLines()
    ensures StatusLine("RLI", "REG") == "RLI REG\n" && StatusLine("RLI", "OK") == "RLI OK\n"
    ensures StatusLine("RLI", "NOK") == "RLI NOK\n"
    ensures StatusLine("RLO", "OK") == "RLO OK\n" && StatusLine("RLO", "UNR") == "RLO UNR\n"
    ensures StatusLine("RLO", "NOK") == "RLO NOK\n"
    ensures StatusLine("RUR", "OK") == "RUR OK\n" && StatusLine("RUR", "NOK") == "RUR NOK\n"
  {
  }

  lemma AccountAnswered(s: State, r: Request, a: Account, order: seq<nat>, cal: Calendar)
    requires (r.Login? || r.Logout? || r.Unregister?) && AccountIs(s, r.uid, a)
    requires r.uid in s.users && s.users[r.uid].login ==> s.users[r.uid].pass.Some?
    ensures r.Login? ==> Printed(r, LoginStep(s, r.uid, r.pass).1, order, cal) == ReplyToLogin(a, r.pass)
    ensures r.Logout? ==> Printed(r, LogoutStep(s, r.uid, r.pass).1, order, cal) == ReplyToLogout(a, r.pass)
    ensures r.Unregister? ==>
              Printed(r, UnregisterStep(s, r.uid, r.pass).1, order, cal) == ReplyToUnregister(a, r.pass)
  {
    AccountLines();
  }

  lemma BidLines()
    ensures StatusLine("RBD", "NLG") == "RBD NLG\n" && StatusLine("RBD", "NOK") == "RBD NOK\n"
    ensures StatusLine("RBD", "ILG") == "RBD ILG\n" && StatusLine("RBD", "ACC") == "RBD ACC\n"
    ensures StatusLine("RBD", "REF") == "RBD REF\n"
  {
  }

  lemma BidAnswered(i: State, r: Request, a: Account, t1: nat, t2: nat, order: seq<nat>, cal: Calendar)
    requires r.BidOn? && AccountIs(i, r.uid, a) && Consistent(i)
    ensures var p := IdealBid(i, r.uid, r.pass, r.aid, r.value, t1, t2).1;
            Printed(r, p, order, cal) == ReplyToBid(a, i.auctions, r, t1)
  {
    BidLines();
    UserIs(i, r.uid, a);
  }

  lemma BidMakes(i: State, r: Request, a: Account, t1: nat, t2: nat)
    requires r.BidOn? && AccountIs(i, r.uid, a) && Consistent(i)
    ensures IdealBid(i, r.uid, r.pass, r.aid, r.value, t1, t2).0.auctions == AfterBid(a, i.auctions, r, t1, t2)
  {
  }

  lemma CloseLines()
    ensures StatusLine("RCL", "NLG") == "RCL NLG\n" && StatusLine("RCL", "NOK") == "RCL NOK\n"
    ensures StatusLine("RCL", "EAU") == "RCL EAU\n" && StatusLine("RCL", "EOW") == "RCL EOW\n"
    ensures StatusLine("RCL", "END") == "RCL END\n" && StatusLine("RCL", "OK") == "RCL OK\n"
  {
  }

  /** A directory of this name exists exactly for three digits naming an auction, and for nothing. */
  lemma DirectoryNames(s: State, text: string)
    requires GoodAidText(text)
    ensures DirectoryExists(s, text) <==> text == "" || Named(s.auctions, text)
    ensures text == "" ==> Num(text) == 0
  {
    Histories.DirectoryTexts(s, text);
  }

  lemma CloseAnswered(i: State, r: Request, a: Account, t1: nat, t2: nat, order: seq<nat>, cal: Calendar)
    requires r.Close? && ValidRequest(r) && AccountIs(i, r.uid, a) && Consistent(i)
    ensures var p := IdealClose(i, r.uid, r.pass, r.aidText, t1, t2).1;
            Printed(r, p, order, cal) == ReplyToClose(a, i.auctions, r, t1)
  {
    CloseLines();
    UserIs(i, r.uid, a);
    DirectoryNames(i, r.aidText);
  }

  lemma CloseMakes(i: State, r: Request, a: Account, t1: nat, t2: nat)
    requires r.Close? && ValidRequest(r) && AccountIs(i, r.uid, a) && Consistent(i)
    ensures IdealClose(i, r.uid, r.pass, r.aidText, t1, t2).0.auctions == AfterClose(a, i.auctions, r, t1, t2)
  {
    UserIs(i, r.uid, a);
    DirectoryNames(i, r.aidText);
  }

  lemma OpenLines(n: nat)
    ensures StatusLine("ROA", "NLG") == "ROA NLG\n" && StatusLine("ROA", "NOK") == "ROA NOK\n"
    ensures StatusLine("ROA", "OK " + Pad3(n)) == "ROA OK " + Pad3(n) + "\n"
  {
  }

  lemma OpenAnswered(s: State, r: Request, a: Account, now: nat, order: seq<nat>, cal: Calendar)
    requires r.Open? && ValidRequest(r) && AccountIs(s, r.uid, a) && Dense(s)
    ensures Printed(r, OpenStep(s, r, now).1, order, cal) == ReplyToOpen(a, r, |s.auctions|)
    ensures OpenStep(s, r, now).0.auctions == AfterOpen(a, s.auctions, r, now)
  {
    NextIdIsFresh(s);
    OpenLines(NextId(s));
  }

  // ---------- Lists, records and assets ----------

  lemma FirstEntry(ids: seq<nat>, open: map<nat, bool>)
    requires ids != [] && forall id | id in ids :: id in open
    ensures var flag := if open[ids[0]] then " 1" else " 0";
            After(ListWords(ids, open)) == " " + Pad3(ids[0]) + flag + After(ListWords(ids[1..], open))
  {
  }

  lemma {:induction false} ListWordsRead(m: map<nat, Auction>, ids: seq<nat>, open: map<nat, bool>, now: nat)
    requires forall id | id in ids :: id in open && open[id] == Runs(m, id, now)
    ensures After(ListWords(ids, open)) == Listed3(m, ids, now)
  {
    if ids != [] {
      assert forall id | id in ids[1..] :: id in ids;
      ListWordsRead(m, ids[1..], open, now);
      assert ids[0] in ids;
      FirstEntry(ids, open);
    }
  }

  lemma RunningRuns(i: State, id: nat, now: nat)
    ensures Running(i, id, now) <==> Runs(i.auctions, id, now)
  {
  }

  lemma EntriesRead(i: State, ids: set<nat>, now: nat, verb: string)
    ensures OkLine(verb, ListedText(map id | id in ids :: Running(i, id, now))) ==
            verb + " OK" + Listed3(i.auctions, Ascending(ids), now) + "\n"
  {
    var open := map id | id in ids :: Running(i, id, now);
    assert open.Keys == ids;
    AscendingIs(ids);
    forall id | id in Ascending(ids)
      ensures id in open && open[id] == Runs(i.auctions, id, now)
    {
      RunningRuns(i, id, now);
    }
    ListWordsRead(i.auctions, Ascending(ids), open, now);
  }

  lemma OneLine(verb: string, code: string, tail: string)
    requires tail == " " + code + "\n"
    ensures StatusLine(verb, code) == verb + tail
  {
  }

  lemma OwnListRead(i: State, p: Reply, a: Account, verb: string, ids: set<nat>, now: nat)
    requires p == if !a.SignedIn? then Nlg
                  else if ids == {} then Nok
                  else Listed(map id | id in ids :: Running(i, id, now))
    ensures ListLine(verb, p) == ReplyToOwnList(a, i.auctions, verb, ids, now)
  {
    OneLine(verb, "NLG", " NLG\n");
    OneLine(verb, "NOK", " NOK\n");
    EntriesRead(i, ids, now, verb);
  }

  lemma ListPrinted(r: Request, p: Reply, order: seq<nat>, cal: Calendar)
    requires p.Nlg? || p.Nok? || p.Listed?
    ensures Printed(r, p, order, cal) == ListLine(Verb(r), p)
  {
  }

  lemma MyAuctionsAnswered(i: State, uid: string, a: Account, now: nat, order: seq<nat>, cal: Calendar)
    requires GoodUid(uid) && AccountIs(i, uid, a) && Consistent(i)
    ensures var p := Answer(i, MyAuctions(uid), now);
            !p.Record? && Printed(MyAuctions(uid), p, order, cal) ==
                          ReplyToOwnList(a, i.auctions, "RMA", HostedBy(i.auctions, uid), now)
  {
    UserIs(i, uid, a);
    var p := Answer(i, MyAuctions(uid), now);
    OwnListRead(i, p, a, "RMA", HostedBy(i.auctions, uid), now);
    ListPrinted(MyAuctions(uid), p, order, cal);
  }

  lemma MyBidsAnswered(i: State, uid: string, a: Account, now: nat, order: seq<nat>, cal: Calendar)
    requires GoodUid(uid) && AccountIs(i, uid, a) && Consistent(i)
    ensures var p := Answer(i, MyBids(uid), now);
            !p.Record? && Printed(MyBids(uid), p, order, cal) ==
                          ReplyToOwnList(a, i.auctions, "RMB", WithBidBy(i.auctions, uid), now)
  {
    UserIs(i, uid, a);
    var p := Answer(i, MyBids(uid), now);
    OwnListRead(i, p, a, "RMB", WithBidBy(i.auctions, uid), now);
    ListPrinted(MyBids(uid), p, order, cal);
  }

  /** The auctions a list request is about. */
  function AskedFor(m: map<nat, Auction>, r: Request): set<nat>
    requires r.List? || r.MyAuctions? || r.MyBids?
  {
    if r.MyAuctions? then HostedBy(m, r.uid) else if r.MyBids? then WithBidBy(m, r.uid) else m.Keys
  }

  /** What the entries of a list are, and what their flags mean. */
  lemma EntriesMean(i: State, r: Request, now: nat)
    requires ValidRequest(r) && (r.List? || r.MyAuctions? || r.MyBids?) && Consistent(i)
    requires Answer(i, r, now).Listed?
    ensures var entries := Answer(i, r, now).entries;
            entries.Keys == AskedFor(i.auctions, r) && (forall id | id in entries :: id in i.auctions) &&
            forall id | id in entries ::
              var a := i.auctions[id];
              entries[id] <==> a.end.None? && now < a.start.startTime + a.start.timeActive
  {
  }

  /** The one case in which LST sees nothing, as sets. */
  lemma SeesNone(i: State, firstEntry: Option<nat>)
    ensures !SeesAuctions(i, firstEntry) <==>
            i.auctions.Keys == {} || (firstEntry.Some? && i.auctions.Keys == {firstEntry.value})
  {
  }

  lemma ListAnswered(i: State, firstEntry: Option<nat>, now: nat, order: seq<nat>, cal: Calendar)
    ensures var p := Answer(i, List(firstEntry), now);
            !p.Record? && Printed(List(firstEntry), p, order, cal) == ReplyToList(i.auctions, firstEntry, now)
  {
    assert StatusLine("RLS", "NOK") == "RLS NOK\n" && "RLS" + " OK" == "RLS OK";
    SeesNone(i, firstEntry);
    EntriesRead(i, i.auctions.Keys, now, "RLS");
    assert (map id | id in i.auctions.Keys :: Running(i, id, now)) == map id | id in i.auctions :: Running(i, id, now);
  }

  lemma {:induction false} BidsRead(order: seq<nat>, bids: map<nat, Bid>, cal: Calendar)
    requires forall v | v in order :: v in bids
    ensures After(BidsWords(order, bids, cal)) == BidsShown(order, bids, cal)
  {
    if order != [] {
      assert order[0] in order && forall v | v in order[1..] :: v in order;
      BidsRead(order[1..], bids, cal);
      OneBidTextIs(order[0], bids[order[0]], cal);
      AfterAppend(OneBidWords(order[0], bids[order[0]], cal), BidsWords(order[1..], bids, cal));
    }
  }

  lemma EndRead(a: Auction, now: nat, cal: Calendar)
    ensures After(EndingWords(EndAsOf(a, now), cal)) == EndShown(a, now, cal)
  {
    var e := EndAsOf(a, now);
    if e.Some? { EndTextIs(e.value, cal); }
  }

  lemma RecordRead(a: Auction, now: nat, order: seq<nat>, cal: Calendar)
    requires forall v | v in order :: v in a.bids
    ensures After(RecordWords(a.start, a.bids, order, EndAsOf(a, now), cal)) ==
            StartShown(a.start, cal) + BidsShown(order, a.bids, cal) + EndShown(a, now, cal)
  {
    HeadTextIs(a.start, cal);
    BidsRead(order, a.bids, cal);
    EndRead(a, now, cal);
    AfterAppend(HeadWords(a.start, cal), BidsWords(order, a.bids, cal));
    AfterAppend(HeadWords(a.start, cal) + BidsWords(order, a.bids, cal), EndingWords(EndAsOf(a, now), cal));
  }

  lemma RecordLines(verb: string, head: string, start: string, bids: string, end: string)
    requires head == verb + " OK"
    ensures OkLine(verb, start + bids + end) == head + start + bids + end + "\n"
  {
  }

  lemma RecordLine(a: Auction, now: nat, order: seq<nat>, cal: Calendar)
    requires forall v | v in order :: v in a.bids
    ensures OkLine("RRC", After(RecordWords(a.start, a.bids, order, EndAsOf(a, now), cal))) ==
            "RRC OK" + StartShown(a.start, cal) + BidsShown(order, a.bids, cal) + EndShown(a, now, cal) + "\n"
  {
    RecordRead(a, now, order, cal);
    assert "RRC" + " OK" == "RRC OK";
    RecordLines("RRC", "RRC OK", StartShown(a.start, cal), BidsShown(order, a.bids, cal), EndShown(a, now, cal));
  }

  lemma RecordAnswered(i: State, id: nat, now: nat, order: seq<nat>, cal: Calendar)
    requires id <= 999 && (id in i.auctions ==> forall v | v in order :: v in i.auctions[id].bids)
    ensures var p := Answer(i, Request.ShowRecord(id), now);
            (p.Record? ==> forall v | v in order :: v in p.bids) &&
            Printed(Request.ShowRecord(id), p, order, cal) == ReplyToRecord(i.auctions, id, now, order, cal)
  {
    if id in i.auctions {
      RecordLine(i.auctions[id], now, order, cal);
    } else {
      assert StatusLine("RRC", "NOK") == "RRC NOK\n";
    }
  }

  lemma AssetWords(verb: string, space: string, ok: string, head: string, fname: string, size: string, bytes: string,
                   end: string)
    requires head == verb + space + ok + space
    ensures AssetWire(verb, space, ok, fname, size, bytes, end) ==
            head + fname + space + size + space + bytes + (end + end)
  {
  }

  lemma AssetAnswered(i: State, text: string, order: seq<nat>, cal: Calendar)
    requires GoodAidText(text) && text != ""
    ensures var p := AssetReply(i, text);
            !p.Record? && Printed(ShowAsset(text), p, order, cal) == ReplyToAsset(i.auctions, text)
  {
    DirectoryNames(i, text);
    assert StatusLine("RSA", "NOK") == "RSA NOK\n" && "RSA" + " OK " + "\n" == "RSA OK \n";
    if Named(i.auctions, text) && i.auctions[Num(text)].asset.Some? {
      var a := i.auctions[Num(text)];
      assert "RSA" + " " + "OK" + " " == "RSA OK ";
      AssetWords("RSA", " ", "OK", "RSA OK ", a.start.fname, Dec(|a.asset.value|), a.asset.value, "\n");
      assert "\n" + "\n" == "\n\n";
    }
  }

  // ---------- Over every run ----------

  /** One request that only asks. */
  lemma QueryAnswered(i: State, r: Request, now: nat, a: Account, order: seq<nat>, cal: Calendar)
    requires ValidRequest(r) && IsQuery(r) && Consistent(i) && AccountIs(i, UserOf(r), a)
    requires r.ShowRecord? && r.aid in i.auctions ==> forall v | v in order :: v in i.auctions[r.aid].bids
    ensures var p := Answer(i, r, now);
            (p.Record? ==> forall v | v in order :: v in p.bids) &&
            Printed(r, p, order, cal) == Expected(a, i.auctions, r, now, order, cal)
  {
    match r
    case List(firstEntry) => ListAnswered(i, firstEntry, now, order, cal);
    case MyAuctions(uid) => MyAuctionsAnswered(i, uid, a, now, order, cal);
    case MyBids(uid) => MyBidsAnswered(i, uid, a, now, order, cal);
    case ShowRecord(id) => RecordAnswered(i, id, now, order, cal);
    case ShowAsset(text) => AssetAnswered(i, text, order, cal);
  }

  lemma AccountRequestAnswered(i: State, r: Request, t1: nat, t2: nat, a: Account, order: seq<nat>, cal: Calendar)
    requires ValidRequest(r) && (r.Login? || r.Logout? || r.Unregister?) && Consistent(i) && AccountIs(i, r.uid, a)
    ensures var (i', p) := IdealStep(i, r, t1, t2);
            !p.Record? && Printed(r, p, order, cal) == Expected(a, i.auctions, r, t1, order, cal) &&
            i'.auctions == i.auctions
  {
    if r.uid in i.users { assert IndexesAre(i.users[r.uid], r.uid, i.auctions); }
    AccountAnswered(i, r, a, order, cal);
  }

  lemma TradeAnswered(i: State, r: Request, t1: nat, t2: nat, a: Account, order: seq<nat>, cal: Calendar)
    requires ValidRequest(r) && (r.Close? || r.BidOn?) && Consistent(i) && AccountIs(i, r.uid, a)
    ensures var (i', p) := IdealStep(i, r, t1, t2);
            !p.Record? && Printed(r, p, order, cal) == Expected(a, i.auctions, r, t1, order, cal) &&
            i'.auctions == AuctionsStep(a, i.auctions, r, t1, t2)
  {
    if r.Close? {
      CloseAnswered(i, r, a, t1, t2, order, cal);
      CloseMakes(i, r, a, t1, t2);
    } else {
      BidAnswered(i, r, a, t1, t2, order, cal);
      BidMakes(i, r, a, t1, t2);
    }
  }

  /** One request that may change something. */
  lemma ChangeAnswered(i: State, r: Request, t1: nat, t2: nat, a: Account, order: seq<nat>, cal: Calendar)
    requires ValidRequest(r) && !IsQuery(r) && Consistent(i) && AccountIs(i, r.uid, a)
    ensures var (i', p) := IdealStep(i, r, t1, t2);
            !p.Record? && Printed(r, p, order, cal) == Expected(a, i.auctions, r, t1, order, cal) &&
            i'.auctions == AuctionsStep(a, i.auctions, r, t1, t2)
  {
    if r.Open? {
      OpenAnswered(i, r, a, t2, order, cal);
    } else if r.Close? || r.BidOn? {
      TradeAnswered(i, r, t1, t2, a, order, cal);
    } else {
      AccountRequestAnswered(i, r, t1, t2, a, order, cal);
    }
  }

  /** One request to the ideal server: the text expected, and the auctions expected. */
  lemma IdealAnswers(i: State, r: Request, t1: nat, t2: nat, a: Account, order: seq<nat>, cal: Calendar)
    requires ValidRequest(r) && Consistent(i) && AccountIs(i, UserOf(r), a)
    requires r.ShowRecord? && r.aid in i.auctions ==> forall v | v in order :: v in i.auctions[r.aid].bids
    ensures var (i', p) := IdealStep(i, r, t1, t2);
            (p.Record? ==> forall v | v in order :: v in p.bids) &&
            Printed(r, p, order, cal) == Expected(a, i.auctions, r, t1, order, cal) &&
            i'.auctions == AuctionsStep(a, i.auctions, r, t1, t2)
  {
    if IsQuery(r) {
      QueryAnswered(i, r, t1, a, order, cal);
    } else {
      ChangeAnswered(i, r, t1, t2, a, order, cal);
    }
  }

  lemma IdealMakes(i: State, r: Request, t1: nat, t2: nat, a: Account)
    requires ValidRequest(r) && Consistent(i) && AccountIs(i, UserOf(r), a)
    ensures IdealStep(i, r, t1, t2).0.auctions == AuctionsStep(a, i.auctions, r, t1, t2)
  {
    IdealAnswers(i, r, t1, t2, a, [], _ => EPOCH);
  }

  lemma OneMore(run: seq<Event>, e: Event)
    requires ValidRun(run) && ValidRun(run + [e]) && ValidRequest(e.req)
    ensures AuctionsAfter(run + [e]) ==
            AuctionsStep(AccountAfter(run, UserOf(e.req)), AuctionsAfter(run), e.req, e.t1, e.t2)
    ensures forall uid :: AccountAfter(run + [e], uid) == AccountStep(AccountAfter(run, uid), e.req, uid)
  {
  }

  lemma AccountOfIdeal(run: seq<Event>, uid: string)
    requires ValidRun(run)
    ensures AccountIs(IdealReached(run), uid, AccountAfter(run, uid)) && Consistent(IdealReached(run))
  {
    AccountsFollow(run, uid);
    IdealIsConsistent(run);
  }

  /** Main result: the auctions of the ideal server are what the requests so far make of them. */
  lemma {:induction false} AuctionsFollow(run: seq<Event>)
    requires ValidRun(run)
    ensures IdealReached(run).auctions == AuctionsAfter(run)
  {
    if run != [] {
      var k := |run| - 1;
      ValidPrefix(run, k);
      AuctionsFollow(run[..k]);
      var r := run[k].req;
      AccountOfIdeal(run[..k], UserOf(r));
      IdealMakes(IdealReached(run[..k]), r, run[k].t1, run[k].t2, AccountAfter(run[..k], UserOf(r)));
    }
  }

  /** Main result: every reply is, word for word, the text that the requests before it call for. */
  lemma EveryReply(run: seq<Event>, k: nat, order: seq<nat>, cal: Calendar)
    requires ValidRun(run) && k < |run|
    requires ReplyAt(run, k).Record? ==> Enumerates(order, ReplyAt(run, k).bids)
    ensures ValidRun(run[..k])
    ensures var r, m := run[k].req, AuctionsAfter(run[..k]);
            (r.ShowRecord? && r.aid in m ==> Enumerates(order, m[r.aid].bids)) &&
            Printed(r, ReplyAt(run, k), order, cal) ==
            Expected(AccountAfter(run[..k], UserOf(r)), m, r, run[k].t1, order, cal)
  {
    ValidPrefix(run, k);
    LazyRefinesIdeal(run, k);
    AuctionsFollow(run[..k]);
    var r, i := run[k].req, IdealReached(run[..k]);
    AccountOfIdeal(run[..k], UserOf(r));
    IdealAnswers(i, r, run[k].t1, run[k].t2, AccountAfter(run[..k], UserOf(r)), order, cal);
  }
}
