/** The directory tree of the server in full: every path and every text, as the state has it. */
module Layout {
  import opened Text
  import opened Domain
  import opened FileText
  import opened Paths
  import opened FileView

  // ---------- Paths ----------

  lemma JoinFour(a: string, b: string, c: string, d: string)
    ensures Join([a, b, c]) == a + "/" + b + "/" + c
    ensures Join([a, b, c, d]) == a + "/" + b + "/" + c + "/" + d
  {
    assert Join([c, d]) == c + "/" + d;
    assert Join([b, c]) == b + "/" + c;
    assert [a, b, c][1..] == [b, c] && [b, c, d][1..] == [c, d] && [a, b, c, d][1..] == [b, c, d];
  }

  lemma JoinFive(a: string, b: string, c: string, d: string, e: string)
    ensures Join([a, b, c, d, e]) == a + "/" + b + "/" + c + "/" + d + "/" + e
  {
    JoinFour(b, c, d, e);
    assert [a, b, c, d, e][1..] == [b, c, d, e];
  }

  lemma FourUnder(a: string, b: string, top: string, c: string, d: string, end: string)
    requires top == a + "/" + b + "/" && end == "/" + d
    ensures Join([a, b, c]) == top + c && Join([a, b, c, d]) == top + c + end
  {
    JoinFour(a, b, c, d);
  }

  lemma FiveUnder(a: string, b: string, top: string, c: string, d: string, middle: string, e: string)
    requires top == a + "/" + b + "/" && middle == "/" + d + "/"
    ensures Join([a, b, c, d, e]) == top + c + middle + e
  {
    JoinFive(a, b, c, d, e);
  }

  lemma UserPaths(uid: string)
    ensures Name(UserDir(uid)) == "server/users/" + uid
    ensures Name(PassFile(uid)) == "server/users/" + uid + "/pass.txt"
    ensures Name(LoginFile(uid)) == "server/users/" + uid + "/login.txt"
  {
    FourUnder("server", "users", "server/users/", uid, "pass.txt", "/pass.txt");
    FourUnder("server", "users", "server/users/", uid, "login.txt", "/login.txt");
  }

  lemma IndexPaths(uid: string, id: nat)
    ensures Name(HostedFile(uid, id)) == "server/users/" + uid + "/hosted/" + (Pad3(id) + ".txt")
    ensures Name(BiddedFile(uid, id)) == "server/users/" + uid + "/bidded/" + (Pad3(id) + ".txt")
  {
    FiveUnder("server", "users", "server/users/", uid, "hosted", "/hosted/", IdTxt(id));
    FiveUnder("server", "users", "server/users/", uid, "bidded", "/bidded/", IdTxt(id));
  }

  lemma AuctionPaths(id: nat)
    ensures Name(AuctionDir(id)) == "server/auctions/" + Pad3(id)
    ensures Name(StartFile(id)) == "server/auctions/" + Pad3(id) + "/" + ("START_" + Pad3(id) + ".txt")
    ensures Name(EndFile(id)) == "server/auctions/" + Pad3(id) + "/" + ("END_" + Pad3(id) + ".txt")
  {
    FourUnder("server", "auctions", "server/auctions/", Pad3(id), StartTxt(id), "/" + StartTxt(id));
    FourUnder("server", "auctions", "server/auctions/", Pad3(id), EndTxt(id), "/" + EndTxt(id));
  }

  lemma ContentPaths(id: nat, value: nat, fname: string)
    ensures Name(BidFile(id, value)) == "server/auctions/" + Pad3(id) + "/bids/" + (Dec(value) + ".txt")
    ensures Name(AssetFile(id, fname)) == "server/auctions/" + Pad3(id) + "/asset/" + fname
  {
    FiveUnder("server", "auctions", "server/auctions/", Pad3(id), "bids", "/bids/", ValueTxt(value));
    FiveUnder("server", "auctions", "server/auctions/", Pad3(id), "asset", "/asset/", fname);
  }

  // ---------- Texts ----------

  lemma AfterThree(a: string, b: string, c: string)
    ensures After([a, b, c]) == " " + a + " " + b + " " + c
  {
    assert After([c]) == " " + c;
    assert After([b, c]) == " " + b + After([c]);
    assert [a, b, c][1..] == [b, c];
  }

  /** START holds the host, the name, the file, the start value, the time active, the date, the clock and the
      seconds of the start. */
  lemma StartIs(st: Start, cal: Calendar)
    ensures StartText(st, cal) ==
            st.owner + " " + st.name + " " + st.fname + " " + Dec(st.startValue) + " " + Dec(st.timeActive) + " " +
            cal(st.startTime).date + " " + cal(st.startTime).clock + " " + Dec(st.startTime)
  {
    var w := StartWords(st, cal);
    AfterThree(w[1], w[2], w[3]);
    AfterThree(w[4], w[5], w[6]);
    assert After([w[7]]) == " " + w[7];
    AfterAppend([w[1], w[2], w[3]], [w[4], w[5], w[6]]);
    AfterAppend([w[1], w[2], w[3]] + [w[4], w[5], w[6]], [w[7]]);
    assert w[1..] == [w[1], w[2], w[3]] + [w[4], w[5], w[6]] + [w[7]];
  }

  /** A bid file holds the bidder, the value, the date and clock of the bid and the seconds since the start. */
  lemma BidIs(value: nat, b: Bid, cal: Calendar)
    ensures BidText(value, b, cal) ==
            b.bidder + " " + Dec(value) + " " + cal(b.time).date + " " + cal(b.time).clock + " " + IntText(b.secs)
  {
    var w := BidWords(value, b, cal);
    AfterThree(w[1], w[2], w[3]);
    assert After([w[4]]) == " " + w[4];
    AfterAppend([w[1], w[2], w[3]], [w[4]]);
    assert w[1..] == [w[1], w[2], w[3]] + [w[4]];
  }

  /** END holds the date and clock of the end and the seconds since the start. */
  lemma EndIs(e: End, cal: Calendar)
    ensures EndText(e, cal) == cal(e.time).date + " " + cal(e.time).clock + " " + IntText(e.secs)
  {
    var w := EndWords(e, cal);
    assert After([w[2]]) == " " + w[2];
    assert After([w[1], w[2]]) == " " + w[1] + After([w[2]]);
    assert w[1..] == [w[1], w[2]];
  }

  // ---------- The whole tree ----------

  function At(fs: map<string, Node>, path: string): Option<Node> { if path in fs then Some(fs[path]) else None }

  lemma AtLoc(fs: map<string, Node>, view: View, s: State, cal: Calendar, l: Loc)
    requires Mirrors(fs, view) && Shown(view, s, cal) && GoodLoc(l)
    ensures At(fs, Name(l)) == NodeAt(s, cal, l)
  {
    PathLookup(fs, view, l);
    ShownAt(view, s, cal, l);
  }

  /** Main result: the files of a user. */
  lemma UserOnDisk(fs: map<string, Node>, view: View, s: State, cal: Calendar, uid: string, id: nat)
    requires Mirrors(fs, view) && Shown(view, s, cal) && GoodUid(uid)
    ensures At(fs, "server/users/" + uid) == if uid in s.users then Some(Dir) else None
    ensures At(fs, "server/users/" + uid + "/pass.txt") ==
            if uid in s.users && s.users[uid].pass.Some? then Some(File(s.users[uid].pass.value)) else None
    ensures At(fs, "server/users/" + uid + "/login.txt") ==
            if uid in s.users && s.users[uid].login then Some(File("")) else None
    ensures At(fs, "server/users/" + uid + "/hosted/" + (Pad3(id) + ".txt")) ==
            if uid in s.users && id in s.users[uid].hosted then Some(File("")) else None
    ensures At(fs, "server/users/" + uid + "/bidded/" + (Pad3(id) + ".txt")) ==
            if uid in s.users && id in s.users[uid].bidded then Some(File("")) else None
  {
    UserPaths(uid);
    IndexPaths(uid, id);
    AtLoc(fs, view, s, cal, UserDir(uid));
    AtLoc(fs, view, s, cal, PassFile(uid));
    AtLoc(fs, view, s, cal, LoginFile(uid));
    AtLoc(fs, view, s, cal, HostedFile(uid, id));
    AtLoc(fs, view, s, cal, BiddedFile(uid, id));
  }

  /** Main result: the files of an auction. */
  lemma AuctionOnDisk(fs: map<string, Node>, view: View, s: State, cal: Calendar, id: nat)
    requires Mirrors(fs, view) && Shown(view, s, cal)
    ensures At(fs, "server/auctions/" + Pad3(id)) == if id in s.auctions then Some(Dir) else None
    ensures At(fs, "server/auctions/" + Pad3(id) + "/" + ("START_" + Pad3(id) + ".txt")) ==
            if id in s.auctions then
              var st := s.auctions[id].start;
              Some(File(st.owner + " " + st.name + " " + st.fname + " " + Dec(st.startValue) + " " +
                        Dec(st.timeActive) + " " + cal(st.startTime).date + " " + cal(st.startTime).clock + " " +
                        Dec(st.startTime)))
            else None
    ensures At(fs, "server/auctions/" + Pad3(id) + "/" + ("END_" + Pad3(id) + ".txt")) ==
            if id in s.auctions && s.auctions[id].end.Some? then
              var e := s.auctions[id].end.value;
              Some(File(cal(e.time).date + " " + cal(e.time).clock + " " + IntText(e.secs)))
            else None
  {
    AuctionPaths(id);
    AtLoc(fs, view, s, cal, AuctionDir(id));
    AtLoc(fs, view, s, cal, StartFile(id));
    AtLoc(fs, view, s, cal, EndFile(id));
    if id in s.auctions {
      StartIs(s.auctions[id].start, cal);
      if s.auctions[id].end.Some? { EndIs(s.auctions[id].end.value, cal); }
    }
  }

  /** Main result: the bids and the asset of an auction. */
  lemma ContentOnDisk(fs: map<string, Node>, view: View, s: State, cal: Calendar, id: nat, value: nat, fname: string)
    requires Mirrors(fs, view) && Shown(view, s, cal) && GoodFname(fname) && fname != "." && fname != ".."
    ensures At(fs, "server/auctions/" + Pad3(id) + "/bids/" + (Dec(value) + ".txt")) ==
            if id in s.auctions && value in s.auctions[id].bids then
              var b := s.auctions[id].bids[value];
              Some(File(b.bidder + " " + Dec(value) + " " + cal(b.time).date + " " + cal(b.time).clock + " " +
                        IntText(b.secs)))
            else None
    ensures At(fs, "server/auctions/" + Pad3(id) + "/asset/" + fname) ==
            if id in s.auctions && s.auctions[id].start.fname == fname && s.auctions[id].asset.Some?
            then Some(File(s.auctions[id].asset.value)) else None
  {
    ContentPaths(id, value, fname);
    AtLoc(fs, view, s, cal, BidFile(id, value));
    AtLoc(fs, view, s, cal, AssetFile(id, fname));
    if id in s.auctions && value in s.auctions[id].bids { BidIs(value, s.auctions[id].bids[value], cal); }
  }
}
