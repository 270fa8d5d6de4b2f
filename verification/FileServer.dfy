/** The server over its path-keyed files: every helper and every request handler, proved to do to the
    files what the state model says and to answer the text the reply model says. */
module FileServer {
  import opened Text
  import opened Domain
  import opened LazyServer
  import opened Invariants
  import opened FileText
  import opened Wire
  import opened Paths
  import opened FileView
  import opened Streams
  import opened Requests
  import opened Handling

  class AuctionServer {
    /** The directory trees server/users and server/auctions: path string to node. */
    var fs: map<string, Node>
    const cal: Calendar

    ghost var view: View
    ghost var state: State
    ghost var clock: nat

    ghost predicate OnDisk()
      reads this
    {
      Mirrors(fs, view) && Shown(view, state, cal)
    }

    /** All START files read back as they were written. */
    ghost predicate Readable()
      reads this
    {
      OnDisk() && StartsAreWords(state)
    }

    ghost predicate Valid()
      reads this
    {
      OnDisk() && Inv(state, clock)
    }

    /** A fresh server: the two root directories. */
    constructor (cal: Calendar)
      ensures Valid() && state == EMPTY && clock == 0 && this.cal == cal
    {
      this.cal := cal;
      fs := map[Name(UsersRoot) := Dir, Name(AuctionsRoot) := Dir];
      view := map[UsersRoot := Dir, AuctionsRoot := Dir];
      state := EMPTY;
      clock := 0;
      new;
      RootsMirror();
    }

    // ---------- File operations ----------

    /** `stat`, `access` or `opendir` succeeds. */
    method Present(l: Loc) returns (there: bool)
      requires Mirrors(fs, view) && GoodLoc(l)
      ensures there == (l in view)
    {
      PathLookup(fs, view, l);
      there := Name(l) in fs;
    }

    /** `fopen(path, "r")` and the text in the file. */
    method ReadText(l: Loc) returns (text: Option<string>)
      requires Mirrors(fs, view) && GoodLoc(l)
      ensures text == if l in view && view[l].File? then Some(view[l].text) else None
    {
      PathLookup(fs, view, l);
      text := if Name(l) in fs && fs[Name(l)].File? then Some(fs[Name(l)].text) else None;
    }

    /** `fopen(path, "w")`, `fprintf`, `fclose`. */
    method WriteText(l: Loc, text: string)
      requires Mirrors(fs, view) && GoodLoc(l)
      modifies this`fs, this`view
      ensures Mirrors(fs, view) && view == old(view)[l := File(text)]
    {
      PathWrite(fs, view, l, File(text));
      fs := fs[Name(l) := File(text)];
      view := view[l := File(text)];
    }

    /** `mkdir` fails when the name exists. */
    method MakeDir(l: Loc) returns (failed: bool)
      requires Mirrors(fs, view) && GoodLoc(l)
      modifies this`fs, this`view
      ensures Mirrors(fs, view) && failed == (l in old(view))
      ensures view == if failed then old(view) else old(view)[l := Dir]
    {
      PathLookup(fs, view, l);
      failed := Name(l) in fs;
      if !failed {
        PathWrite(fs, view, l, Dir);
        fs := fs[Name(l) := Dir];
        view := view[l := Dir];
      }
    }

    /** `mkdir` of a directory that may be there already, its result ignored. */
    method EnsureDir(l: Loc)
      requires Mirrors(fs, view) && GoodLoc(l) && (l in view ==> view[l] == Dir)
      modifies this`fs, this`view
      ensures Mirrors(fs, view) && view == old(view)[l := Dir]
    {
      var failed := MakeDir(l);
      if failed { assert view == view[l := Dir]; }
    }

    method Remove(l: Loc)
      requires Mirrors(fs, view) && GoodLoc(l)
      modifies this`fs, this`view
      ensures Mirrors(fs, view) && view == old(view) - {l}
    {
      PathRemove(fs, view, l);
      fs := fs - {Name(l)};
      view := view - {l};
    }

    /** All `readdir` calls on one directory, entries in any order. */
    method ReadDir(dir: Loc) returns (names: seq<string>)
      requires Mirrors(fs, view) && GoodLoc(dir)
      ensures IsListing(names, view, dir)
    {
      var d := Name(dir);
      var all := {".", ".."} + set path | path in fs && IsEntry(d, path) :: EntryName(d, path);
      forall name
        ensures name in all <==> IsDot(name) || HasChild(view, dir, name)
      {
        EntriesAreChildren(fs, view, dir, name);
      }
      var todo := all;
      names := [];
      while todo != {}
        invariant forall name :: name in all <==> name in todo || name in names
        invariant forall name | name in names :: name !in todo
        invariant forall i, j | 0 <= i < j < |names| :: names[i] != names[j]
        decreases todo
      {
        var name :| name in todo;
        names := names + [name];
        todo := todo - {name};
      }
    }

    /** `scandir` with `alphasort`. */
    method ScanDir(dir: Loc) returns (names: seq<string>)
      requires Mirrors(fs, view) && GoodLoc(dir)
      ensures IsListing(names, view, dir) && Sorted(names)
    {
      var found := ReadDir(dir);
      var todo := set name | name in found;
      names := [];
      while todo != {}
        invariant forall name :: name in found <==> name in todo || name in names
        invariant forall name, later | name in names && later in todo :: LexLess(name, later)
        invariant Sorted(names)
        decreases todo
      {
        ghost var least := LeastName(todo);
        var name :| name in todo && forall n | n in todo :: n == name || LexLess(name, n);
        SortedMore(names, name);
        names := names + [name];
        todo := todo - {name};
      }
      SortedDiffer(names);
    }

    // ---------- Accounts (aux_functions.c:3-108) ----------

    method VerifyUserExists(uid: string) returns (b: bool)
      requires OnDisk() && GoodUid(uid)
      ensures b == Exists(state, uid)
    {
      GoodUidLocs(uid);
      ShownAt(view, state, cal, UserDir(uid));
      ShownAt(view, state, cal, PassFile(uid));
      var dir := Present(UserDir(uid));
      if !dir { return false; }
      b := Present(PassFile(uid));
    }

    method IsUserLogin(uid: string) returns (b: bool)
      requires OnDisk() && GoodUid(uid)
      ensures b == LoggedIn(state, uid)
    {
      GoodUidLocs(uid);
      ShownAt(view, state, cal, LoginFile(uid));
      b := Present(LoginFile(uid));
    }

    /** The missing-file branch of the code cannot be taken: a registered or logged-in user has pass.txt. */
    method VerifyPasswordCorrect(uid: string, pass: string) returns (b: bool)
      requires Valid() && GoodUid(uid) && GoodPass(pass) && Exists(state, uid)
      ensures b == PasswordOk(state, uid, pass)
    {
      GoodUidLocs(uid);
      ShownAt(view, state, cal, PassFile(uid));
      var text := ReadText(PassFile(uid));
      assert UserOk(state.users[uid], uid, state.auctions);
      PassRoundTrip(state.users[uid].pass.value);
      b := text.Some? && Fscanf(text.value, [Word]) == [Str(pass)];
    }

    method CreateUserDirs(uid: string)
      requires OnDisk() && GoodUid(uid)
      modifies this`fs, this`view
      ensures Mirrors(fs, view)
      ensures view == old(view)[UserDir(uid) := Dir][HostedDir(uid) := Dir][BiddedDir(uid) := Dir]
    {
      GoodUidLocs(uid);
      ShownUserDirs(view, state, cal, uid);
      EnsureDir(UserDir(uid));
      EnsureDir(HostedDir(uid));
      EnsureDir(BiddedDir(uid));
    }

    method CreateUserFiles(uid: string, pass: string)
      requires OnDisk() && GoodUid(uid)
      modifies this`fs, this`view, this`state
      ensures OnDisk() && state == CreateUser(old(state), uid, pass)
    {
      GoodUidLocs(uid);
      ShownCreateUser(view, state, cal, uid, pass);
      CreateUserDirs(uid);
      WriteText(PassFile(uid), pass);
      WriteText(LoginFile(uid), "");
      state := CreateUser(state, uid, pass);
    }

    method ChangeUserLogin(uid: string)
      requires OnDisk() && GoodUid(uid) && uid in state.users
      modifies this`fs, this`view, this`state
      ensures OnDisk() && state == ToggleLogin(old(state), uid)
    {
      GoodUidLocs(uid);
      ShownToggle(view, state, cal, uid);
      ShownAt(view, state, cal, LoginFile(uid));
      var there := Present(LoginFile(uid));
      if !there {
        WriteText(LoginFile(uid), "");
      } else {
        Remove(LoginFile(uid));
      }
      state := ToggleLogin(state, uid);
    }

    method DeleteUserFiles(uid: string)
      requires OnDisk() && GoodUid(uid) && uid in state.users
      modifies this`fs, this`view, this`state
      ensures OnDisk() && state == DeleteUser(old(state), uid)
    {
      GoodUidLocs(uid);
      ShownDelete(view, state, cal, uid);
      Remove(PassFile(uid));
      Remove(LoginFile(uid));
      state := DeleteUser(state, uid);
    }

    // ---------- Scans (aux_functions.c:304-465, 516-532) ----------

    method IsDirectoryEmpty(dir: Loc) returns (b: bool)
      requires OnDisk() && Scanned(dir) && GoodLoc(dir)
      ensures b == (DirNumbers(state, dir) == {})
    {
      var names := ReadDir(dir);
      ListingMeets(names, view, state, cal, dir);
      b := OnlyDots(names);
    }

    /** The first entry read is thrown away unseen. */
    method ExistsAuctions() returns (b: bool, ghost firstEntry: Option<nat>)
      requires OnDisk()
      ensures b == SeesAuctions(state, firstEntry)
      ensures (b ==> state.auctions != map[]) && (!b ==> |state.auctions| <= 1)
    {
      var names := ReadDir(AuctionsRoot);
      assert "." in names;
      firstEntry := if IsDot(names[0]) then None else Some(Atoi(names[0]));
      var none := OnlyDots(names[1..]);
      b := !none;
      SeenAfterFirst(names, view, state, cal, firstEntry);
      if none { UnseenAreFew(state, firstEntry); }
    }

    method GetNextAuctionId() returns (next: nat)
      requires OnDisk()
      ensures next == NextId(state)
    {
      var names := ReadDir(AuctionsRoot);
      ListingMeets(names, view, state, cal, AuctionsRoot);
      var max := MaxNumber(names);
      next := max + 1;
    }

    method HostedBySelf(id: nat, uid: string) returns (b: bool)
      requires OnDisk() && GoodUid(uid) && uid in state.users
      ensures b == (id in state.users[uid].hosted)
    {
      GoodUidLocs(uid);
      var names := ReadDir(HostedDir(uid));
      ListingMeets(names, view, state, cal, HostedDir(uid));
      b := HasNumber(names, id);
    }

    /** The path is built from the text as it came; `opendir` does not mind a trailing slash. */
    method ExistsAuction(aidText: string) returns (b: bool)
      requires OnDisk() && AllDigits(aidText)
      ensures b == DirectoryExists(state, aidText)
    {
      var path := Name(AuctionsRoot) + "/" + aidText;
      if path[|path| - 1] == '/' { path := path[..|path| - 1]; }
      b := path in fs && fs[path].Dir?;
      AuctionPath(fs, view, state, cal, aidText);
    }

    // ---------- ongoing_auction (aux_functions.c:468-512) ----------

    method ReadStartForOngoing(id: nat) returns (found: bool, timeActive: nat, startTime: nat)
      requires Readable()
      ensures found == (id in state.auctions)
      ensures found ==>
          timeActive == state.auctions[id].start.timeActive && startTime == state.auctions[id].start.startTime
    {
      ShownAt(view, state, cal, StartFile(id));
      var text := ReadText(StartFile(id));
      if text.None? { return false, 0, 0; }
      ReadByOngoing(state.auctions[id].start, cal);
      var fields := Fscanf(text.value, ONGOING_FORMAT);
      return true, fields[0].i, fields[1].i;
    }

    method WriteEnd(id: nat, e: End)
      requires OnDisk() && id in state.auctions
      modifies this`fs, this`view, this`state
      ensures OnDisk()
      ensures state == old(state).(auctions := old(state).auctions[id := old(state).auctions[id].(end := Some(e))])
      ensures old(Readable()) ==> Readable()
    {
      var text := EndText(e, cal);
      ShownEnd(view, state, cal, id, e);
      WriteText(EndFile(id), text);
      state := state.(auctions := state.auctions[id := state.auctions[id].(end := Some(e))]);
    }

    method HasEnd(id: nat) returns (b: bool)
      requires OnDisk()
      ensures b <==> id in state.auctions && state.auctions[id].end.Some?
    {
      ShownAt(view, state, cal, EndFile(id));
      b := Present(EndFile(id));
    }

    method OngoingAuction(id: nat, now: nat) returns (open: bool)
      requires Readable()
      modifies this`fs, this`view, this`state
      ensures Readable()
      ensures state == Notice(old(state), {id}, now) && open == Ongoing(old(state), id, now)
    {
      NoticeOne(state, id, now);
      var ended := HasEnd(id);
      if ended { return false; }
      var found, timeActive, startTime := ReadStartForOngoing(id);
      if !found { return false; }
      var closure := startTime + timeActive;
      if now >= closure {
        WriteEnd(id, End(closure, timeActive));
        return false;
      }
      return true;
    }

    // ---------- Bids (aux_functions.c:535-603) ----------

    method MaxBid(id: nat) returns (maxBid: nat)
      requires OnDisk() && id in state.auctions
      ensures maxBid == MaxOf(state.auctions[id].bids.Keys)
    {
      var names := ReadDir(BidsDir(id));
      ListingMeets(names, view, state, cal, BidsDir(id));
      maxBid := MaxNumber(names);
    }

    method BidAccepted(id: nat, value: nat, uid: string, now: nat) returns (accepted: bool)
      requires Readable() && GoodUid(uid) && id in state.auctions && uid in state.users
      modifies this`fs, this`view, this`state
      ensures OnDisk() && accepted == Outbids(old(state).auctions[id], value)
      ensures state == if accepted then PlaceBid(old(state), id, value, uid, now) else old(state)
    {
      var maxBid := MaxBid(id);
      var found, startValue, startTime := ReadStartForBid(id);
      if !found { return false; }
      var bar := if maxBid > startValue then maxBid else startValue;
      OutbidsBar(state.auctions[id], value, maxBid, bar);
      if value > bar {
        CreateBidFiles(id, value, uid, now, startTime);
        return true;
      }
      return false;
    }

    method ReadStartForBid(id: nat) returns (found: bool, startValue: nat, startTime: nat)
      requires Readable()
      ensures found == (id in state.auctions)
      ensures found ==>
          startValue == state.auctions[id].start.startValue && startTime == state.auctions[id].start.startTime
    {
      ShownAt(view, state, cal, StartFile(id));
      var text := ReadText(StartFile(id));
      if text.None? { return false, 0, 0; }
      ReadByBid(state.auctions[id].start, cal);
      var fields := Fscanf(text.value, BID_FORMAT);
      return true, fields[0].i, fields[1].i;
    }

    method WriteBid(id: nat, value: nat, b: Bid)
      requires OnDisk() && id in state.auctions
      modifies this`fs, this`view, this`state
      ensures OnDisk() && state == WithBid(old(state), id, value, b)
    {
      ShownBid(view, state, cal, id, value, b);
      var text := BidText(value, b, cal);
      WriteText(BidFile(id, value), text);
      state := WithBid(state, id, value, b);
    }

    method WriteEntry(id: nat, uid: string)
      requires OnDisk() && GoodUid(uid) && uid in state.users
      modifies this`fs, this`view, this`state
      ensures OnDisk() && state == WithEntry(old(state), id, uid)
    {
      GoodUidLocs(uid);
      ShownEntry(view, state, cal, id, uid);
      WriteText(BiddedFile(uid, id), "");
      state := WithEntry(state, id, uid);
    }

    method CreateBidFiles(id: nat, value: nat, uid: string, now: nat, startTime: nat)
      requires OnDisk() && GoodUid(uid) && id in state.auctions && uid in state.users
      requires startTime == state.auctions[id].start.startTime
      modifies this`fs, this`view, this`state
      ensures OnDisk() && state == PlaceBid(old(state), id, value, uid, now)
    {
      WriteBid(id, value, Bid(uid, now, now - startTime));
      WriteEntry(id, uid);
    }

    // ---------- close_auction (aux_functions.c:607-634) ----------

    method ReadStartForClose(id: nat) returns (found: bool, startTime: nat)
      requires Readable()
      ensures found == (id in state.auctions)
      ensures found ==> startTime == state.auctions[id].start.startTime
    {
      ShownAt(view, state, cal, StartFile(id));
      var text := ReadText(StartFile(id));
      if text.None? { return false, 0; }
      ReadByClose(state.auctions[id].start, cal);
      var fields := Fscanf(text.value, CLOSE_FORMAT);
      return true, fields[0].i;
    }

    method CloseAuctionFiles(id: nat, now: nat) returns (ok: bool)
      requires Readable() && id in state.auctions
      modifies this`fs, this`view, this`state
      ensures OnDisk() && ok && state == CloseAuction(old(state), id, now)
    {
      var found, startTime := ReadStartForClose(id);
      if !found { return false; }
      WriteEnd(id, End(now, now - startTime));
      return true;
    }

    // ---------- create_auction (aux_functions.c:254-301) ----------

    method MakeAuctionDirs(id: nat)
      requires Mirrors(fs, view) && AuctionDir(id) !in view && AssetDir(id) !in view && BidsDir(id) !in view
      modifies this`fs, this`view
      ensures Mirrors(fs, view)
      ensures view == old(view)[AuctionDir(id) := Dir][AssetDir(id) := Dir][BidsDir(id) := Dir]
    {
      var failed := MakeDir(AuctionDir(id));
      failed := MakeDir(AssetDir(id));
      failed := MakeDir(BidsDir(id));
    }

    /** Everything but the asset file. */
    method CreateBareAuction(start: Start, id: nat)
      requires Mirrors(fs, view) && Plain(start.owner)
      requires AuctionDir(id) !in view && AssetDir(id) !in view && BidsDir(id) !in view
      modifies this`fs, this`view
      ensures Mirrors(fs, view) && view == BareView(old(view), cal, id, start)
    {
      var text := StartText(start, cal);
      WriteText(HostedFile(start.owner, id), "");
      MakeAuctionDirs(id);
      WriteText(StartFile(id), text);
    }

    /** 0 when the asset could not be stored, else the new identifier; the auction is made either way. */
    method CreateAuctionFiles(sock: Socket, start: Start, fsize: nat) returns (result: nat, ghost upload: Upload)
      requires OnDisk() && Dense(state) && GoodStart(start) && start.owner in state.users
      modifies this`fs, this`view, this`state, sock`incoming
      ensures OnDisk() && state == CreateAuction(old(state), start, upload)
      ensures result == if UploadSucceeds(start.fname, upload) then NextId(old(state)) else 0
      ensures UploadFrom(old(sock.incoming), fsize, upload)
      ensures !IsDot(start.fname) && |old(sock.incoming)| > fsize ==> sock.incoming == old(sock.incoming)[fsize + 1..]
    {
      NextIdIsFresh(state);
      ghost var v, s := view, sock.incoming;
      var id := GetNextAuctionId();
      GoodUidLocs(start.owner);
      FreshLocs(v, state, cal, id);
      CreateBareAuction(start, id);
      if start.fname == "." || start.fname == ".." {
        upload := EmptyUpload(s, fsize);
        result := 0;
      } else {
        FnameIsPlain(start.fname);
        var file, r := StoreFile(sock, fsize);
        upload := StoredUpload(s, fsize, start.fname, file, r);
        WriteText(AssetFile(id, start.fname), file);
        result := if r != 0 then id else 0;
      }
      ShownCreate(v, state, cal, start, upload);
      state := CreateAuction(state, start, upload);
    }

    // ---------- Accounts over UDP (udp_functions.c:3-96) ----------

    method Login(uid: string, pass: string) returns (code: string)
      requires Valid() && GoodUid(uid) && GoodPass(pass)
      modifies this`fs, this`view, this`state
      ensures OnDisk() && (state, code) == Coded(LoginStep(old(state), uid, pass))
    {
      var there := VerifyUserExists(uid);
      if !there {
        CreateUserFiles(uid, pass);
        return "REG";
      }
      var right := VerifyPasswordCorrect(uid, pass);
      if !right { return "NOK"; }
      var logged := IsUserLogin(uid);
      if logged { return "NOK"; }
      ChangeUserLogin(uid);
      return "OK";
    }

    method Logout(uid: string, pass: string) returns (code: string)
      requires Valid() && GoodUid(uid) && GoodPass(pass)
      modifies this`fs, this`view, this`state
      ensures OnDisk() && (state, code) == Coded(LogoutStep(old(state), uid, pass))
    {
      var there := VerifyUserExists(uid);
      if !there { return "UNR"; }
      var right := VerifyPasswordCorrect(uid, pass);
      if !right { return "NOK"; }
      var logged := IsUserLogin(uid);
      if !logged { return "NOK"; }
      ChangeUserLogin(uid);
      return "OK";
    }

    method Unregister(uid: string, pass: string) returns (code: string)
      requires Valid() && GoodUid(uid) && GoodPass(pass)
      modifies this`fs, this`view, this`state
      ensures OnDisk() && (state, code) == Coded(UnregisterStep(old(state), uid, pass))
    {
      var there := VerifyUserExists(uid);
      if !there { return "NOK"; }
      var right := VerifyPasswordCorrect(uid, pass);
      if !right { return "NOK"; }
      var logged := IsUserLogin(uid);
      if !logged { return "NOK"; }
      DeleteUserFiles(uid);
      return "OK";
    }

    method HandleLogin(buffer: string, now: nat) returns (reply: string)
      requires Valid() && clock <= now
      modifies this
      ensures Valid() && clock == now
      ensures Answered(HasCredentials(buffer), Request.Login(UidPart(buffer), PassPart(buffer)), now, old(state), state,
          reply, [], cal)
    {
      ghost var s, t := state, clock;
      var ok, uid, pass := ReadCredentialsUdp(buffer);
      if ok {
        var code := Login(uid, pass);
        StepKeeps(s, Request.Login(uid, pass), t, now, now);
        reply := StatusLine("RLI", code);
        clock := now;
      } else {
        reply := Malformed("RLI", now, Request.Login(uid, pass));
      }
    }

    method HandleLogout(buffer: string, now: nat) returns (reply: string)
      requires Valid() && clock <= now
      modifies this
      ensures Valid() && clock == now
      ensures Answered(HasCredentials(buffer), Request.Logout(UidPart(buffer), PassPart(buffer)), now, old(state),
          state, reply, [], cal)
    {
      ghost var s, t := state, clock;
      var ok, uid, pass := ReadCredentialsUdp(buffer);
      if ok {
        var code := Logout(uid, pass);
        StepKeeps(s, Request.Logout(uid, pass), t, now, now);
        reply := StatusLine("RLO", code);
        clock := now;
      } else {
        reply := Malformed("RLO", now, Request.Logout(uid, pass));
      }
    }

    method HandleUnregister(buffer: string, now: nat) returns (reply: string)
      requires Valid() && clock <= now
      modifies this
      ensures Valid() && clock == now
      ensures Answered(HasCredentials(buffer), Request.Unregister(UidPart(buffer), PassPart(buffer)), now, old(state),
          state, reply, [], cal)
    {
      ghost var s, t := state, clock;
      var ok, uid, pass := ReadCredentialsUdp(buffer);
      if ok {
        var code := Unregister(uid, pass);
        StepKeeps(s, Request.Unregister(uid, pass), t, now, now);
        reply := StatusLine("RUR", code);
        clock := now;
      } else {
        reply := Malformed("RUR", now, Request.Unregister(uid, pass));
      }
    }

    // ---------- Lists over UDP (aux_functions.c:110-185, 342-368; udp_functions.c:100-172) ----------

    /** One round of the list loops. */
    method ListOne(text: string, now: nat, status: string, ghost s: State, ghost ids: seq<nat>,
                   ghost open: map<nat, bool>)
      returns (status': string)
      requires Readable() && Listing(s, state, ids, open, now, status)
      requires text == Pad3(Atoi(text)) && Atoi(text) in open && open[Atoi(text)] == Ongoing(s, Atoi(text), now)
      modifies this`fs, this`view, this`state
      ensures Readable() && Listing(s, state, ids + [Atoi(text)], open, now, status')
    {
      ListRound(s, state, ids, Atoi(text), open, now, status);
      var flag := OngoingAuction(Atoi(text), now);
      status' := status + " " + text + " " + (if flag then "1" else "0");
    }

    /** `append_auctions`. */
    method AppendAuctions(now: nat) returns (status: string)
      requires Readable() && forall id | id in state.auctions :: id <= 999
      modifies this`fs, this`view, this`state
      ensures Readable() && state == Notice(old(state), old(state).auctions.Keys, now)
      ensures status == ListedText(Statuses(old(state), old(state).auctions.Keys, now)) + "\n"
    {
      var names := ScanDir(AuctionsRoot);
      SortedListing(names, view, state, cal, AuctionsRoot);
      NamesArePadded(names, view, state, cal);
      status := PrintNames(names, now, state.auctions.Keys);
      status := status + "\n";
    }

    method PrintNames(names: seq<string>, now: nat, ghost keys: set<nat>) returns (status: string)
      requires Readable() && PaddedNames(names) && Numbers(names) == Ascending(keys)
      modifies this`fs, this`view, this`state
      ensures Readable() && state == Notice(old(state), keys, now)
      ensures status == ListedText(Statuses(old(state), keys, now))
    {
      ghost var s, open, ids := state, Statuses(state, keys, now), [];
      ListStart(s, open, now);
      status := "";
      for i := 0 to |names|
        invariant Readable() && ids == Numbers(names[..i])
        invariant Listing(s, state, ids, open, now, status)
      {
        NumbersStep(names, i);
        if names[i] != "." && names[i] != ".." {
          NumberIsKey(names, i, keys);
          status := ListOne(names[i], now, status, s, ids, open);
          ids := ids + [Atoi(names[i])];
        }
      }
      assert names[..|names|] == names;
      ListEnd(s, state, keys, ids, open, now, status);
    }

    /** `fetch_auctions`: the names without ".txt", cut to three characters, each with a space behind. */
    method FetchAuctions(dir: Loc) returns (auctions: string)
      requires OnDisk() && IsIndex(dir) && GoodLoc(dir) && forall n | n in DirNumbers(state, dir) :: n <= 999
      ensures auctions == Trailed(IdWords(Ascending(DirNumbers(state, dir))))
    {
      var names := ScanDir(dir);
      ScannedNames(names, view, state, cal, dir);
      ghost var ids := [];
      auctions := "";
      for i := 0 to |names|
        invariant ids == Numbers(names[..i])
        invariant auctions == Trailed(IdWords(ids))
      {
        NumbersStep(names, i);
        if names[i] != "." && names[i] != ".." {
          FetchRound(ids, Atoi(names[i]));
          auctions := auctions + (CutName(names[i]) + " ");
          ids := ids + [Atoi(names[i])];
        }
      }
      assert names[..|names|] == names;
    }

    /** `user_auc_status` and `user_bids_status`, which differ in the directory. */
    method UserStatus(dir: Loc, now: nat) returns (found: bool, status: string)
      requires Readable() && IsIndex(dir) && GoodLoc(dir) && forall n | n in DirNumbers(state, dir) :: n <= 999
      modifies this`fs, this`view, this`state
      ensures Readable() && found == (DirNumbers(old(state), dir) != {})
      ensures found ==> state == Notice(old(state), DirNumbers(old(state), dir), now) &&
                        status == ListedText(Statuses(old(state), DirNumbers(old(state), dir), now))
      ensures !found ==> state == old(state)
    {
      var empty := IsDirectoryEmpty(dir);
      if empty { return false, ""; }
      var auctions := FetchAuctions(dir);
      ghost var keys := DirNumbers(state, dir);
      IdWordsAreWords(Ascending(keys));
      WordsOfTrailed(IdWords(Ascending(keys)));
      found := true;
      status := PrintTokens(Words(auctions), now, keys);
    }

    /** The loop over the words `strtok` finds. */
    method PrintTokens(tokens: seq<string>, now: nat, ghost keys: set<nat>) returns (status: string)
      requires Readable() && tokens == IdWords(Ascending(keys))
      modifies this`fs, this`view, this`state
      ensures Readable() && state == Notice(old(state), keys, now)
      ensures status == ListedText(Statuses(old(state), keys, now))
    {
      ghost var s, ids := state, Ascending(keys);
      ghost var open, done := Statuses(s, keys, now), [];
      ListStart(s, open, now);
      status := "";
      for i := 0 to |tokens|
        invariant Readable() && done == ids[..i]
        invariant Listing(s, state, done, open, now, status)
      {
        TokenIsId(ids, keys, i);
        status := ListOne(tokens[i], now, status, s, done, open);
        done := done + [ids[i]];
      }
      assert ids[..|tokens|] == ids;
      ListEnd(s, state, keys, ids, open, now, status);
    }

    method HandleMyAuctions(buffer: string, now: nat) returns (reply: string)
      requires Valid() && clock <= now && |state.auctions| <= 999
      modifies this
      ensures Valid() && clock == now
      ensures Answered(HasUid(buffer, '\n'), MyAuctions(UidPart(buffer)), now, old(state), state, reply, [], cal)
    {
      var ok, uid := ReadUidUdp(buffer, '\n');
      if ok {
        reply := OwnList("RMA", uid, HostedDir(uid), now, MyAuctions(uid));
      } else {
        reply := Malformed("RMA", now, MyAuctions(uid));
      }
    }

    method HandleMyBids(buffer: string, now: nat) returns (reply: string)
      requires Valid() && clock <= now && |state.auctions| <= 999
      modifies this
      ensures Valid() && clock == now
      ensures Answered(HasUid(buffer, '\n'), MyBids(UidPart(buffer)), now, old(state), state, reply, [], cal)
    {
      var ok, uid := ReadUidUdp(buffer, '\n');
      if ok {
        reply := OwnList("RMB", uid, BiddedDir(uid), now, MyBids(uid));
      } else {
        reply := Malformed("RMB", now, MyBids(uid));
      }
    }

    /** The reply to a text that is no request. */
    method Malformed(verb: string, now: nat, ghost req: Request) returns (reply: string)
      requires Valid() && clock <= now && verb == Verb(req)
      modifies this`clock
      ensures Valid() && clock == now && reply == StatusLine(Verb(req), "ERR")
    {
      InvLater(state, clock, now);
      clock := now;
      reply := StatusLine(verb, "ERR");
    }

    /** The part of both handlers after the identifier was read. */
    method OwnList(verb: string, uid: string, dir: Loc, now: nat, ghost req: Request) returns (reply: string)
      requires Valid() && clock <= now && GoodUid(uid) && |state.auctions| <= 999
      requires ListsFrom(req, dir) && ValidRequest(req) && req.uid == uid && verb == Verb(req)
      modifies this
      ensures Valid() && clock == now && Answered(true, req, now, old(state), state, reply, [], cal)
    {
      ghost var s := state;
      reply := OwnListText(verb, uid, dir, now);
      OwnListAnswers(s, req, dir, now, state, reply, cal);
      AnswersKeep(s, req, clock, now, now, state, reply, [], cal);
      clock := now;
    }

    method OwnListText(verb: string, uid: string, dir: Loc, now: nat) returns (reply: string)
      requires Valid() && GoodUid(uid) && (dir == HostedDir(uid) || dir == BiddedDir(uid)) && |state.auctions| <= 999
      modifies this`fs, this`view, this`state
      ensures OnDisk()
      ensures (state, reply) == ListOutcome(verb, OwnListStep(old(state), uid, DirNumbers(old(state), dir), now))
    {
      GoodUidLocs(uid);
      InvIsReadable(state, clock);
      IndexIsSmall(state, clock, dir);
      var logged := IsUserLogin(uid);
      if !logged { return StatusLine(verb, "NLG"); }
      var found, list := UserStatus(dir, now);
      if !found { return StatusLine(verb, "NOK"); }
      return OkLine(verb, list);
    }

    method HandleList(buffer: string, now: nat) returns (reply: string, ghost firstEntry: Option<nat>)
      requires Valid() && clock <= now && |state.auctions| <= 999 && |buffer| >= 4
      modifies this
      ensures Valid() && clock == now
      ensures Answered(buffer[3] == '\n', List(firstEntry), now, old(state), state, reply, [], cal)
    {
      ghost var s, t := state, clock;
      InvLater(s, t, now);
      InvIsReadable(s, t);
      firstEntry := None;
      if buffer[3] != '\n' {
        reply := StatusLine("RLS", "ERR");
      } else {
        var any;
        any, firstEntry := ExistsAuctions();
        StepKeeps(s, List(firstEntry), t, now, now);
        if !any {
          reply := StatusLine("RLS", "NOK");
        } else {
          var list := AppendAuctions(now);
          reply := "RLS OK" + list;
          ListReply(s, firstEntry, now, list, cal);
        }
      }
      clock := now;
    }

    // ---------- Records over UDP (aux_functions.c:637-700; udp_functions.c:174-197) ----------

    method PrintStart(id: nat) returns (text: string)
      requires Readable() && id in state.auctions
      ensures text == After(HeadWords(state.auctions[id].start, cal))
    {
      ShownAt(view, state, cal, StartFile(id));
      var start := ReadText(StartFile(id));
      text := StartInfo(start.value, state.auctions[id].start, cal);
    }

    method PrintBid(id: nat, value: nat) returns (text: string)
      requires OnDisk() && id in state.auctions && value in state.auctions[id].bids
      requires IsWord(state.auctions[id].bids[value].bidder)
      ensures text == After(OneBidWords(value, state.auctions[id].bids[value], cal))
    {
      ShownAt(view, state, cal, BidFile(id, value));
      var bid := ReadText(BidFile(id, value));
      text := BidInfo(bid.value, value, state.auctions[id].bids[value], cal);
    }

    /** In the order `readdir` gives them. */
    method PrintBids(id: nat) returns (text: string, ghost order: seq<nat>)
      requires OnDisk() && id in state.auctions
      requires forall v | v in state.auctions[id].bids :: IsWord(state.auctions[id].bids[v].bidder)
      ensures Enumerates(order, state.auctions[id].bids)
      ensures text == After(BidsWords(order, state.auctions[id].bids, cal))
    {
      ghost var bids := state.auctions[id].bids;
      var names := ReadDir(BidsDir(id));
      BidNames(names, view, state, cal, id);
      text, order := "", [];
      for i := 0 to |names|
        invariant BidsPrinted(names[..i], bids, order, text, cal)
      {
        BidsRound(names, i, bids, order, text, cal);
        if names[i] != "." && names[i] != ".." {
          assert names[i] in names;
          var one := PrintBid(id, Atoi(names[i]));
          text := text + one;
          order := order + [Atoi(names[i])];
        }
      }
      assert names[..|names|] == names;
      BidsEnd(names, bids, order, text, cal);
    }

    method ReadEnd(id: nat) returns (text: string)
      requires OnDisk() && id in state.auctions && state.auctions[id].end.Some?
      ensures text == After(EndingWords(state.auctions[id].end, cal))
    {
      ShownAt(view, state, cal, EndFile(id));
      var end := ReadText(EndFile(id));
      text := EndInfo(end.value, state.auctions[id].end.value, cal);
    }

    method PrintEnd(id: nat, now: nat) returns (text: string)
      requires Readable() && id in state.auctions
      modifies this`fs, this`view, this`state
      ensures Readable() && state == Notice(old(state), {id}, now)
      ensures text == After(EndingWords(Noticed(old(state).auctions[id], now).end, cal))
    {
      text := "";
      var open := OngoingAuction(id, now);
      if !open {
        ClosedHasEnd(old(state), id, now);
        text := ReadEnd(id);
      }
    }

    /** `get_auc_info`. */
    method GetAucInfo(id: nat, now: nat) returns (text: string, ghost order: seq<nat>)
      requires Readable() && id in state.auctions
      requires forall v | v in state.auctions[id].bids :: IsWord(state.auctions[id].bids[v].bidder)
      modifies this`fs, this`view, this`state
      ensures Readable() && state == Notice(old(state), {id}, now)
      ensures var a := old(state).auctions[id];
              Enumerates(order, a.bids) && text == After(RecordWords(a.start, a.bids, order, Noticed(a, now).end, cal))
    {
      ghost var a := state.auctions[id];
      var head := PrintStart(id);
      var bids;
      bids, order := PrintBids(id);
      var end := PrintEnd(id, now);
      AfterAppend(HeadWords(a.start, cal), BidsWords(order, a.bids, cal));
      AfterAppend(HeadWords(a.start, cal) + BidsWords(order, a.bids, cal), EndingWords(Noticed(a, now).end, cal));
      text := head + bids + end;
    }

    method HandleShowRecord(buffer: string, now: nat) returns (reply: string, ghost order: seq<nat>)
      requires Valid() && clock <= now
      modifies this
      ensures Valid() && clock == now
      ensures Answered(HasAid(buffer), Request.ShowRecord(AidPart(buffer)), now, old(state), state, reply, order, cal)
    {
      ghost var s, t := state, clock;
      InvLater(s, t, now);
      InvIsReadable(s, t);
      order := [];
      var ok, aid := ReadAidUdp(buffer);
      if !ok {
        reply := StatusLine("RRC", "ERR");
      } else {
        ghost var id := AidOf(buffer);
        AidIsSmall(buffer);
        AtoiOfNames(id);
        DirectoryOfId(s, id);
        StepKeeps(s, Request.ShowRecord(id), t, now, now);
        var there := ExistsAuction(aid);
        if !there {
          reply := StatusLine("RRC", "NOK");
        } else {
          BiddersAreWords(s, t, id);
          var info;
          info, order := GetAucInfo(Atoi(aid), now);
          reply := OkLine("RRC", info);
          RecordReply(s, id, now, info, order, cal);
        }
      }
      clock := now;
    }

    // ---------- Requests over TCP (tcp_functions.c) ----------

    /** `handle_bid` after the checks of its arguments. */
    method PlaceBidIfAllowed(uid: string, pass: string, id: nat, value: nat, t1: nat, t2: nat) returns (code: string)
      requires Valid() && GoodUid(uid) && GoodPass(pass)
      modifies this`fs, this`view, this`state
      ensures OnDisk() && (state, code) == Coded(BidStep(old(state), uid, pass, id, value, t1, t2))
    {
      InvIsReadable(state, clock);
      LoginMeansPass(state, clock, uid);
      var logged := IsUserLogin(uid);
      if !logged { return "NLG"; }
      var right := VerifyPasswordCorrect(uid, pass);
      if !right { return "NOK"; }
      code := BidOfUser(uid, pass, id, value, t1, t2);
    }

    method BidOfUser(uid: string, ghost pass: string, id: nat, value: nat, t1: nat, t2: nat) returns (code: string)
      requires Readable() && GoodUid(uid) && LoggedIn(state, uid) && PasswordOk(state, uid, pass)
      modifies this`fs, this`view, this`state
      ensures OnDisk() && (state, code) == Coded(BidStep(old(state), uid, pass, id, value, t1, t2))
    {
      BidCases(state, uid, pass, id, value, t1, t2);
      var open := OngoingAuction(id, t1);
      if !open { return "NOK"; }
      var own := HostedBySelf(id, uid);
      if own { return "ILG"; }
      var accepted := BidAccepted(id, value, uid, t2);
      return if accepted then "ACC" else "REF";
    }

    method HandleBid(sock: Socket, t1: nat, t2: nat) returns (ghost reply: string)
      requires Valid() && clock <= t1 <= t2
      modifies this, sock
      ensures Valid() && clock == t2 && sock.outgoing == old(sock.outgoing) + reply
      ensures match ParseBid(old(sock.incoming))
              case Bad(text) => reply == text && state == old(state)
              case Good(req) => Answers(old(state), req, t1, t2, state, reply, [], cal)
    {
      ghost var s, t := state, clock;
      TcpRequestsAreValid(sock.incoming);
      InvLater(s, t, t2);
      var parsed := ReadBidRequest(sock);
      var status;
      if parsed.Bad? {
        status := parsed.reply;
      } else {
        var r := parsed.req;
        var code := PlaceBidIfAllowed(r.uid, r.pass, r.aid, r.value, t1, t2);
        status := StatusLine("RBD", code);
        BidAnswers(s, r, t1, t2, state, code, cal);
        AnswersKeep(s, r, t, t1, t2, state, status, [], cal);
      }
      clock := t2;
      WriteTcp(sock, status);
      reply := status;
    }

    /** `handle_close` after the checks of its arguments. */
    method CloseIfAllowed(uid: string, pass: string, aid: string, t1: nat, t2: nat) returns (code: string)
      requires Valid() && GoodUid(uid) && GoodPass(pass) && AllDigits(aid)
      modifies this`fs, this`view, this`state
      ensures OnDisk() && (state, code) == Coded(CloseStep(old(state), uid, pass, aid, t1, t2))
    {
      InvIsReadable(state, clock);
      LoginMeansPass(state, clock, uid);
      var logged := IsUserLogin(uid);
      if !logged { return "NLG"; }
      var right := VerifyPasswordCorrect(uid, pass);
      if !right { return "NOK"; }
      code := CloseOfUser(uid, pass, aid, t1, t2);
    }

    method CloseOfUser(uid: string, ghost pass: string, aid: string, t1: nat, t2: nat) returns (code: string)
      requires Readable() && GoodUid(uid) && AllDigits(aid) && LoggedIn(state, uid) && PasswordOk(state, uid, pass)
      modifies this`fs, this`view, this`state
      ensures OnDisk() && (state, code) == Coded(CloseStep(old(state), uid, pass, aid, t1, t2))
    {
      var id := AtoiOfDigits(aid);
      var there := ExistsAuction(aid);
      if !there { return "EAU"; }
      var own := HostedBySelf(id, uid);
      if !own { return "EOW"; }
      var open := OngoingAuction(id, t1);
      if !open { return "END"; }
      NoticeUnendedIsSame(old(state), id, t1);
      var ok := CloseAuctionFiles(id, t2);
      return if ok then "OK" else "NOK";
    }

    method HandleClose(sock: Socket, t1: nat, t2: nat) returns (ghost reply: string)
      requires Valid() && clock <= t1 <= t2
      modifies this, sock
      ensures Valid() && clock == t2 && sock.outgoing == old(sock.outgoing) + reply
      ensures match ParseClose(old(sock.incoming))
              case Bad(text) => reply == text && state == old(state)
              case Good(req) => Answers(old(state), req, t1, t2, state, reply, [], cal)
    {
      ghost var s, t := state, clock;
      TcpRequestsAreValid(sock.incoming);
      InvLater(s, t, t2);
      var parsed := ReadCloseRequest(sock);
      var status;
      if parsed.Bad? {
        status := parsed.reply;
      } else {
        var r := parsed.req;
        var code := CloseIfAllowed(r.uid, r.pass, r.aidText, t1, t2);
        status := StatusLine("RCL", code);
        CloseAnswers(s, r, t1, t2, state, code, cal);
        AnswersKeep(s, r, t, t1, t2, state, status, [], cal);
      }
      clock := t2;
      WriteTcp(sock, status);
      reply := status;
    }

    /** `handle_open` after the checks of its arguments. */
    method OpenIfAllowed(sock: Socket, a: OpenArgs, now: nat) returns (code: string, ghost upload: Upload)
      requires Valid() && GoodOpenArgs(a)
      modifies this`fs, this`view, this`state, sock`incoming
      ensures OnDisk() && UploadFrom(old(sock.incoming), a.fsize, upload)
      ensures (state, code) == OpenOutcome(OpenStep(old(state), OpenRequest(a, upload), now))
      ensures MayOpen(old(state), a.uid, a.pass) && !IsDot(a.fname) && |old(sock.incoming)| > a.fsize ==>
                sock.incoming == old(sock.incoming)[a.fsize + 1..]
    {
      upload := EmptyUpload(sock.incoming, a.fsize);
      var there := VerifyUserExists(a.uid);
      if !there { return "NOK", upload; }
      var right := VerifyPasswordCorrect(a.uid, a.pass);
      if !right { return "NOK", upload; }
      var logged := IsUserLogin(a.uid);
      if !logged { return "NLG", upload; }
      var start := Start(a.uid, a.name, a.fname, a.startValue, a.timeActive, now);
      var id;
      id, upload := CreateAuctionFiles(sock, start, a.fsize);
      code := if id != 0 then "OK " + Pad3(id) else "NOK";
    }

    method HandleOpen(sock: Socket, now: nat) returns (ghost reply: string, ghost upload: Upload)
      requires Valid() && clock <= now
      modifies this, sock
      ensures Valid() && clock == now && sock.outgoing == old(sock.outgoing) + reply
      ensures match ParseOpen(old(sock.incoming))
              case BadOpen => reply == StatusLine("ROA", "ERR") && state == old(state)
              case OpenHeader(a, rest) =>
                UploadFrom(rest, a.fsize, upload) &&
                Answers(old(state), OpenRequest(a, upload), now, now, state, reply, [], cal) &&
                (MayOpen(old(state), a.uid, a.pass) && !IsDot(a.fname) && |rest| > a.fsize ==>
                   sock.incoming == rest[a.fsize + 1..])
    {
      ghost var s, t := state, clock;
      TcpRequestsAreValid(sock.incoming);
      InvLater(s, t, now);
      upload := Upload("", false);
      var ok, a := ReadOpenHeader(sock);
      var status;
      if !ok {
        status := StatusLine("ROA", "ERR");
      } else {
        var code;
        code, upload := OpenIfAllowed(sock, a, now);
        status := StatusLine("ROA", code);
        OpenAnswers(s, a, upload, now, state, code, cal);
        AnswersKeep(s, OpenRequest(a, upload), t, now, now, state, status, [], cal);
      }
      clock := now;
      WriteTcp(sock, status);
      reply := status;
    }

    // ---------- Assets (aux_functions.c:383-447; tcp_functions.c:53-85) ----------

    /** The first entry of asset/ that is not a dot entry. */
    method AssetName(id: nat) returns (name: Option<string>)
      requires OnDisk() && id in state.auctions && Plain(state.auctions[id].start.fname)
      ensures name == if state.auctions[id].asset.Some? && !IsDot(state.auctions[id].start.fname)
                      then Some(state.auctions[id].start.fname) else None
    {
      var names := ReadDir(AssetDir(id));
      AssetListing(names, view, state, cal, id);
      name := FirstName(names);
    }

    method ReadAsset(id: nat, fname: string) returns (bytes: string)
      requires OnDisk() && id in state.auctions && fname == state.auctions[id].start.fname
      requires GoodFname(fname) && !IsDot(fname) && state.auctions[id].asset.Some?
      ensures bytes == state.auctions[id].asset.value
    {
      FnameIsPlain(fname);
      ShownAt(view, state, cal, AssetFile(id, fname));
      var text := ReadText(AssetFile(id, fname));
      bytes := text.value;
    }

    /** `get_auc_file_info`: name and size, or nothing when asset/ is empty. */
    method GetAucFileInfo(id: nat) returns (info: string)
      requires Valid() && id in state.auctions
      ensures info == NameAndSize(AssetReply(state, Pad3(id)))
    {
      AssetFacts(state, clock, id);
      FnameIsPlain(state.auctions[id].start.fname);
      var name := AssetName(id);
      if name.None? { return ""; }
      var bytes := ReadAsset(id, name.value);
      return " " + name.value + " " + Dec(|bytes|);
    }

    /** `send_auc_file`: the bytes and a newline, or nothing. */
    method SendAucFile(sock: Socket, id: nat)
      requires Valid() && id in state.auctions
      modifies sock`outgoing
      ensures sock.outgoing == old(sock.outgoing) + BytesOf(AssetReply(state, Pad3(id)))
    {
      AssetFacts(state, clock, id);
      FnameIsPlain(state.auctions[id].start.fname);
      var name := AssetName(id);
      if name.None? { return; }
      var bytes := ReadAsset(id, name.value);
      WriteTcp(sock, bytes + "\n");
    }

    method HandleShowAsset(sock: Socket, now: nat) returns (ghost reply: string)
      requires Valid() && clock <= now
      modifies this, sock
      ensures Valid() && clock == now && sock.outgoing == old(sock.outgoing) + reply
      ensures match ParseAsset(old(sock.incoming))
              case Bad(text) => reply == text && state == old(state)
              case Good(req) => Answers(old(state), req, now, now, state, reply, [], cal)
    {
      InvLater(state, clock, now);
      clock := now;
      var parsed := ReadAssetRequest(sock);
      if parsed.Bad? {
        WriteTcp(sock, parsed.reply);
        return parsed.reply;
      }
      var aid := parsed.req.aidText;
      var there := ExistsAuction(aid);
      if !there {
        WriteTcp(sock, StatusLine("RSA", "NOK"));
        return StatusLine("RSA", "NOK");
      }
      var id := AtoiOfDigits(aid);
      ghost var before := sock.outgoing;
      var info := GetAucFileInfo(id);
      WriteTcp(sock, "RSA OK" + info + " ");
      SendAucFile(sock, id);
      WriteTcp(sock, "\n");
      reply := "RSA OK" + info + " " + BytesOf(AssetReply(state, aid)) + "\n";
      AssetAnswers(state, aid, now, cal);
      AssetSent(before, "RSA OK" + info + " ", BytesOf(AssetReply(state, aid)));
    }

    // ---------- process_udp_request (server.c:192-226) ----------

    method ProcessUdpRequest(buffer: string, now: nat)
      returns (reply: string, ghost firstEntry: Option<nat>, ghost order: seq<nat>)
      requires Valid() && clock <= now && |state.auctions| <= 999
      modifies this
      ensures Valid() && clock == now
      ensures Dispatched(buffer, firstEntry, now, old(state), state, reply, order, cal)
    {
      firstEntry, order := None, [];
      InvLater(state, clock, now);
      var kind, command := ReadCommandUdp(buffer);
      if kind == 0 || (kind == 2 && command != "LST") {
        clock := now;
        return "ERR\n", firstEntry, order;
      }
      if command == "LIN" || command == "LOU" || command == "UNR" {
        reply := ProcessAccount(command, buffer, now);
      } else if command == "LMA" || command == "LMB" || command == "LST" || command == "SRC" {
        reply, firstEntry, order := ProcessQuery(command, buffer, now);
      } else {
        reply := "ERR\n";
        clock := now;
      }
    }

    method ProcessAccount(command: string, buffer: string, now: nat) returns (reply: string)
      requires Valid() && clock <= now && |buffer| >= 4 && buffer[3] == ' ' && command == buffer[..3]
      requires command == "LIN" || command == "LOU" || command == "UNR"
      modifies this
      ensures Valid() && clock == now
      ensures forall firstEntry :: Dispatched(buffer, firstEntry, now, old(state), state, reply, [], cal)
    {
      if command == "LIN" {
        reply := HandleLogin(buffer, now);
        DispatchedAccount(buffer, Request.Login(UidPart(buffer), PassPart(buffer)), now, old(state), state, reply, cal);
      } else if command == "LOU" {
        reply := HandleLogout(buffer, now);
        DispatchedAccount(buffer, Request.Logout(UidPart(buffer), PassPart(buffer)), now, old(state), state, reply,
          cal);
      } else {
        reply := HandleUnregister(buffer, now);
        DispatchedAccount(buffer, Request.Unregister(UidPart(buffer), PassPart(buffer)), now, old(state), state, reply,
          cal);
      }
    }

    method ProcessQuery(command: string, buffer: string, now: nat)
      returns (reply: string, ghost firstEntry: Option<nat>, ghost order: seq<nat>)
      requires Valid() && clock <= now && |state.auctions| <= 999
      requires |buffer| >= 4 && (buffer[3] == ' ' || (buffer[3] == '\n' && command == "LST")) && command == buffer[..3]
      requires command == "LMA" || command == "LMB" || command == "LST" || command == "SRC"
      modifies this
      ensures Valid() && clock == now
      ensures Dispatched(buffer, firstEntry, now, old(state), state, reply, order, cal)
    {
      firstEntry, order := None, [];
      if command == "LMA" {
        reply := HandleMyAuctions(buffer, now);
        DispatchedQuery(buffer, firstEntry, HasUid(buffer, '\n'), MyAuctions(UidPart(buffer)), now, old(state), state,
          reply, order, cal);
      } else if command == "LMB" {
        reply := HandleMyBids(buffer, now);
        DispatchedQuery(buffer, firstEntry, HasUid(buffer, '\n'), MyBids(UidPart(buffer)), now, old(state), state,
          reply, order, cal);
      } else if command == "LST" {
        reply, firstEntry := HandleList(buffer, now);
        DispatchedQuery(buffer, firstEntry, buffer[3] == '\n', List(firstEntry), now, old(state), state,
          reply, order, cal);
      } else {
        reply, order := HandleShowRecord(buffer, now);
        DispatchedQuery(buffer, firstEntry, HasAid(buffer), Request.ShowRecord(AidPart(buffer)), now, old(state), state,
          reply, order, cal);
      }
    }

    // ---------- process_tcp_request (server.c:228-246) ----------

    method ProcessTcpRequest(sock: Socket, t1: nat, t2: nat) returns (ghost reply: string, ghost upload: Upload)
      requires Valid() && clock <= t1 <= t2
      modifies this, sock
      ensures Valid() && clock == t2 && sock.outgoing == old(sock.outgoing) + reply
      ensures UploadOf(old(sock.incoming), upload)
      ensures match ParseTcp(old(sock.incoming), upload)
              case Bad(text) => reply == text && state == old(state)
              case Good(req) => Answers(old(state), req, t1, t2, state, reply, [], cal)
    {
      ghost var s, rest := state, Rest(sock.incoming, 4);
      InvLater(state, clock, t2);
      upload := Upload("", false);
      var command := ReadCommand(sock);
      if |command| >= 3 && command[..3] == "OPA" {
        reply, upload := HandleOpen(sock, t2);
        ghost var header := ParseOpen(rest);
        if header.OpenHeader? { OneClockIsEnough(s, OpenRequest(header.args, upload), t1, t2, state, reply, cal); }
      } else if command == "CLS" {
        reply := HandleClose(sock, t1, t2);
      } else if command == "SAS" {
        reply := HandleShowAsset(sock, t2);
        if ParseAsset(rest).Good? { OneClockIsEnough(s, ParseAsset(rest).req, t1, t2, state, reply, cal); }
      } else if command == "BID" {
        reply := HandleBid(sock, t1, t2);
      } else {
        reply := "ERR\n";
        clock := t2;
        WriteTcp(sock, "ERR\n");
      }
    }
  }
}
