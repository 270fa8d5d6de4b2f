/** Runs of a fresh server that show where its answers depart from what one would expect. */
module Witnesses {
  import opened Text
  import opened Domain
  import opened LazyServer

  const UID := "123456"
  const PASS := "abcdefgh"

  function Now(r: Request): Event { Event(r, 0, 0) }

  /** A user logs in and opens an auction. */
  function Opening(fname: string, upload: Upload): seq<Event>
  {
    [Now(Login(UID, PASS)), Now(Open(UID, PASS, "lot", fname, 1, 1, upload))]
  }

  function AfterOpening(fname: string, upload: Upload): State
  {
    State(map[UID := User(Some(PASS), true, {1}, {})],
          map[1 := Auction(Start(UID, "lot", fname, 1, 1, 0), map[], None, StoredAsset(fname, upload))])
  }

  lemma LoggedInState()
    ensures ValidRun([Now(Login(UID, PASS))])
    ensures Reached([Now(Login(UID, PASS))]) == State(map[UID := User(Some(PASS), true, {}, {})], map[])
  {
    var run := [Now(Login(UID, PASS))];
    assert run[..0] == [];
    assert Reached([]) == EMPTY;
  }

  lemma OpenedState(fname: string, upload: Upload)
    requires GoodFname(fname)
    ensures ValidRun(Opening(fname, upload)) && Reached(Opening(fname, upload)) == AfterOpening(fname, upload)
    ensures ReplyAt(Opening(fname, upload), 1) == if UploadSucceeds(fname, upload) then Opened(1) else Nok
  {
    var run := Opening(fname, upload);
    LoggedInState();
    assert run[..1] == [Now(Login(UID, PASS))];
    var s := Reached(run[..1]);
    assert NextId(s) == 1;
    assert {} + {1} == {1};
  }

  lemma ThirdReply(fname: string, upload: Upload, r: Request)
    requires GoodFname(fname) && ValidRequest(r)
    ensures var run := Opening(fname, upload) + [Now(r)];
            ValidRun(run) && run[..2] == Opening(fname, upload) &&
            ReplyAt(run, 2) == Step(AfterOpening(fname, upload), r, 0, 0).1
  {
    OpenedState(fname, upload);
    assert (Opening(fname, upload) + [Now(r)])[..2] == Opening(fname, upload);
  }

  /** One auction is open, its directory entry is read first, and LST is answered NOK. */
  lemma ListMissesOnlyAuction()
    ensures var run := Opening("lot.txt", Upload("x", true)) + [Now(List(Some(1)))];
            ValidRun(run) && ReplyAt(run, 1) == Opened(1) && ReplyAt(run, 2) == Nok
  {
    var upload := Upload("x", true);
    ThirdReply("lot.txt", upload, List(Some(1)));
    OpenedState("lot.txt", upload);
    var run := Opening("lot.txt", upload) + [Now(List(Some(1)))];
    SameReply(Opening("lot.txt", upload), run, 1);
  }

  lemma SameReply(run: seq<Event>, more: seq<Event>, k: nat)
    requires ValidRun(run) && ValidRun(more) && k < |run| <= |more| && more[..|run|] == run
    ensures ReplyAt(more, k) == ReplyAt(run, k)
  {
    assert more[..k] == more[..|run|][..k] && more[k] == more[..|run|][k];
  }

  /** A complete upload of an empty file: the client is told NOK, but auction 1 now exists. */
  lemma EmptyAssetIsRefused()
    ensures var run := Opening("lot.txt", Upload("", true));
            ValidRun(run) && ReplyAt(run, 1) == Nok && 1 in Reached(run).auctions
  {
    OpenedState("lot.txt", Upload("", true));
  }

  /** Auction 1 is open, and closing "1" is answered EAU. */
  lemma ShortIdentifierIsUnknown()
    ensures var run := Opening("lot.txt", Upload("x", true)) + [Now(Close(UID, PASS, "1"))];
            ValidRun(run) && ReplyAt(run, 1) == Opened(1) && ReplyAt(run, 2) == Eau
  {
    var upload := Upload("x", true);
    var run := Opening("lot.txt", upload) + [Now(Close(UID, PASS, "1"))];
    ThirdReply("lot.txt", upload, Close(UID, PASS, "1"));
    OpenedState("lot.txt", upload);
    SameReply(Opening("lot.txt", upload), run, 1);
    assert |Pad3(Num("1"))| == 3;
  }

  /** Closing without an identifier is answered EOW, as if an auction of somebody else had been named. */
  lemma NoIdentifierIsForeign()
    ensures var run := Opening("lot.txt", Upload("x", true)) + [Now(Close(UID, PASS, ""))];
            ValidRun(run) && ReplyAt(run, 2) == Eow
  {
    ThirdReply("lot.txt", Upload("x", true), Close(UID, PASS, ""));
  }

  /** An auction opened with the file name "." exists without an asset. */
  lemma DotHasNoAsset()
    ensures var run := Opening(".", Upload("", true)) + [Now(ShowAsset("001"))];
            ValidRun(run) && ReplyAt(run, 2) == NoAsset
  {
    ThirdReply(".", Upload("", true), ShowAsset("001"));
    DirectoryOfId(AfterOpening(".", Upload("", true)), 1);
    Pad3Digits(1);
    assert Pad3(1) == "001";
  }
}
