/** The text of the server's replies. */
module Wire {
  import opened Text
  import opened Domain
  import opened LazyServer
  import opened FileText

  /** The word every reply to a request starts with. */
  function Verb(r: Request): (v: string)
    ensures |v| == 3 && IsWord(v)
  {
    match r
    case Login(_, _) => "RLI"
    case Logout(_, _) => "RLO"
    case Unregister(_, _) => "RUR"
    case MyAuctions(_) => "RMA"
    case MyBids(_) => "RMB"
    case List(_) => "RLS"
    case ShowRecord(_) => "RRC"
    case Open(_, _, _, _, _, _, _) => "ROA"
    case Close(_, _, _) => "RCL"
    case BidOn(_, _, _, _) => "RBD"
    case ShowAsset(_) => "RSA"
  }

  // ---------- Lists ----------

  /** Increasing enumeration of a set of identifiers. */
  ghost function Ascending(ids: set<nat>): seq<nat>
  {
    if ids == {} then [] else Ascending(ids - {MaxOf(ids)}) + [MaxOf(ids)]
  }

  lemma {:induction false} AscendingIs(ids: set<nat>)
    ensures Increasing(Ascending(ids)) && forall id: nat :: id in Ascending(ids) <==> id in ids
    ensures |Ascending(ids)| == |ids|
  {
    if ids != {} {
      var m := MaxOf(ids);
      var rest := Ascending(ids - {m});
      AscendingIs(ids - {m});
      forall i | 0 <= i < |rest|
        ensures rest[i] < m
      {
        assert rest[i] in rest;
      }
    }
  }

  lemma LastIsMax(s: seq<nat>, ids: set<nat>)
    requires s != [] && Increasing(s) && forall id: nat :: id in s <==> id in ids
    ensures s[|s| - 1] == MaxOf(ids)
    ensures forall id: nat :: id in s[..|s| - 1] <==> id in ids - {MaxOf(ids)}
  {
    var m, n := MaxOf(ids), |s| - 1;
    assert s[n] in s && s[n] in ids;
    var k :| 0 <= k < |s| && s[k] == m;
    forall id: nat | id in ids - {m}
      ensures id in s[..n]
    {
      var j :| 0 <= j < |s| && s[j] == id;
      assert s[..n][j] == id;
    }
    forall id: nat | id in s[..n]
      ensures id in ids - {m}
    {
      var j :| 0 <= j < n && s[j] == id;
      assert s[j] in s;
    }
  }

  /** There is only one increasing enumeration, so a sorted directory scan must have produced it. */
  lemma {:induction false} AscendingUnique(s: seq<nat>, ids: set<nat>)
    requires Increasing(s) && forall id: nat :: id in s <==> id in ids
    ensures s == Ascending(ids)
  {
    if s == [] {
      assert ids == {} by { assert forall id: nat | id in ids :: id in s; }
    } else {
      assert s[0] in ids;
      LastIsMax(s, ids);
      AscendingUnique(s[..|s| - 1], ids - {MaxOf(ids)});
    }
  }

  function OpenFlag(open: bool): string { if open then "1" else "0" }

  function ListWords(ids: seq<nat>, open: map<nat, bool>): (ws: seq<string>)
    requires forall id | id in ids :: id in open
    ensures |ws| == 2 * |ids| && AllWords(ws)
  {
    if ids == [] then []
    else
      DigitsAreWord(Pad3(ids[0]));
      [Pad3(ids[0]), OpenFlag(open[ids[0]])] + ListWords(ids[1..], open)
  }

  lemma {:induction false} ListWordsAppend(a: seq<nat>, b: seq<nat>, open: map<nat, bool>)
    requires forall id | id in a + b :: id in open
    ensures (forall id | id in a :: id in a + b) && (forall id | id in b :: id in a + b)
    ensures ListWords(a + b, open) == ListWords(a, open) + ListWords(b, open)
  {
    assert forall id | id in a :: id in a + b;
    assert forall id | id in b :: id in a + b;
    if a == [] {
      assert a + b == b;
    } else {
      assert (a + b)[1..] == a[1..] + b;
      assert forall id | id in a[1..] + b :: id in a + b;
      ListWordsAppend(a[1..], b, open);
    }
  }

  lemma ListTextMore(ids: seq<nat>, id: nat, open: map<nat, bool>)
    requires forall x | x in ids + [id] :: x in open
    ensures (forall x | x in ids :: x in ids + [id]) && id in ids + [id]
    ensures After(ListWords(ids + [id], open)) ==
        After(ListWords(ids, open)) + " " + Pad3(id) + " " + OpenFlag(open[id])
  {
    assert forall x | x in ids :: x in ids + [id];
    assert (ids + [id])[|ids|] == id;
    ListWordsAppend(ids, [id], open);
    AfterAppend(ListWords(ids, open), ListWords([id], open));
    var ws := ListWords([id], open);
    assert ws == [Pad3(id), OpenFlag(open[id])];
    assert After(ws[1..]) == " " + OpenFlag(open[id]) + After(ws[1..][1..]);
  }

  /** The identifiers as they stand in a list. */
  function IdWords(ids: seq<nat>): (ws: seq<string>)
    ensures |ws| == |ids| && forall i | 0 <= i < |ids| :: ws[i] == Pad3(ids[i])
  {
    seq(|ids|, i requires 0 <= i < |ids| => Pad3(ids[i]))
  }

  lemma IdWordsAreWords(ids: seq<nat>)
    ensures AllWords(IdWords(ids))
  {
  }

  // ---------- Records ----------

  function OneBidWords(value: nat, b: Bid, cal: Calendar): seq<string>
  {
    ["B", b.bidder, Dec(value), cal(b.time).date, cal(b.time).clock, IntText(b.secs)]
  }

  /** The bids in the order the directory was read. */
  function BidsWords(order: seq<nat>, bids: map<nat, Bid>, cal: Calendar): seq<string>
    requires forall v | v in order :: v in bids
  {
    if order == [] then [] else OneBidWords(order[0], bids[order[0]], cal) + BidsWords(order[1..], bids, cal)
  }

  function EndingWords(end: Option<End>, cal: Calendar): seq<string>
  {
    if end.None? then [] else ["E", cal(end.value.time).date, cal(end.value.time).clock, IntText(end.value.secs)]
  }

  function HeadWords(st: Start, cal: Calendar): seq<string>
  {
    [st.owner, st.name, st.fname, Dec(st.startValue), cal(st.startTime).date, cal(st.startTime).clock,
      Dec(st.timeActive)]
  }

  function RecordWords(st: Start, bids: map<nat, Bid>, order: seq<nat>, end: Option<End>, cal: Calendar): seq<string>
    requires forall v | v in order :: v in bids
  {
    HeadWords(st, cal) + BidsWords(order, bids, cal) + EndingWords(end, cal)
  }

  /** `order` lists every bid value once. */
  ghost predicate Enumerates(order: seq<nat>, bids: map<nat, Bid>)
  {
    (forall v: nat :: v in order <==> v in bids) && forall i, j | 0 <= i < j < |order| :: order[i] != order[j]
  }

  lemma {:induction false} BidsWordsAppend(a: seq<nat>, v: nat, bids: map<nat, Bid>, cal: Calendar)
    requires forall x | x in a + [v] :: x in bids
    ensures (forall x | x in a :: x in a + [v]) && v in a + [v]
    ensures BidsWords(a + [v], bids, cal) == BidsWords(a, bids, cal) + OneBidWords(v, bids[v], cal)
  {
    assert forall x | x in a :: x in a + [v];
    assert (a + [v])[|a|] == v;
    if a == [] {
      assert a + [v] == [v];
    } else {
      assert (a + [v])[1..] == a[1..] + [v];
      assert forall x | x in a[1..] + [v] :: x in a + [v];
      BidsWordsAppend(a[1..], v, bids, cal);
    }
  }

  // ---------- Whole replies ----------

  function Status(p: Reply): string
  {
    match p
    case Ok => "OK"
    case Reg => "REG"
    case Nok => "NOK"
    case Nlg => "NLG"
    case Unr => "UNR"
    case Acc => "ACC"
    case Ref => "REF"
    case Ilg => "ILG"
    case Eau => "EAU"
    case Eow => "EOW"
    case Ended => "END"
    case _ => "OK"
  }

  function OkLine(verb: string, text: string): string { verb + " OK" + text + "\n" }

  function StatusLine(verb: string, code: string): string { verb + " " + code + "\n" }

  /** A reply to SAS, field by field: the file comes before two line ends. */
  function AssetWire(verb: string, space: string, ok: string, fname: string, size: string, bytes: string,
                     end: string): string
  {
    verb + space + (ok + space + (fname + space + (size + space + (bytes + end + end))))
  }

  /** A reply as sent; `order` is the order in which the bids of a record were read. */
  ghost function Printed(r: Request, p: Reply, order: seq<nat>, cal: Calendar): string
    requires p.Record? ==> forall v | v in order :: v in p.bids
  {
    match p
    case Opened(aid) => StatusLine(Verb(r), "OK " + Pad3(aid))
    case Listed(entries) => OkLine(Verb(r), ListedText(entries))
    case Record(st, bids, end) => OkLine(Verb(r), After(RecordWords(st, bids, order, end, cal)))
    case Asset(fname, bytes) => AssetWire(Verb(r), " ", "OK", fname, Dec(|bytes|), bytes, "\n")
    case NoAsset => Verb(r) + " OK " + "\n"
    case _ => StatusLine(Verb(r), Status(p))
  }

  ghost function ListedText(entries: map<nat, bool>): string
  {
    AscendingIs(entries.Keys);
    After(ListWords(Ascending(entries.Keys), entries))
  }

  lemma {:induction false} ListLength(ids: seq<nat>, open: map<nat, bool>)
    requires forall id | id in ids :: id in open && id <= 999
    ensures |After(ListWords(ids, open))| == 6 * |ids|
  {
    if ids != [] {
      assert forall id | id in ids[1..] :: id in ids;
      ListLength(ids[1..], open);
      assert ids[0] in ids;
      Pad3Digits(ids[0]);
      var ws := ListWords(ids, open);
      assert ws[1..][1..] == ListWords(ids[1..], open);
      assert After(ws) == " " + ws[0] + After(ws[1..]);
      assert After(ws[1..]) == " " + ws[1] + After(ws[1..][1..]);
    }
  }

  /** A list of n auctions takes exactly 7 + 6n bytes on the wire. */
  lemma ListReplyLength(r: Request, entries: map<nat, bool>, cal: Calendar)
    requires forall id | id in entries :: id <= 999
    ensures |Printed(r, Listed(entries), [], cal)| == 7 + 6 * |entries|
  {
    AscendingIs(entries.Keys);
    ListLength(Ascending(entries.Keys), entries);
  }
}
