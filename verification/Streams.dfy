/** Reading and writing TCP streams: whatever way the socket cuts the bytes into chunks, both sides see
    the same fields and files. */
module Streams {
  import opened Text
  import opened Domain
  import opened Wire

  /** A connected socket. `incoming` is what the peer has sent and nobody has read; the peer then shuts
      down its side. `Read` and `Write` move between one byte and all that was asked, as they please. */
  class Socket {
    var incoming: string
    var outgoing: string

    constructor (incoming: string)
      ensures this.incoming == incoming && outgoing == ""
    {
      this.incoming := incoming;
      this.outgoing := "";
    }

    method Read(max: nat) returns (chunk: string)
      requires max > 0
      modifies this`incoming
      ensures |chunk| <= max && old(incoming) == chunk + incoming
      ensures chunk == "" <==> old(incoming) == ""
    {
      if incoming == "" { return ""; }
      var most := if max < |incoming| then max else |incoming|;
      var n: nat :| 1 <= n <= most;
      chunk := incoming[..n];
      incoming := incoming[n..];
    }

    method Write(bytes: string) returns (n: nat)
      requires bytes != ""
      modifies this`outgoing
      ensures 1 <= n <= |bytes| && outgoing == old(outgoing) + bytes[..n]
    {
      n :| 1 <= n <= |bytes|;
      outgoing := outgoing + bytes[..n];
    }
  }

  // ---------- write_tcp ----------

  /** Everything is written, in order, however little each write takes. */
  method WriteTcp(sock: Socket, status: string)
    modifies sock`outgoing
    ensures sock.outgoing == old(sock.outgoing) + status
  {
    var n := 0;
    while n < |status|
      invariant n <= |status|
      invariant sock.outgoing == old(sock.outgoing) + status[..n]
    {
      var k := sock.Write(status[n..]);
      assert status[..n + k] == status[..n] + status[n..][..k];
      n := n + k;
    }
  }

  // ---------- The server's read_field ----------

  /** The first space or newline among the first `limit` bytes, or where the search gives up. */
  function Stop(s: string, limit: nat): (k: nat)
    ensures k <= |s| && k <= limit
    ensures forall i | 0 <= i < k :: s[i] != ' ' && s[i] != '\n'
    ensures k < |s| && k < limit ==> s[k] == ' ' || s[k] == '\n'
  {
    if s == "" || limit == 0 || s[0] == ' ' || s[0] == '\n' then 0 else 1 + Stop(s[1..], limit - 1)
  }

  /** NoField: the stream ended, the field is too long, or it starts with a space. */
  datatype FieldRead = NoField | BeforeSpace(text: string) | BeforeNewline(text: string)

  function FieldAt(s: string, size: nat): FieldRead
  {
    var k := Stop(s, size + 1);
    if k == |s| || k == size + 1 then NoField
    else if s[k] == '\n' then BeforeNewline(s[..k])
    else if k == 0 then NoField
    else BeforeSpace(s[..k])
  }

  /** What is left to read afterwards. */
  function Rest(s: string, size: nat): string
  {
    var k := Stop(s, size + 1);
    if k == |s| || k == size + 1 then s[k..] else s[k + 1..]
  }

  /** What a failed read leaves in the array: the bytes read so far before what was there. */
  ghost predicate Left(after: seq<char>, before: seq<char>, s: string, size: nat)
    requires |after| == |before| > size
  {
    var got := if s != "" && s[0] == ' ' then " " else s[..Stop(s, size + 1)];
    |got| <= |after| && after[..|got|] == got && forall i | |got| <= i < |after| :: after[i] == before[i]
  }

  /** What character `n` means to a reader that got that far. */
  lemma FieldEnds(s: string, size: nat, n: nat)
    requires n <= size && n < |s| && n <= Stop(s, size + 1)
    ensures s[n] == ' ' && n > 0 ==> FieldAt(s, size) == BeforeSpace(s[..n])
    ensures s[n] == ' ' && n == 0 ==> FieldAt(s, size) == NoField
    ensures s[n] == '\n' ==> FieldAt(s, size) == BeforeNewline(s[..n])
    ensures s[n] == ' ' || s[n] == '\n' ==> Rest(s, size) == s[n + 1..]
    ensures s[n] != ' ' && s[n] != '\n' ==> n + 1 <= Stop(s, size + 1)
  {
  }

  /** Returns the number of bytes read when a space ended the field, -1 when a newline did, else 0. */
  method ReadField(sock: Socket, buffer: array<char>, size: nat) returns (r: int)
    requires buffer.Length > size
    modifies sock`incoming, buffer
    ensures sock.incoming == Rest(old(sock.incoming), size)
    ensures match FieldAt(old(sock.incoming), size)
            case NoField => r == 0 && Left(buffer[..], old(buffer[..]), old(sock.incoming), size)
            case BeforeSpace(t) => r == |t| + 1 && |t| <= size && buffer[..|t|] == t && buffer[|t|] == '\0'
            case BeforeNewline(t) => r == -1 && |t| <= size && buffer[..|t|] == t && buffer[|t|] == '\0'
  {
    var bytesRead := 0;
    var firstRead := true;
    ghost var s := sock.incoming;
    ghost var k := Stop(s, size + 1);
    while bytesRead <= size
      invariant 0 <= bytesRead <= k
      invariant firstRead == (bytesRead == 0)
      invariant sock.incoming == s[bytesRead..]
      invariant forall i | 0 <= i < bytesRead :: buffer[i] == s[i]
      invariant forall i | bytesRead <= i < buffer.Length :: buffer[i] == old(buffer[i])
      decreases size + 1 - bytesRead
    {
      var chunk := sock.Read(1);
      if chunk == "" { return 0; }
      assert s[bytesRead..] == chunk + sock.incoming && chunk == [s[bytesRead]];
      assert sock.incoming == s[bytesRead + 1..];
      FieldEnds(s, size, bytesRead);
      buffer[bytesRead] := chunk[0];
      if firstRead {
        if buffer[0] == ' ' { return 0; }
        firstRead := false;
      }
      bytesRead := bytesRead + 1;
      if buffer[bytesRead - 1] == ' ' {
        buffer[bytesRead - 1] := '\0';
        return bytesRead;
      }
      if buffer[bytesRead - 1] == '\n' {
        buffer[bytesRead - 1] := '\0';
        return -1;
      }
    }
    return 0;
  }

  /** A word that fits, followed by a space or newline, is the field. */
  lemma FieldOfWord(w: string, end: char, rest: string, size: nat)
    requires IsWord(w) && |w| <= size && (end == ' ' || end == '\n')
    ensures FieldAt(w + [end] + rest, size) == if end == ' ' then BeforeSpace(w) else BeforeNewline(w)
    ensures Rest(w + [end] + rest, size) == rest
  {
    var s := w + [end] + rest;
    var k := Stop(s, size + 1);
    assert s[|w|] == end;
    assert forall i | 0 <= i < |w| :: s[i] == w[i] && s[i] != ' ' && s[i] != '\n';
    assert k == |w|;
    assert s[..k] == w && s[k + 1..] == rest;
  }

  // ---------- Files: store_file and the client's read_file ----------

  const CHUNK := 1024

  /** Reads `size` bytes in chunks, then one more that must be a newline. `file` is what was written.
      When the stream ends right after the last byte, the final test looks at a leftover byte. */
  method StoreFile(sock: Socket, size: nat) returns (file: string, r: nat)
    modifies sock`incoming
    ensures var s := old(sock.incoming);
            if |s| > size then
              file == s[..size] && sock.incoming == s[size + 1..] && r == (if s[size] == '\n' then size else 0)
            else if |s| < size then file == s && sock.incoming == "" && r == 0
            else file == s && sock.incoming == "" && (r == size || r == 0)
  {
    var buffer := new char[CHUNK];
    ghost var s := sock.incoming;
    file := "";
    var bytesRead := 0;
    while bytesRead < size
      invariant bytesRead == |file| <= size
      invariant s == file + sock.incoming
    {
      var chunk := sock.Read(if size - bytesRead < CHUNK then size - bytesRead else CHUNK);
      if chunk == "" {
        assert s == file;
        return file, 0;
      }
      buffer[0] := chunk[0];
      bytesRead := bytesRead + |chunk|;
      file := file + chunk;
    }
    assert s[..size] == file && s[size..] == sock.incoming;
    var last := sock.Read(1);
    if last != "" { buffer[0] := last[0]; }
    r := if buffer[0] == '\n' then bytesRead else 0;
  }

  // ---------- The client's read_field ----------

  /** Stops at a space only. */
  function SpaceStop(s: string, limit: nat): (k: nat)
    ensures k <= |s| && k <= limit
    ensures forall i | 0 <= i < k :: s[i] != ' '
    ensures k < |s| && k < limit ==> s[k] == ' '
  {
    if s == "" || limit == 0 || s[0] == ' ' then 0 else 1 + SpaceStop(s[1..], limit - 1)
  }

  method ReadFieldClient(sock: Socket, buffer: array<char>, size: nat) returns (r: nat)
    requires buffer.Length > size
    modifies sock`incoming, buffer
    ensures var s := old(sock.incoming);
            var k := SpaceStop(s, size + 1);
            if k == size + 1 then r == k && buffer[..k - 1] == s[..k - 1] && buffer[k - 1] == '\0' &&
              sock.incoming == s[k..]
            else if k == |s| then r == 0
            else r == k + 1 && buffer[..k] == s[..k] && buffer[k] == '\0' && sock.incoming == s[k + 1..]
  {
    var bytesRead := 0;
    ghost var s := sock.incoming;
    ghost var k := SpaceStop(s, size + 1);
    while bytesRead <= size
      invariant 0 <= bytesRead <= k
      invariant sock.incoming == s[bytesRead..]
      invariant buffer[..bytesRead] == s[..bytesRead]
      decreases size + 1 - bytesRead
    {
      var chunk := sock.Read(1);
      if chunk == "" { return 0; }
      assert s[bytesRead..] == chunk + sock.incoming && chunk == [s[bytesRead]];
      assert sock.incoming == s[bytesRead + 1..];
      buffer[bytesRead] := chunk[0];
      bytesRead := bytesRead + 1;
      if buffer[bytesRead - 1] == ' ' { break; }
    }
    buffer[bytesRead - 1] := '\0';
    return bytesRead;
  }

  lemma SpaceStopOfWord(w: string, rest: string, size: nat)
    requires IsWord(w) && |w| <= size
    ensures var s := w + " " + rest; SpaceStop(s, size + 1) == |w| && s[..|w|] == w && s[|w| + 1..] == rest
  {
    var s := w + " " + rest;
    assert s[|w|] == ' ';
    assert forall i | 0 <= i < |w| :: s[i] == w[i] && s[i] != ' ';
  }

  /** One field of a reply, as C text. */
  method NextField(sock: Socket, buffer: array<char>, size: nat, ghost w: string, ghost rest: string)
    returns (text: string)
    requires buffer.Length > size && IsWord(w) && |w| <= size && sock.incoming == w + " " + rest
    modifies sock`incoming, buffer
    ensures text == w && sock.incoming == rest
  {
    SpaceStopOfWord(w, rest, size);
    var r := ReadFieldClient(sock, buffer, size);
    text := CString(buffer[..]);
    TokenText(buffer[..], |w|, w);
  }

  /** `showAsset` reading the reply to SAS: verb, status, file name, size, then the file. */
  method ReadAssetReply(sock: Socket, ghost fname: string, ghost bytes: string)
    returns (name: string, size: nat, file: string, r: nat)
    requires GoodFname(fname) && |Dec(|bytes|)| <= 9
    requires sock.incoming == AssetWire("RSA", " ", "OK", fname, Dec(|bytes|), bytes, "\n")
    modifies sock`incoming
    ensures name == fname && size == |bytes| && file == bytes && r == size
    ensures sock.incoming == "\n"
  {
    ghost var r4 := bytes + "\n" + "\n";
    ghost var r3 := Dec(|bytes|) + " " + r4;
    ghost var r2 := fname + " " + r3;
    var status := new char[5];
    var verb := NextField(sock, status, 3, "RSA", "OK" + " " + r2);
    var code := NextField(sock, status, 3, "OK", r2);
    var nameBuffer := new char[26];
    name := NextField(sock, nameBuffer, 25, fname, r3);
    var sizeBuffer := new char[10];
    DigitsAreWord(Dec(|bytes|));
    var sizeText := NextField(sock, sizeBuffer, 9, Dec(|bytes|), r4);
    size := Atoi(sizeText);
    AtoiDec(|bytes|, "");
    assert Dec(|bytes|) + "" == Dec(|bytes|);
    assert r4[..|bytes|] == bytes && r4[|bytes|] == '\n' && r4[|bytes| + 1..] == "\n";
    file, r := StoreFile(sock, size);
  }
}
