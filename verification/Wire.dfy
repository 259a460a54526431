/** The wire format: length-prefixed frames, and the structural checks on a header. */
module Wire {
  import opened Plan
  import opened Decimal
  import opened ManifestState

  const MAX_FRAME := 64 * 1024
  const MAX_PARTS := 1_000_000

  // ---- frames ----

  /** A 32-bit length, most significant byte first. */
  function BigEndian(n: nat): (b: Bytes)
    requires n < 0x1_0000_0000
    ensures |b| == 4
  {
    [(n / 0x100_0000) as byte, (n / 0x1_0000 % 0x100) as byte, (n / 0x100 % 0x100) as byte, (n % 0x100) as byte]
  }

  function FromBigEndian(b: Bytes): (n: nat)
    requires |b| == 4
  {
    b[0] as nat * 0x100_0000 + b[1] as nat * 0x1_0000 + b[2] as nat * 0x100 + b[3] as nat
  }

  lemma {:induction false} BigEndianBack(n: nat)
    requires n < 0x1_0000_0000
    ensures FromBigEndian(BigEndian(n)) == n
  {
    var n1 := n / 0x100;
    var n2 := n1 / 0x100;
    assert n / 0x1_0000 == n2 && n / 0x100_0000 == n2 / 0x100;
    assert n == n1 * 0x100 + n % 0x100;
    assert n1 == n2 * 0x100 + n1 % 0x100;
    assert n2 == n2 / 0x100 * 0x100 + n2 % 0x100;
  }

  lemma {:induction false} FromBigEndianBack(b: Bytes)
    requires |b| == 4
    ensures FromBigEndian(b) < 0x1_0000_0000 && BigEndian(FromBigEndian(b)) == b
  {
    var n := FromBigEndian(b);
    var n1 := b[0] as nat * 0x1_0000 + b[1] as nat * 0x100 + b[2] as nat;
    var n2 := b[0] as nat * 0x100 + b[1] as nat;
    assert n == n1 * 0x100 + b[3] as nat && n1 == n2 * 0x100 + b[2] as nat;
    assert n / 0x100 == n1 && n / 0x1_0000 == n2 && n / 0x100_0000 == b[0] as nat;
  }

  /** The most significant byte comes first: lengths compare as their bytes do, one by one from the front. */
  lemma {:induction false} BigEndianOrders(m: nat, n: nat)
    requires m < n < 0x1_0000_0000
    ensures exists k :: 0 <= k < 4 && BigEndian(m)[..k] == BigEndian(n)[..k] && BigEndian(m)[k] < BigEndian(n)[k]
  {
    var a, b := BigEndian(m), BigEndian(n);
    BigEndianBack(m);
    BigEndianBack(n);
    if a[0] < b[0] {
      assert a[..0] == b[..0];
    } else if a[0] == b[0] && a[1] < b[1] {
      assert a[..1] == b[..1];
    } else if a[0] == b[0] && a[1] == b[1] && a[2] < b[2] {
      assert a[..2] == b[..2];
    } else {
      assert a[0] == b[0] && a[1] == b[1] && a[2] == b[2] && a[3] < b[3];
      assert a[..3] == b[..3];
    }
  }

  function Frame(body: Bytes): Bytes
    requires |body| < 0x1_0000_0000
  {
    BigEndian(|body|) + body
  }

  datatype Read = Got(body: Bytes, rest: Bytes) | InvalidLength(rest: Bytes) | Truncated

  function ReadFrame(stream: Bytes): Read {
    if |stream| < 4 then Truncated
    else
      var n := FromBigEndian(stream[..4]);
      if n == 0 || n > MAX_FRAME then InvalidLength(stream[4..])
      else if |stream| < 4 + n then Truncated
      else Got(stream[4..4 + n], stream[4 + n..])
  }

  predicate Readable(body: Bytes) { 0 < |body| <= MAX_FRAME }

  /** A frame reads back, with whatever follows it intact, exactly when its length is one the reader allows. */
  lemma {:induction false} FrameReadsBack(body: Bytes, rest: Bytes)
    requires |body| < 0x1_0000_0000
    ensures ReadFrame(Frame(body) + rest) == Got(body, rest) <==> 0 < |body| <= 65536
  {
    var stream := Frame(body) + rest;
    BigEndianBack(|body|);
    assert stream[..4] == BigEndian(|body|);
    assert stream[4..4 + |body|] == body && stream[4 + |body|..] == rest;
  }

  /** Of the frames writeFrame lets through, the reader refuses exactly the empty one. */
  lemma {:induction false} EmptyIsRefused(body: Bytes, rest: Bytes)
    requires |body| <= MAX_FRAME
    ensures ReadFrame(Frame(body) + rest) == if body == [] then InvalidLength(rest) else Got(body, rest)
  {
    FrameReadsBack(body, rest);
    BigEndianBack(|body|);
    var stream := Frame(body) + rest;
    assert stream[..4] == BigEndian(|body|);
    assert body == [] ==> stream[4..] == rest;
  }

  /** What is read is what a writer must have written. */
  lemma {:induction false} ReadIsFrame(stream: Bytes)
    ensures var r := ReadFrame(stream); r.Got? ==> Readable(r.body) && Frame(r.body) + r.rest == stream
  {
    var r := ReadFrame(stream);
    if r.Got? {
      FromBigEndianBack(stream[..4]);
      assert stream == stream[..4] + stream[4..4 + |r.body|] + stream[4 + |r.body|..];
    }
  }

  ghost predicate AllReadable(bodies: seq<Bytes>) { forall i :: 0 <= i < |bodies| ==> Readable(bodies[i]) }

  ghost function Frames(bodies: seq<Bytes>): Bytes
    requires AllReadable(bodies)
  {
    if bodies == [] then [] else Frame(bodies[0]) + Frames(bodies[1..])
  }

  datatype Stream = Parsed(bodies: seq<Bytes>, rest: Bytes) | Broken

  /** n frames off the front of a stream. */
  ghost function ReadFrames(stream: Bytes, n: nat): Stream {
    if n == 0 then Parsed([], stream)
    else
      var r := ReadFrame(stream);
      if !r.Got? then Broken
      else
        var s := ReadFrames(r.rest, n - 1);
        if s.Broken? then Broken else Parsed([r.body] + s.bodies, s.rest)
  }

  /** One frame comes off the front, and the rest is read as before. */
  lemma {:induction false} ReadOneMore(body: Bytes, stream: Bytes, rest: Bytes, n: nat)
    requires Readable(body) && stream == Frame(body) + rest && ReadFrames(rest, n).Parsed?
    ensures ReadFrames(stream, n + 1) == Parsed([body] + ReadFrames(rest, n).bodies, ReadFrames(rest, n).rest)
  {
    FrameReadsBack(body, rest);
  }

  /** Any sequence of frames followed by payload bytes reads back, with the remainder intact. */
  lemma {:induction false} FramesReadBack(bodies: seq<Bytes>, payload: Bytes)
    requires AllReadable(bodies)
    ensures ReadFrames(Frames(bodies) + payload, |bodies|) == Parsed(bodies, payload)
  {
    hide ReadFrame, Frame;
    if bodies == [] {
      assert Frames(bodies) + payload == payload;
    } else {
      var rest := Frames(bodies[1..]) + payload;
      FramesReadBack(bodies[1..], payload);
      assert Frames(bodies) + payload == Frame(bodies[0]) + rest;
      ReadOneMore(bodies[0], Frames(bodies) + payload, rest, |bodies| - 1);
      assert bodies == [bodies[0]] + bodies[1..];
    }
  }

  /** So no two such streams are confused. */
  lemma {:induction false} FramesUnique(a: seq<Bytes>, b: seq<Bytes>, p: Bytes, q: Bytes)
    requires AllReadable(a) && AllReadable(b) && |a| == |b|
    requires Frames(a) + p == Frames(b) + q
    ensures a == b && p == q
  {
    FramesReadBack(a, p);
    FramesReadBack(b, q);
  }

  /** One direction of a connection. */
  class Pipe {
    var buffered: Bytes

    constructor ()
      ensures buffered == []
    {
      buffered := [];
    }

    /** writeFrame: a body that is too large is refused before anything is written. */
    method WriteFrame(body: Bytes) returns (ok: bool)
      modifies this
      ensures ok <==> |body| <= 65536
      ensures buffered == if ok then old(buffered) + Frame(body) else old(buffered)
    {
      if |body| > MAX_FRAME {
        return false;
      }
      buffered := buffered + BigEndian(|body|);
      buffered := buffered + body;
      assert buffered == old(buffered) + Frame(body);
      ok := true;
    }

    method Write(payload: Bytes)
      modifies this
      ensures buffered == old(buffered) + payload
    {
      buffered := buffered + payload;
    }

    /** readFrame: the length first, then the body; a refused length has been consumed. */
    method NextFrame() returns (r: Read)
      modifies this
      ensures r == ReadFrame(old(buffered))
      ensures buffered == if r.Truncated? then [] else r.rest
    {
      if |buffered| < 4 {
        buffered := [];
        return Truncated;
      }
      var n := FromBigEndian(buffered[..4]);
      buffered := buffered[4..];
      if n == 0 || n > MAX_FRAME {
        return InvalidLength(buffered);
      }
      if |buffered| < n {
        buffered := [];
        return Truncated;
      }
      var body := buffered[..n];
      assert body == old(buffered)[4..4 + n];
      buffered := buffered[n..];
      assert buffered == old(buffered)[4 + n..];
      r := Got(body, buffered);
    }

    /** Exactly n bytes, or a failure that has consumed what there was. */
    method Take(n: nat) returns (ok: bool, data: Bytes)
      modifies this
      ensures ok <==> n <= |old(buffered)|
      ensures ok ==> data == old(buffered)[..n] && buffered == old(buffered)[n..]
      ensures !ok ==> data == old(buffered) && buffered == []
    {
      ok := n <= |buffered|;
      var m := if ok then n else |buffered|;
      data := buffered[..m];
      buffered := buffered[m..];
    }
  }

  /**
   * A chunk over one connection: the sender writes the header frame and streams the payload,
   * the receiver reads a frame and then the number of bytes the header names. The two agree
   * exactly when the header's frame is one that can be read, whatever bytes the payload has.
   */
  method CarryChunk(pipe: Pipe, header: Bytes, payload: Bytes, size: nat) returns (ok: bool, h: Bytes, data: Bytes)
    requires pipe.buffered == []
    modifies pipe
    ensures ok <==> 0 < |header| <= 65536 && size <= |payload|
    ensures ok ==> h == header && data == payload[..size] && pipe.buffered == payload[size..]
  {
    h, data := [], [];
    ok := pipe.WriteFrame(header);
    if !ok {
      return;
    }
    pipe.Write(payload);
    assert pipe.buffered == Frame(header) + payload;
    EmptyIsRefused(header, payload);
    hide ReadFrame, Frame;
    var r := pipe.NextFrame();
    assert r == if header == [] then InvalidLength(payload) else Got(header, payload);
    if !r.Got? {
      return false, [], [];
    }
    h := r.body;
    ok, data := pipe.Take(size);
  }

  // ---- headers ----

  datatype Header = Header(
    messageType: string, transferId: string, fileName: string, partIndex: int, totalParts: int,
    partSize: int, chunkIndex: int, offset: int, totalBytes: int, lab: bool,
    labPath: string, receiveRelPath: string, publishName: string, folderResult: string, chunkSha256: string)

  predicate IsIdChar(c: char) {
    'a' <= c <= 'z' || 'A' <= c <= 'Z' || '0' <= c <= '9' || c == '-' || c == '_'
  }

  predicate IsHexChar(c: char) { 'a' <= c <= 'f' || 'A' <= c <= 'F' || '0' <= c <= '9' }

  /** White space as strings.TrimSpace sees it. */
  predicate IsSpace(c: char) {
    var n := c as int;
    || 9 <= n <= 13 || n == 0x20 || n == 0x85 || n == 0xA0 || n == 0x1680 || 0x2000 <= n <= 0x200A
    || n == 0x2028 || n == 0x2029 || n == 0x202F || n == 0x205F || n == 0x3000
  }

  predicate Blank(s: string) { forall i :: 0 <= i < |s| ==> IsSpace(s[i]) }

  predicate ValidId(s: string) { 0 < |s| <= 128 && forall i :: 0 <= i < |s| ==> IsIdChar(s[i]) }

  predicate ValidDigest(s: string) { |s| == 64 && forall i :: 0 <= i < |s| ==> IsHexChar(s[i]) }

  datatype Validation =
    | ValidHeader
    | InvalidMessageType
    | InvalidTransferId
    | InvalidFileName
    | InvalidPosition
    | InvalidBounds
    | InvalidDigest

  /** ValidateHeader, check by check. */
  function Validate(h: Header): Validation {
    if h.messageType != "" && h.messageType != "chunk_start" then InvalidMessageType
    else if !ValidId(h.transferId) then InvalidTransferId
    else if Blank(h.fileName) then InvalidFileName
    else if h.totalParts < 1 || h.totalParts > MAX_PARTS || h.chunkIndex < 0 || h.chunkIndex >= h.totalParts
      || h.partIndex != h.chunkIndex + 1 then InvalidPosition
    else if h.totalBytes < 0 || h.offset < 0 || h.partSize < 0 || h.partSize > h.totalBytes
      || h.offset > h.totalBytes - h.partSize then InvalidBounds
    else if h.chunkSha256 != "" && !ValidDigest(h.chunkSha256) then InvalidDigest
    else ValidHeader
  }

  /**
   * Exactly which headers pass: a chunk inside a file of at most a million parts, for a name
   * that is not blank and an id a directory can carry. A refusal names the first thing wrong.
   */
  lemma {:induction false} ValidatesExactly(h: Header)
    ensures var typed := h.messageType in {"", "chunk_start"};
      var named := 1 <= |h.transferId| <= 128 && forall i :: 0 <= i < |h.transferId| ==> IsIdChar(h.transferId[i]);
      var filed := exists i :: 0 <= i < |h.fileName| && !IsSpace(h.fileName[i]);
      var placed := 0 <= h.chunkIndex < h.totalParts <= 1_000_000 && h.partIndex == h.chunkIndex + 1;
      var bounded := 0 <= h.offset && 0 <= h.partSize && h.offset + h.partSize <= h.totalBytes;
      var digested := h.chunkSha256 == ""
                      || (|h.chunkSha256| == 64
                          && forall i :: 0 <= i < |h.chunkSha256| ==> IsHexChar(h.chunkSha256[i]));
      var v := Validate(h);
      && (v.ValidHeader? <==> typed && named && filed && placed && bounded && digested)
      && (v.InvalidMessageType? <==> !typed)
      && (v.InvalidTransferId? <==> typed && !named)
      && (v.InvalidFileName? <==> typed && named && !filed)
      && (v.InvalidPosition? <==> typed && named && filed && !placed)
      && (v.InvalidBounds? <==> typed && named && filed && placed && !bounded)
      && (v.InvalidDigest? <==> typed && named && filed && placed && bounded && !digested)
  {
    hide IsIdChar, IsHexChar, IsSpace;
    if Blank(h.fileName) {
      assert forall i :: 0 <= i < |h.fileName| ==> IsSpace(h.fileName[i]);
    }
  }

  /** An id that passes has nothing in it that a path could read: no separator, dot, colon or space. */
  lemma {:induction false} AcceptedIdIsPlain(h: Header)
    requires Validate(h).ValidHeader?
    ensures forall c :: c in h.transferId ==> c !in "/\\.:* ?[]\"<>|"
  {
    forall c | c in h.transferId
      ensures c !in "/\\.:* ?[]\"<>|"
    {
      assert IsIdChar(c);
    }
  }

  /** Options of a send that reach the header as they are. */
  datatype SendOptions = SendOptions(lab: bool, labPath: string, receiveRelPath: string, publishName: string,
      folderResult: string)

  /** The header the sender builds for chunk i of its manifest. */
  function SenderHeader(transferId: string, base: string, cs: seq<ChunkState>, i: nat, totalBytes: int,
      digest: string, o: SendOptions): Header
    requires i < |cs|
  {
    Header("chunk_start", transferId, base, cs[i].index + 1, |cs|, cs[i].size, cs[i].index, cs[i].offset, totalBytes,
           o.lab, o.labPath, o.receiveRelPath, o.publishName, o.folderResult, digest)
  }

  /** The id newManifest makes out of the clock. */
  function NewTransferId(nanos: int): string { "tx-" + IntText(nanos) }

  function Pow10(k: nat): (p: nat)
    ensures p >= 1
  {
    if k == 0 then 1 else 10 * Pow10(k - 1)
  }

  lemma {:induction false} TextLength(n: nat, k: nat)
    requires n < Pow10(k) && k >= 1
    ensures |NatText(n)| <= k
  {
    if n >= 10 {
      TextLength(n / 10, k - 1);
    }
  }

  lemma {:induction false} NewTransferIdValid(nanos: int)
    requires -MAX_INT64 - 1 <= nanos <= MAX_INT64
    ensures ValidId(NewTransferId(nanos))
  {
    var n := if nanos < 0 then -nanos else nanos;
    NatTextValue(n);
    assert Pow10(19) == 10000000000000000000 by {
      assert Pow10(5) == 100000;
      assert Pow10(10) == 10000000000;
      assert Pow10(15) == 1000000000000000;
    }
    TextLength(n, 19);
  }

  /**
   * Every header the sender builds from its manifest over an exact cut passes the receiver's
   * structural checks exactly when the file name is not blank and there are at most a
   * million chunks.
   */
  lemma {:induction false} SenderHeaderPasses(nanos: int, base: string, cs: seq<ChunkState>, i: nat,
      totalBytes: int, digest: string, o: SendOptions)
    requires -MAX_INT64 - 1 <= nanos <= MAX_INT64
    requires IsPartition(Geometry(cs), totalBytes) && i < |cs| && ValidDigest(digest)
    ensures Validate(SenderHeader(NewTransferId(nanos), base, cs, i, totalBytes, digest, o)).ValidHeader? <==>
      !Blank(base) && |cs| <= MAX_PARTS
  {
    NewTransferIdValid(nanos);
    EndsIncrease(Geometry(cs), totalBytes, i, i + 1);
    EndsIncrease(Geometry(cs), totalBytes, i + 1, |cs|);
    assert Geometry(cs)[i].offset == EndOf(Geometry(cs), i) && Geometry(cs)[i].index == i && Geometry(cs)[i].size > 0;
  }
}
