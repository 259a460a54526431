/**
 * What a header's signature covers: one text made of all fields with a NUL between each two.
 * The text determines the header as long as no field smuggles in separators of its own.
 */
module Signature {
  import opened Plan
  import opened Decimal
  import opened Wire

  function BoolText(b: bool): string { if b then "true" else "false" }

  /** Fields with a NUL between each two. */
  function Joined(fields: seq<string>): string {
    if fields == [] then "" else if |fields| == 1 then fields[0] else fields[0] + "\0" + Joined(fields[1..])
  }

  /** Part index, part count, part size, chunk index, offset, total size and the lab flag, as they are printed. */
  function Numbers(h: Header): (texts: seq<string>)
    ensures |texts| == 7
  {
    [IntText(h.partIndex), IntText(h.totalParts), IntText(h.partSize), IntText(h.chunkIndex), IntText(h.offset),
     IntText(h.totalBytes), BoolText(h.lab)]
  }

  function Tail(h: Header): (fields: seq<string>)
    ensures |fields| == 5
  {
    [h.labPath, h.receiveRelPath, h.publishName, h.folderResult, h.chunkSha256]
  }

  function Fields(h: Header): (fields: seq<string>)
    ensures |fields| == 15
  {
    [h.messageType, h.transferId, h.fileName] + Numbers(h) + Tail(h)
  }

  function AuthPayload(h: Header): string { Joined(["v1"] + Fields(h)) }

  lemma {:induction false} JoinedMore(field: string, fields: seq<string>, text: string)
    requires fields != [] && text == Joined(fields)
    ensures Joined([field] + fields) == field + "\0" + text
  {
    assert ([field] + fields)[1..] == fields;
  }

  /** The last fields of the payload: the flag, the paths and names, and the digest. */
  lemma {:induction false} TailText(h: Header)
    ensures Joined([BoolText(h.lab)] + Tail(h)) == (if h.lab then "true" else "false")
      + "\0" + (h.labPath + "\0" + (h.receiveRelPath + "\0" + (h.publishName + "\0" + (h.folderResult
      + "\0" + h.chunkSha256))))
  {
    var f := [h.chunkSha256];
    JoinedMore(h.folderResult, f, h.chunkSha256);
    f := [h.folderResult] + f;
    JoinedMore(h.publishName, f, Joined(f));
    f := [h.publishName] + f;
    JoinedMore(h.receiveRelPath, f, Joined(f));
    f := [h.receiveRelPath] + f;
    JoinedMore(h.labPath, f, Joined(f));
    f := [h.labPath] + f;
    assert f == Tail(h);
    JoinedMore(BoolText(h.lab), f, Joined(f));
  }

  /** Before it the six numbers, in the order in which they are signed. */
  lemma {:induction false} NumbersText(h: Header)
    ensures Joined(Numbers(h) + Tail(h)) == IntText(h.partIndex)
      + "\0" + (IntText(h.totalParts) + "\0" + (IntText(h.partSize) + "\0" + (IntText(h.chunkIndex)
      + "\0" + (IntText(h.offset) + "\0" + (IntText(h.totalBytes) + "\0" + Joined([BoolText(h.lab)] + Tail(h)))))))
  {
    var f := [BoolText(h.lab)] + Tail(h);
    JoinedMore(IntText(h.totalBytes), f, Joined(f));
    f := [IntText(h.totalBytes)] + f;
    JoinedMore(IntText(h.offset), f, Joined(f));
    f := [IntText(h.offset)] + f;
    JoinedMore(IntText(h.chunkIndex), f, Joined(f));
    f := [IntText(h.chunkIndex)] + f;
    JoinedMore(IntText(h.partSize), f, Joined(f));
    f := [IntText(h.partSize)] + f;
    JoinedMore(IntText(h.totalParts), f, Joined(f));
    f := [IntText(h.totalParts)] + f;
    JoinedMore(IntText(h.partIndex), f, Joined(f));
    f := [IntText(h.partIndex)] + f;
    assert f == Numbers(h) + Tail(h);
  }

  lemma {:induction false} FrontText(h: Header)
    ensures AuthPayload(h) == "v1"
      + "\0" + (h.messageType + "\0" + (h.transferId + "\0" + (h.fileName + "\0" + Joined(Numbers(h) + Tail(h)))))
  {
    var f := Numbers(h) + Tail(h);
    JoinedMore(h.fileName, f, Joined(f));
    f := [h.fileName] + f;
    JoinedMore(h.transferId, f, Joined(f));
    f := [h.transferId] + f;
    JoinedMore(h.messageType, f, Joined(f));
    f := [h.messageType] + f;
    assert f == Fields(h);
    JoinedMore("v1", f, Joined(f));
  }

  /** The text a signature covers, written out: the version and all fifteen fields, in this order. */
  lemma {:induction false} PayloadText(h: Header)
    ensures AuthPayload(h) == "v1"
      + "\0" + (h.messageType + "\0" + (h.transferId + "\0" + (h.fileName + "\0" + (IntText(h.partIndex)
      + "\0" + (IntText(h.totalParts) + "\0" + (IntText(h.partSize) + "\0" + (IntText(h.chunkIndex)
      + "\0" + (IntText(h.offset) + "\0" + (IntText(h.totalBytes) + "\0" + ((if h.lab then "true" else "false")
      + "\0" + (h.labPath + "\0" + (h.receiveRelPath + "\0" + (h.publishName + "\0" + (h.folderResult
      + "\0" + h.chunkSha256))))))))))))))
  {
    hide AuthPayload, Joined, Numbers, Tail;
    FrontText(h);
    NumbersText(h);
    TailText(h);
  }

  /** The header checks pass, and the sizes are ones the program's integers hold. */
  predicate Accepted(h: Header) { Validate(h).ValidHeader? && h.totalBytes <= MAX_INT64 }

  /** Another header the checks accept has the same payload, so the same signature. */
  ghost predicate Ambiguous(g: Header) { exists h: Header :: Accepted(h) && h != g && AuthPayload(h) == AuthPayload(g) }

  // ---- counting separators ----

  function Nuls(s: string): nat { if s == "" then 0 else (if s[0] == '\0' then 1 else 0) + Nuls(s[1..]) }

  predicate NulFree(s: string) { '\0' !in s }

  ghost predicate AllNulFree(fields: seq<string>) { forall i :: 0 <= i < |fields| ==> NulFree(fields[i]) }

  lemma {:induction false} NulsAdd(a: string, b: string)
    ensures Nuls(a + b) == Nuls(a) + Nuls(b)
  {
    if a == "" {
      assert a + b == b;
    } else {
      assert (a + b)[1..] == a[1..] + b;
      NulsAdd(a[1..], b);
    }
  }

  lemma {:induction false} NulsZero(s: string)
    ensures Nuls(s) == 0 <==> NulFree(s)
  {
    if s != "" {
      NulsZero(s[1..]);
      assert s == [s[0]] + s[1..];
    }
  }

  /** A field is NUL-free exactly when it adds nothing to the separators. */
  function NulsIn(fields: seq<string>): nat {
    if fields == [] then 0 else Nuls(fields[0]) + NulsIn(fields[1..])
  }

  lemma {:induction false} NulsJoined(fields: seq<string>)
    requires fields != []
    ensures Nuls(Joined(fields)) == NulsIn(fields) + |fields| - 1
  {
    if |fields| == 1 {
      assert NulsIn(fields[1..]) == 0;
    } else {
      NulsJoined(fields[1..]);
      NulsAdd(fields[0] + "\0", Joined(fields[1..]));
      NulsAdd(fields[0], "\0");
      assert Nuls("\0") == 1 by { assert "\0"[1..] == ""; }
    }
  }

  lemma {:induction false} NulsInZero(fields: seq<string>)
    ensures NulsIn(fields) == 0 <==> AllNulFree(fields)
  {
    if fields != [] {
      NulsZero(fields[0]);
      NulsInZero(fields[1..]);
      assert fields == [fields[0]] + fields[1..];
    }
  }

  lemma {:induction false} NulsInAdd(a: seq<string>, b: seq<string>)
    ensures NulsIn(a + b) == NulsIn(a) + NulsIn(b)
  {
    if a == [] {
      assert a + b == b;
    } else {
      assert (a + b)[1..] == a[1..] + b;
      NulsInAdd(a[1..], b);
    }
  }

  // ---- splitting at separators ----

  /** Two texts that agree up to a separator agree before and after it. */
  lemma {:induction false} SplitUnique(a: string, b: string, x: string, y: string)
    requires NulFree(a) && NulFree(b) && a + "\0" + x == b + "\0" + y
    ensures a == b && x == y
  {
    var s, t := a + "\0" + x, b + "\0" + y;
    assert s[|a|] == '\0' && t[|b|] == '\0';
    assert forall i :: 0 <= i < |a| ==> s[i] == a[i];
    assert forall i :: 0 <= i < |b| ==> t[i] == b[i];
    assert |a| == |b|;
    assert s[..|a|] == a && t[..|b|] == b;
    assert s[|a| + 1..] == x && t[|b| + 1..] == y;
  }

  lemma {:induction false} JoinedUnique(a: seq<string>, b: seq<string>)
    requires |a| == |b| && AllNulFree(a) && AllNulFree(b) && Joined(a) == Joined(b)
    ensures a == b
  {
    if |a| > 1 {
      SplitUnique(a[0], b[0], Joined(a[1..]), Joined(b[1..]));
      JoinedUnique(a[1..], b[1..]);
      assert a == [a[0]] + a[1..] && b == [b[0]] + b[1..];
    }
  }

  /** Each field with a NUL behind it. */
  function Ended(fields: seq<string>): string {
    if fields == [] then "" else fields[0] + "\0" + Ended(fields[1..])
  }

  lemma {:induction false} JoinedSplits(a: seq<string>, b: seq<string>)
    requires b != []
    ensures Joined(a + b) == Ended(a) + Joined(b)
  {
    if a == [] {
      assert a + b == b;
    } else {
      assert (a + b)[1..] == a[1..] + b;
      JoinedSplits(a[1..], b);
      assert a[0] + "\0" + (Ended(a[1..]) + Joined(b)) == a[0] + "\0" + Ended(a[1..]) + Joined(b);
    }
  }

  lemma {:induction false} EndedUnique(a: seq<string>, b: seq<string>, x: string, y: string)
    requires |a| == |b| && AllNulFree(a) && AllNulFree(b) && Ended(a) + x == Ended(b) + y
    ensures a == b && x == y
  {
    if a == [] {
      assert Ended(a) + x == x && Ended(b) + y == y;
    } else {
      assert Ended(a) + x == a[0] + "\0" + (Ended(a[1..]) + x);
      assert Ended(b) + y == b[0] + "\0" + (Ended(b[1..]) + y);
      SplitUnique(a[0], b[0], Ended(a[1..]) + x, Ended(b[1..]) + y);
      EndedUnique(a[1..], b[1..], x, y);
      assert a == [a[0]] + a[1..] && b == [b[0]] + b[1..];
    }
  }

  // ---- the fields ----

  lemma {:induction false} IntTextNulFree(n: int)
    ensures NulFree(IntText(n))
  {
    NatTextValue(if n < 0 then -n else n);
  }

  lemma {:induction false} NumbersNulFree(h: Header)
    ensures AllNulFree(Numbers(h))
  {
    IntTextNulFree(h.partIndex);
    IntTextNulFree(h.totalParts);
    IntTextNulFree(h.partSize);
    IntTextNulFree(h.chunkIndex);
    IntTextNulFree(h.offset);
    IntTextNulFree(h.totalBytes);
    assert NulFree(BoolText(h.lab));
  }

  lemma {:induction false} NumbersUnique(g: Header, h: Header)
    requires Numbers(g) == Numbers(h)
    ensures g.partIndex == h.partIndex && g.totalParts == h.totalParts && g.partSize == h.partSize
    ensures g.chunkIndex == h.chunkIndex && g.offset == h.offset && g.totalBytes == h.totalBytes && g.lab == h.lab
  {
    var a, b := Numbers(g), Numbers(h);
    assert forall i :: 0 <= i < 7 ==> a[i] == b[i];
    IntTextInjective(g.partIndex, h.partIndex);
    IntTextInjective(g.totalParts, h.totalParts);
    IntTextInjective(g.partSize, h.partSize);
    IntTextInjective(g.chunkIndex, h.chunkIndex);
    IntTextInjective(g.offset, h.offset);
    IntTextInjective(g.totalBytes, h.totalBytes);
  }

  lemma {:induction false} FieldsUnique(g: Header, h: Header)
    requires Fields(g) == Fields(h)
    ensures g == h
  {
    var a, b := Fields(g), Fields(h);
    assert a[..3] == [g.messageType, g.transferId, g.fileName] && b[..3] == [h.messageType, h.transferId, h.fileName];
    assert a[3..10] == Numbers(g) && b[3..10] == Numbers(h) && a[10..] == Tail(g) && b[10..] == Tail(h);
    NumbersUnique(g, h);
    assert g.fileName == a[..3][2] && h.fileName == b[..3][2] && g.transferId == a[..3][1] && h.transferId == b[..3][1];
    assert g.messageType == a[..3][0] && h.messageType == b[..3][0];
    assert forall i :: 0 <= i < 5 ==> Tail(g)[i] == Tail(h)[i];
  }

  ghost predicate TextFieldsNulFree(h: Header) {
    NulFree(h.messageType) && NulFree(h.transferId) && NulFree(h.fileName) && AllNulFree(Tail(h))
  }

  lemma {:induction false} FieldsNulFree(h: Header)
    requires TextFieldsNulFree(h)
    ensures AllNulFree(["v1"] + Fields(h))
  {
    NumbersNulFree(h);
  }

  /**
   * The payload of a header whose text fields have no NUL determines all fifteen fields:
   * no other header, with or without NULs, has the same payload.
   */
  lemma {:induction false} PayloadDeterminesHeader(g: Header, h: Header)
    requires TextFieldsNulFree(g) && AuthPayload(g) == AuthPayload(h)
    ensures g == h
  {
    var a, b := ["v1"] + Fields(g), ["v1"] + Fields(h);
    FieldsNulFree(g);
    NulsInZero(a);
    NulsJoined(a);
    NulsJoined(b);
    NulsInZero(b);
    JoinedUnique(a, b);
    assert Fields(g) == a[1..] && Fields(h) == b[1..];
    FieldsUnique(g, h);
  }

  // ---- exactly when a payload is ambiguous ----

  /** One of the four fields that no check looks at carries a NUL. */
  predicate TailNul(g: Header) {
    !(NulFree(g.labPath) && NulFree(g.receiveRelPath) && NulFree(g.publishName) && NulFree(g.folderResult))
  }

  /** The file name starts with another acceptable header's file name and numbers, each ended by a NUL. */
  ghost predicate EmbedsNumbers(g: Header) {
    exists h: Header :: Embedded(g, h)
  }

  ghost predicate Embedded(g: Header, h: Header) {
    Accepted(h) && h.messageType == g.messageType && h.transferId == g.transferId && h.chunkSha256 == g.chunkSha256
    && IsStart(h.fileName + "\0" + Ended(Numbers(h)), g.fileName + "\0")
  }

  predicate IsStart(a: string, b: string) { a <= b }

  lemma {:induction false} AcceptedParts(h: Header)
    requires Accepted(h)
    ensures NulFree(h.messageType) && NulFree(h.transferId) && NulFree(h.chunkSha256)
  {
  }

  /** The payload, cut behind the file name. */
  lemma {:induction false} PayloadSplits(h: Header)
    ensures AuthPayload(h) == Ended(["v1", h.messageType, h.transferId])
                              + (h.fileName + "\0" + (Ended(Numbers(h)) + Joined(Tail(h))))
  {
    var front := ["v1", h.messageType, h.transferId];
    var rest := [h.fileName] + (Numbers(h) + Tail(h));
    assert ["v1"] + Fields(h) == front + rest;
    JoinedSplits(front, rest);
    assert rest[1..] == Numbers(h) + Tail(h);
    JoinedSplits(Numbers(h), Tail(h));
  }

  /** Equal payloads agree behind message type and id. */
  lemma {:induction false} SameBehindId(g: Header, h: Header)
    requires Accepted(g) && Accepted(h) && AuthPayload(g) == AuthPayload(h)
    ensures g.messageType == h.messageType && g.transferId == h.transferId
    ensures g.fileName + "\0" + (Ended(Numbers(g)) + Joined(Tail(g)))
         == h.fileName + "\0" + (Ended(Numbers(h)) + Joined(Tail(h)))
  {
    AcceptedParts(g);
    AcceptedParts(h);
    PayloadSplits(g);
    PayloadSplits(h);
    var a, b := ["v1", g.messageType, g.transferId], ["v1", h.messageType, h.transferId];
    EndedUnique(a, b, g.fileName + "\0" + (Ended(Numbers(g)) + Joined(Tail(g))),
                h.fileName + "\0" + (Ended(Numbers(h)) + Joined(Tail(h))));
    assert a[1] == b[1] && a[2] == b[2];
  }

  /** Separators of a payload: fifteen, and those inside the file name and the four unchecked fields. */
  lemma {:induction false} PayloadNuls(h: Header)
    requires Accepted(h)
    ensures Nuls(AuthPayload(h)) == 15 + Nuls(h.fileName) + NulsIn(Tail(h))
    ensures NulsIn(Tail(h)) == 0 <==> !TailNul(h)
  {
    AcceptedParts(h);
    var front := ["v1", h.messageType, h.transferId];
    NulsJoined(["v1"] + Fields(h));
    assert ["v1"] + Fields(h) == front + ([h.fileName] + (Numbers(h) + Tail(h)));
    NulsInAdd(front, [h.fileName] + (Numbers(h) + Tail(h)));
    NulsInAdd([h.fileName], Numbers(h) + Tail(h));
    NulsInAdd(Numbers(h), Tail(h));
    NumbersNulFree(h);
    NulsInZero(Numbers(h));
    assert AllNulFree(front);
    NulsInZero(front);
    NulsInZero(Tail(h));
    assert NulsIn([h.fileName]) == Nuls(h.fileName) + NulsIn([h.fileName][1..]);
    var tail := Tail(h);
    assert tail[0] == h.labPath && tail[1] == h.receiveRelPath && tail[2] == h.publishName && tail[3] == h.folderResult
      && tail[4] == h.chunkSha256;
  }

  /** With the same file name and no NUL in the unchecked fields, equal payloads mean equal headers. */
  lemma {:induction false} SameNameSameHeader(g: Header, h: Header)
    requires Accepted(g) && Accepted(h) && AuthPayload(g) == AuthPayload(h)
    requires g.fileName == h.fileName && !TailNul(g)
    ensures g == h
  {
    SameBehindId(g, h);
    PayloadNuls(g);
    PayloadNuls(h);
    NulsInZero(Tail(g));
    NulsInZero(Tail(h));
    var x, y := Ended(Numbers(g)) + Joined(Tail(g)), Ended(Numbers(h)) + Joined(Tail(h));
    assert (g.fileName + "\0" + x)[|g.fileName| + 1..] == x && (h.fileName + "\0" + y)[|h.fileName| + 1..] == y;
    NumbersNulFree(g);
    NumbersNulFree(h);
    EndedUnique(Numbers(g), Numbers(h), Joined(Tail(g)), Joined(Tail(h)));
    JoinedUnique(Tail(g), Tail(h));
    assert Fields(g) == Fields(h);
    FieldsUnique(g, h);
  }

  /** When one of two texts followed by NULs ends later, it goes on with a NUL where the other ends. */
  lemma {:induction false} LongerHasNul(a: string, b: string, x: string, y: string) returns (w: string)
    requires |a| < |b| && a + "\0" + x == b + "\0" + y
    ensures b == a + "\0" + w && x == w + "\0" + y
  {
    var s := a + "\0" + x;
    assert s == b + "\0" + y;
    assert s[..|b|] == b && s[..|a|] == a && s[|a|] == '\0';
    w := b[|a| + 1..];
    assert b == b[..|a|] + [b[|a|]] + w;
    assert b[..|a|] == s[..|a|];
    assert b[|a|] == s[|a|];
    assert x == s[|a| + 1..];
    assert s == a + "\0" + (w + "\0" + y);
    assert (a + "\0" + (w + "\0" + y))[|a| + 1..] == w + "\0" + y;
  }

  /** A number is never printed as a truth value. */
  lemma {:induction false} NumberIsNotBool(n: int, b: bool)
    ensures IntText(n) != BoolText(b)
  {
    NatTextValue(if n < 0 then -n else n);
  }

  lemma {:induction false} NumbersEndInBool(g: Header, h: Header, i: nat)
    requires i < 6
    ensures Numbers(g)[i] != Numbers(h)[6]
  {
    NumberIsNotBool(g.partIndex, h.lab);
    NumberIsNotBool(g.totalParts, h.lab);
    NumberIsNotBool(g.partSize, h.lab);
    NumberIsNotBool(g.chunkIndex, h.lab);
    NumberIsNotBool(g.offset, h.lab);
    NumberIsNotBool(g.totalBytes, h.lab);
  }

  /** Read from a file name's own text on, h's numbers end within it: they cannot run over into g's. */
  lemma {:induction false} NumbersEndWithin(g: Header, h: Header, j: nat, w: string, x: string, y: string)
    requires j < 7 && w + "\0" + (Ended(Numbers(g)) + x) == Ended(Numbers(h)[j..]) + y
    ensures Ended(Numbers(h)[j..]) <= w + "\0"
    decreases 7 - j
  {
    var a, b := Numbers(g), Numbers(h);
    NumbersNulFree(h);
    assert Ended(b[j..]) == b[j] + "\0" + Ended(b[j + 1..]) by { assert b[j..][1..] == b[j + 1..]; }
    assert Ended(b[j..]) + y == b[j] + "\0" + (Ended(b[j + 1..]) + y);
    if NulFree(w) {
      SplitUnique(w, b[j], Ended(a) + x, Ended(b[j + 1..]) + y);
      if j < 6 { NoRunOver(g, h, j, x, y); }
      assert b[7..] == [];
    } else {
      assert NulFree(b[j]);
      var w' := ShorterFirst(b[j], w, Ended(b[j + 1..]) + y, Ended(a) + x);
      if j == 6 {
        assert b[7..] == [];
        assert w + "\0" == b[j] + "\0" + (w' + "\0");
      } else {
        NumbersEndWithin(g, h, j + 1, w', x, y);
        assert w + "\0" == b[j] + "\0" + (w' + "\0");
      }
    }
  }

  /** A text without NUL that is followed by one ends before a text that has one. */
  lemma {:induction false} ShorterFirst(a: string, b: string, x: string, y: string) returns (w: string)
    requires NulFree(a) && !NulFree(b) && a + "\0" + x == b + "\0" + y
    ensures b == a + "\0" + w && x == w + "\0" + y
  {
    var s := a + "\0" + x;
    var i :| 0 <= i < |b| && b[i] == '\0';
    assert forall k :: 0 <= k < |a| ==> s[k] == a[k];
    assert (b + "\0" + y)[i] == b[i];
    w := LongerHasNul(a, b, x, y);
  }

  /** Running over would read one of g's numbers as h's flag. */
  lemma {:induction false} NoRunOver(g: Header, h: Header, j: nat, x: string, y: string)
    requires j < 6
    ensures Ended(Numbers(g)) + x != Ended(Numbers(h)[j + 1..]) + y
  {
    var a, b := Numbers(g), Numbers(h)[j + 1..];
    if Ended(a) + x == Ended(b) + y {
      NumbersNulFree(g);
      NumbersNulFree(h);
      EndedSplits(a, |b|);
      assert Ended(a) + x == Ended(a[..|b|]) + (Ended(a[|b|..]) + x);
      EndedUnique(a[..|b|], b, Ended(a[|b|..]) + x, y);
      assert a[..|b|][5 - j] == b[5 - j];
      NumbersEndInBool(g, h, 5 - j);
    }
  }

  lemma {:induction false} EndedSplits(a: seq<string>, n: nat)
    requires n <= |a|
    ensures Ended(a) == Ended(a[..n]) + Ended(a[n..])
  {
    if n == 0 {
      assert a[0..] == a;
    } else {
      EndedSplits(a[1..], n - 1);
      assert a[1..][..n - 1] == a[..n][1..] && a[1..][n - 1..] == a[n..];
    }
  }

  /** Two accepted headers with one payload: an unchecked field has a NUL, or the file name has the other's numbers. */
  lemma {:induction false} SharedPayloadHasReason(g: Header, h: Header)
    requires Accepted(g) && Accepted(h) && g != h && AuthPayload(g) == AuthPayload(h) && !TailNul(g)
    ensures Embedded(g, h)
  {
    SameBehindId(g, h);
    var x, y := Ended(Numbers(g)) + Joined(Tail(g)), Ended(Numbers(h)) + Joined(Tail(h));
    if |g.fileName| == |h.fileName| {
      assert (g.fileName + "\0" + x)[..|g.fileName|] == g.fileName;
      assert (h.fileName + "\0" + y)[..|h.fileName|] == h.fileName;
      SameNameSameHeader(g, h);
    } else if |g.fileName| < |h.fileName| {
      var w := LongerHasNul(g.fileName, h.fileName, x, y);
      MoreNuls(g, h, w);
    } else {
      var w := LongerHasNul(h.fileName, g.fileName, y, x);
      assert Numbers(h)[0..] == Numbers(h);
      NumbersEndWithin(g, h, 0, w, Joined(Tail(g)), Joined(Tail(h)));
      assert g.fileName + "\0" == h.fileName + "\0" + (w + "\0");
      SameDigest(g, h);
    }
  }

  /** A longer file name brings more separators than g's payload has. */
  lemma {:induction false} MoreNuls(g: Header, h: Header, w: string)
    requires Accepted(g) && Accepted(h) && !TailNul(g) && h.fileName == g.fileName + "\0" + w
    ensures AuthPayload(g) != AuthPayload(h)
  {
    PayloadNuls(g);
    PayloadNuls(h);
    NulsAdd(g.fileName + "\0", w);
    NulsAdd(g.fileName, "\0");
    assert Nuls("\0") == 1 by { assert "\0"[1..] == ""; }
  }

  /** The text ends in x, behind a NUL. */
  ghost predicate LastIs(s: string, x: string) {
    |s| > |x| && s[|s| - |x|..] == x && s[|s| - |x| - 1] == '\0'
  }

  lemma {:induction false} LastNotLonger(s: string, x: string, y: string)
    requires LastIs(s, x) && LastIs(s, y) && NulFree(x)
    ensures |x| <= |y|
  {
    assert forall k :: |s| - |x| <= k < |s| ==> s[k] == x[k - (|s| - |x|)];
  }

  /** The digest is the text behind the last NUL. */
  lemma {:induction false} SameDigest(g: Header, h: Header)
    requires Accepted(g) && Accepted(h) && AuthPayload(g) == AuthPayload(h)
    ensures g.chunkSha256 == h.chunkSha256
  {
    AcceptedParts(g);
    AcceptedParts(h);
    var a, b := ["v1"] + Fields(g), ["v1"] + Fields(h);
    assert a == a[..15] + [g.chunkSha256] && b == b[..15] + [h.chunkSha256];
    EndsInLast(a[..15], g.chunkSha256);
    EndsInLast(b[..15], h.chunkSha256);
    LastNotLonger(AuthPayload(g), g.chunkSha256, h.chunkSha256);
    LastNotLonger(AuthPayload(g), h.chunkSha256, g.chunkSha256);
  }

  lemma {:induction false} EndsInLast(front: seq<string>, last: string)
    requires front != []
    ensures LastIs(Joined(front + [last]), last)
  {
    JoinedSplits(front, [last]);
    EndedEnds(front);
    assert Joined([last]) == last;
  }

  lemma {:induction false} EndedEnds(fields: seq<string>)
    requires fields != []
    ensures Ended(fields) != "" && Ended(fields)[|Ended(fields)| - 1] == '\0'
  {
    if |fields| > 1 {
      EndedEnds(fields[1..]);
    } else {
      assert Ended(fields[1..]) == "";
    }
  }

  /** Regrouping the same text around a separator leaves the joined payload as it was. */
  lemma {:induction false} SharedTail(a: seq<string>, b: seq<string>, i: nat)
    requires |a| == |b| && i + 2 < |a| && a[..i] == b[..i] && a[i + 2..] == b[i + 2..]
    requires a[i] + "\0" + a[i + 1] == b[i] + "\0" + b[i + 1]
    ensures Joined(a) == Joined(b)
  {
    if i == 0 {
      var rest := Joined(a[2..]);
      assert a[1..][1..] == a[2..] && b[1..][1..] == b[2..];
      assert Joined(a) == a[0] + "\0" + a[1] + "\0" + rest;
      assert Joined(b) == b[0] + "\0" + b[1] + "\0" + rest;
    } else {
      assert a[0] == a[..i][0] && b[0] == b[..i][0];
      assert a[1..][..i - 1] == a[..i][1..] && b[1..][..i - 1] == b[..i][1..];
      assert a[1..][i + 1..] == a[i + 2..] && b[1..][i + 1..] == b[i + 2..];
      SharedTail(a[1..], b[1..], i - 1);
    }
  }

  lemma {:induction false} SameTailSamePayload(g: Header, h: Header, i: nat)
    requires i < 3
    requires h == g.(labPath := h.labPath, receiveRelPath := h.receiveRelPath, publishName := h.publishName,
                     folderResult := h.folderResult)
    requires Tail(g)[..i] == Tail(h)[..i] && Tail(g)[i + 2..] == Tail(h)[i + 2..]
    requires Tail(g)[i] + "\0" + Tail(g)[i + 1] == Tail(h)[i] + "\0" + Tail(h)[i + 1]
    ensures AuthPayload(g) == AuthPayload(h)
  {
    SharedTail(Tail(g), Tail(h), i);
    PayloadSplits(g);
    PayloadSplits(h);
  }

  lemma {:induction false} CutAtNul(s: string) returns (a: string, b: string)
    requires !NulFree(s)
    ensures s == a + "\0" + b
  {
    var i :| 0 <= i < |s| && s[i] == '\0';
    a, b := s[..i], s[i + 1..];
  }

  /** What follows a NUL in the first of two fields can be read as the start of the second. */
  lemma {:induction false} MoveRight(s: string, next: string) returns (s': string, next': string)
    requires !NulFree(s)
    ensures s' != s && s + "\0" + next == s' + "\0" + next'
  {
    var a, b := CutAtNul(s);
    s', next' := a, b + "\0" + next;
    assert s + "\0" + next == a + "\0" + (b + "\0" + next);
  }

  lemma {:induction false} MoveLeft(s: string, last: string) returns (s': string, last': string)
    requires !NulFree(last)
    ensures last' != last && s + "\0" + last == s' + "\0" + last'
  {
    var a, b := CutAtNul(last);
    s', last' := s + "\0" + a, b;
    assert s + "\0" + (a + "\0" + b) == s + "\0" + a + "\0" + b;
  }

  /** A NUL in an unchecked field can be moved over to its neighbour. */
  lemma {:induction false} TailNulIsAmbiguous(g: Header)
    requires Accepted(g) && TailNul(g)
    ensures Ambiguous(g)
  {
    var h := g;
    if !NulFree(g.labPath) {
      var a, b := MoveRight(g.labPath, g.receiveRelPath);
      h := g.(labPath := a, receiveRelPath := b);
      SameTailSamePayload(g, h, 0);
    } else if !NulFree(g.receiveRelPath) {
      var a, b := MoveRight(g.receiveRelPath, g.publishName);
      h := g.(receiveRelPath := a, publishName := b);
      SameTailSamePayload(g, h, 1);
    } else if !NulFree(g.publishName) {
      var a, b := MoveRight(g.publishName, g.folderResult);
      h := g.(publishName := a, folderResult := b);
      SameTailSamePayload(g, h, 2);
    } else {
      var a, b := MoveLeft(g.publishName, g.folderResult);
      h := g.(publishName := a, folderResult := b);
      SameTailSamePayload(g, h, 2);
    }
    assert h != g && Accepted(h);
  }

  lemma {:induction false} SameText(name: string, n: string, l: string, r: string, name': string, n': string, w: string)
    requires name + "\0" == name' + "\0" + n' + w
    ensures name + "\0" + (n + (l + "\0" + r)) == name' + "\0" + (n' + (w + n + l + "\0" + r))
  {
    assert name + "\0" + (n + (l + "\0" + r)) == (name + "\0") + n + l + "\0" + r;
    assert name' + "\0" + (n' + (w + n + l + "\0" + r)) == (name' + "\0" + n' + w) + n + l + "\0" + r;
  }

  lemma {:induction false} TailFromLab(h: Header)
    ensures Joined(Tail(h)) ==
      h.labPath + "\0" + Joined([h.receiveRelPath, h.publishName, h.folderResult, h.chunkSha256])
  {
    assert Tail(h)[1..] == [h.receiveRelPath, h.publishName, h.folderResult, h.chunkSha256];
  }

  /** A file name that holds another header's name and numbers: everything behind them can be read as its lab path. */
  lemma {:induction false} EmbeddedIsAmbiguous(g: Header, h: Header)
    requires Accepted(g) && Embedded(g, h)
    ensures Ambiguous(g)
  {
    var head := h.fileName + "\0" + Ended(Numbers(h));
    var w := (g.fileName + "\0")[|head|..];
    assert g.fileName + "\0" == head + w;
    var h' := h.(labPath := w + Ended(Numbers(g)) + g.labPath, receiveRelPath := g.receiveRelPath,
                 publishName := g.publishName, folderResult := g.folderResult);
    assert |head| > |h.fileName| + 1 by { assert Ended(Numbers(h)) != ""; }
    assert h'.fileName != g.fileName && Accepted(h') && Numbers(h') == Numbers(h);
    hide Accepted, Numbers, Ended, Joined, Tail;
    TailFromLab(g);
    TailFromLab(h');
    PayloadSplits(g);
    PayloadSplits(h');
    hide AuthPayload;
    SameText(g.fileName, Ended(Numbers(g)), g.labPath,
             Joined([g.receiveRelPath, g.publishName, g.folderResult, g.chunkSha256]),
             h.fileName, Ended(Numbers(h)), w);
  }

  /**
   * An accepted header shares its payload with another accepted header exactly when one of
   * the four unchecked fields carries a NUL, or its file name embeds the file name and the
   * numbers of an acceptable header.
   */
  lemma {:induction false} PayloadAmbiguousExactly(g: Header)
    requires Accepted(g)
    ensures Ambiguous(g) <==> TailNul(g) || EmbedsNumbers(g)
  {
    if TailNul(g) {
      TailNulIsAmbiguous(g);
    } else if EmbedsNumbers(g) {
      var h :| Embedded(g, h);
      EmbeddedIsAmbiguous(g, h);
    } else if Ambiguous(g) {
      var h :| Accepted(h) && h != g && AuthPayload(h) == AuthPayload(g);
      SharedPayloadHasReason(g, h);
    }
  }

  /** From any accepted header: one that carries a NUL in the publish name, and is ambiguous. */
  lemma {:induction false} NulMakesPayloadAmbiguous(h: Header) returns (g: Header)
    requires Accepted(h)
    ensures g == h.(publishName := "a\0b") && Accepted(g) && Ambiguous(g)
  {
    g := h.(publishName := "a\0b");
    assert g.publishName[1] == '\0';
    TailNulIsAmbiguous(g);
  }

  /** And one whose four unchecked fields are as they were: a NUL in the file name alone is enough. */
  lemma {:induction false} FileNameAloneIsAmbiguous(h: Header) returns (g: Header)
    requires Accepted(h) && !TailNul(h)
    ensures g == h.(fileName := h.fileName + "\0" + Joined(Numbers(h)))
    ensures Accepted(g) && !TailNul(g) && Ambiguous(g)
  {
    g := h.(fileName := h.fileName + "\0" + Joined(Numbers(h)));
    var i :| 0 <= i < |h.fileName| && !IsSpace(h.fileName[i]);
    assert g.fileName[i] == h.fileName[i];
    JoinedThenNul(Numbers(h));
    assert g.fileName + "\0" == h.fileName + "\0" + Ended(Numbers(h));
    EmbeddedIsAmbiguous(g, h);
  }

  lemma {:induction false} JoinedThenNul(fields: seq<string>)
    requires fields != []
    ensures Joined(fields) + "\0" == Ended(fields)
  {
    if |fields| == 1 {
      assert Ended(fields[1..]) == "";
    } else {
      JoinedThenNul(fields[1..]);
    }
  }
}
