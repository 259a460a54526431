/** Which directory a header's chunks go to: one per transfer, as far as ids are the sender's own. */
module SessionNames {
  import opened Plan
  import opened Decimal
  import opened Wire

  /** The id with every other character dropped. */
  function Filtered(id: string): string {
    if id == [] then []
    else if IsIdChar(id[0]) then [id[0]] + Filtered(id[1..])
    else Filtered(id[1..])
  }

  /** The filter looks at one character at a time and keeps the order. */
  lemma {:induction false} FilterDistributes(a: string, b: string)
    ensures Filtered(a + b) == Filtered(a) + Filtered(b)
  {
    if a == "" {
      assert a + b == b;
    } else {
      assert (a + b)[1..] == a[1..] + b;
      FilterDistributes(a[1..], b);
    }
  }

  /** Whatever the id, its directory name is one: never empty, and only letters, digits, hyphens and underscores. */
  lemma {:induction false} SafeIdIsPlain(id: string)
    ensures SafeId(id) != "" && forall c :: c in SafeId(id) ==> IsIdChar(c)
    ensures (forall c :: c in id ==> !IsIdChar(c)) <==> Filtered(id) == ""
  {
    FilteredIsPlain(id);
    if Filtered(id) != "" {
      assert Filtered(id)[0] in Filtered(id);
    }
  }

  lemma {:induction false} FilteredIsPlain(id: string)
    ensures forall c :: c in Filtered(id) ==> IsIdChar(c)
    ensures forall c :: c in id && IsIdChar(c) ==> c in Filtered(id)
    ensures forall c :: c in Filtered(id) ==> c in id
  {
    if id != [] {
      FilteredIsPlain(id[1..]);
      assert id == [id[0]] + id[1..];
    }
  }

  function SafeId(id: string): string {
    var safe := Filtered(id);
    if safe == "" then "unknown" else safe
  }

  function SessionName(name: string, id: string): string { name + "_" + SafeId(id) }

  lemma {:induction false} FilterKeeps(id: string)
    requires forall i :: 0 <= i < |id| ==> IsIdChar(id[i])
    ensures Filtered(id) == id
  {
    if id != [] {
      FilterKeeps(id[1..]);
      assert id == [id[0]] + id[1..];
    }
  }

  /** The filter of the receiver never changes an id that the header checks accept. */
  lemma {:induction false} AcceptedIdUnchanged(h: Header)
    requires Validate(h).ValidHeader?
    ensures SafeId(h.transferId) == h.transferId
  {
    FilterKeeps(h.transferId);
  }

  ghost predicate Without(s: string, c: char) { forall i :: 0 <= i < |s| ==> s[i] != c }

  /** Texts that agree from the last separator on agree before and after it. */
  lemma {:induction false} LastSeparatorUnique(a: string, x: string, b: string, y: string)
    requires Without(x, '_') && Without(y, '_') && a + "_" + x == b + "_" + y
    ensures a == b && x == y
  {
    var s, t := a + "_" + x, b + "_" + y;
    assert s[|a|] == '_' && t[|b|] == '_';
    assert forall i :: |a| < i < |s| ==> s[i] == x[i - |a| - 1];
    assert forall i :: |b| < i < |t| ==> t[i] == y[i - |b| - 1];
    assert |a| == |b|;
    assert s[..|a|] == a && t[..|b|] == b;
    assert s[|a| + 1..] == x && t[|b| + 1..] == y;
  }

  lemma {:induction false} NewIdWithout(nanos: int)
    ensures Without(NewTransferId(nanos), '_')
  {
    NatTextValue(if nanos < 0 then -nanos else nanos);
  }

  /** Accepted ids without an underscore keep transfers apart: one directory, one file name and one id. */
  lemma {:induction false} PlainIdsApart(name: string, a: string, name': string, b: string)
    requires ValidId(a) && ValidId(b) && Without(a, '_') && Without(b, '_')
    requires SessionName(name, a) == SessionName(name', b)
    ensures name == name' && a == b
  {
    FilterKeeps(a);
    FilterKeeps(b);
    LastSeparatorUnique(name, a, name', b);
  }

  /** So ids made by the sender do: different files or different transfers, different directories. */
  lemma {:induction false} SenderSessionsApart(name: string, nanos: int, name': string, nanos': int)
    requires -MAX_INT64 - 1 <= nanos <= MAX_INT64 && -MAX_INT64 - 1 <= nanos' <= MAX_INT64
    requires SessionName(name, NewTransferId(nanos)) == SessionName(name', NewTransferId(nanos'))
    ensures name == name' && nanos == nanos'
  {
    var id, id' := NewTransferId(nanos), NewTransferId(nanos');
    NewTransferIdValid(nanos);
    NewTransferIdValid(nanos');
    NewIdWithout(nanos);
    NewIdWithout(nanos');
    PlainIdsApart(name, id, name', id');
    assert id[|"tx-"|..] == IntText(nanos) && id'[|"tx-"|..] == IntText(nanos');
    IntTextInjective(nanos, nanos');
  }

  /** b is a's id with more in front of an underscore, and what is in front ends the other file's name. */
  ghost predicate Absorbs(name: string, a: string, name': string, b: string) {
    exists x: string :: b == x + "_" + a && name == name' + "_" + x
  }

  /** Two accepted ids collide in exactly one way: an underscore in the one hides a piece of the other's file name. */
  lemma {:induction false} SessionsCollideExactly(name: string, a: string, name': string, b: string)
    requires ValidId(a) && ValidId(b)
    ensures SessionName(name, a) == SessionName(name', b) <==>
      (name == name' && a == b) || Absorbs(name, a, name', b) || Absorbs(name', b, name, a)
  {
    FilterKeeps(a);
    FilterKeeps(b);
    if name + "_" + a == name' + "_" + b {
      if |a| == |b| {
        SameLength(name, a, name', b);
      } else if |a| < |b| {
        LongerAbsorbs(name, a, name', b);
      } else {
        LongerAbsorbs(name', b, name, a);
      }
    }
    if x :| b == x + "_" + a && name == name' + "_" + x {
      assert name' + "_" + (x + "_" + a) == name' + "_" + x + "_" + a;
    }
    if x :| a == x + "_" + b && name' == name + "_" + x {
      assert name + "_" + (x + "_" + b) == name + "_" + x + "_" + b;
    }
  }

  lemma {:induction false} SameLength(name: string, a: string, name': string, b: string)
    requires |a| == |b| && name + "_" + a == name' + "_" + b
    ensures name == name' && a == b
  {
    var s, t := name + "_" + a, name' + "_" + b;
    assert s[..|name|] == name && t[..|name|] == name';
    assert s[|name| + 1..] == a && t[|name| + 1..] == b;
  }

  lemma {:induction false} LongerAbsorbs(name: string, a: string, name': string, b: string)
    requires |a| < |b| && name + "_" + a == name' + "_" + b
    ensures Absorbs(name, a, name', b)
  {
    var s, t := name + "_" + a, name' + "_" + b;
    var d := |b| - |a| - 1;
    assert |name| == |name'| + 1 + d;
    var x := b[..d];
    assert forall i :: 0 <= i < |b| ==> b[i] == t[|name'| + 1 + i];
    assert s[|name|] == '_' && b[d] == '_';
    assert s[|name| + 1..] == a && t[|name'| + 1 + d + 1..] == b[d + 1..];
    assert b == b[..d] + [b[d]] + b[d + 1..];
    assert s[..|name|] == name && t[..|name|] == name' + "_" + b[..d];
  }

  /** So an accepted id collides with another transfer's whenever it has an underscore with an id behind it. */
  lemma {:induction false} UnderscoreCollides(name: string, a: string, b: string)
    requires ValidId(b) && ValidId(a + "_" + b)
    ensures SessionName(name, a + "_" + b) == SessionName(name + "_" + a, b)
    ensures name != name + "_" + a
  {
    FilterKeeps(a + "_" + b);
    FilterKeeps(b);
    assert name + "_" + (a + "_" + b) == name + "_" + a + "_" + b;
  }
}
