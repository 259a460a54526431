/**
 * What filepath.Glob makes of a session directory's own path. The cleanup builds its pattern
 * by joining that path with "*.chunk*", so a bracket in the path is read as a character
 * class. Patterns are Windows ones: a backslash separates components and escapes nothing.
 */
module GlobPattern {
  import opened SessionFiles

  datatype Term = Star | AnyOne | Class(negated: bool, ranges: seq<(char, char)>) | Exactly(c: char)

  datatype Cut = Cut(term: Term, rest: string)

  /** The ranges of a class up to its closing bracket, at least one; None when the pattern is malformed. */
  function ClassFrom(p: string, negated: bool, ranges: seq<(char, char)>): (r: Option<Cut>)
    ensures r.Some? ==> |r.value.rest| + (if ranges == [] then 2 else 1) <= |p|
    decreases |p|
  {
    if p == "" then None
    else if p[0] == ']' && ranges != [] then Some(Cut(Class(negated, ranges), p[1..]))
    else if p[0] in {'-', ']'} || |p| == 1 then None
    else if p[1] != '-' then ClassFrom(p[1..], negated, ranges + [(p[0], p[0])])
    else if |p| < 4 || p[2] in {'-', ']'} then None
    else ClassFrom(p[3..], negated, ranges + [(p[0], p[2])])
  }

  /** The terms of one component of a pattern, or None when it is malformed. */
  function Terms(p: string): Option<seq<Term>>
    decreases |p|
  {
    if p == "" then Some([])
    else if p[0] == '[' then
      var negated := |p| > 1 && p[1] == '^';
      var cut := ClassFrom(if negated then p[2..] else p[1..], negated, []);
      if cut.None? then None else Before(cut.value.term, Terms(cut.value.rest))
    else Before(if p[0] == '*' then Star else if p[0] == '?' then AnyOne else Exactly(p[0]), Terms(p[1..]))
  }

  function Before(term: Term, terms: Option<seq<Term>>): Option<seq<Term>> {
    if terms.None? then None else Some([term] + terms.value)
  }

  predicate Accepts(term: Term, c: char) {
    match term
    case Star => true
    case AnyOne => true
    case Class(negated, ranges) =>
      negated != exists i :: 0 <= i < |ranges| && ranges[i].0 <= c <= ranges[i].1
    case Exactly(d) => c == d
  }

  predicate Matches(terms: seq<Term>, name: string)
    decreases |terms| + |name|
  {
    if terms == [] then name == ""
    else if terms[0].Star? then Matches(terms[1..], name) || (name != "" && Matches(terms, name[1..]))
    else name != "" && Accepts(terms[0], name[0]) && Matches(terms[1..], name[1..])
  }

  /** A path cut at its separators. */
  function Components(path: string): (parts: seq<string>)
    ensures parts != []
  {
    if path == "" then [""]
    else
      var parts := Components(path[1..]);
      if path[0] == '\\' then [""] + parts else [[path[0]] + parts[0]] + parts[1..]
  }

  predicate FindsItself(part: string) {
    var terms := Terms(part);
    terms.Some? && Matches(terms.value, part)
  }

  /** What the cleanup's glob does in the session directory with this path. */
  function ReachOf(path: string): Reach {
    var parts := Components(path);
    if exists k :: 0 <= k < |parts| && Terms(parts[k]).None? then BadPattern
    else if forall k :: 0 <= k < |parts| ==> FindsItself(parts[k]) then Finds
    else FindsNothing
  }

  // ---- a path finds itself exactly when it has no bracket ----

  /** A class takes at least three characters of the pattern, every other term one. */
  lemma {:induction false} ClassesShorten(p: string)
    requires Terms(p).Some?
    ensures |Terms(p).value| <= |p|
    ensures '[' in p ==> |Terms(p).value| < |p|
    decreases |p|
  {
    if p != "" {
      if p[0] == '[' {
        var negated := |p| > 1 && p[1] == '^';
        ClassesShorten(ClassFrom(if negated then p[2..] else p[1..], negated, []).value.rest);
      } else {
        ClassesShorten(p[1..]);
        assert p == [p[0]] + p[1..];
      }
    }
  }

  ghost predicate IsTail(p: string, q: string) { |q| <= |p| && q == p[|p| - |q|..] }

  lemma {:induction false} ClassLeavesTail(p: string, negated: bool, ranges: seq<(char, char)>)
    requires ClassFrom(p, negated, ranges).Some?
    ensures IsTail(p, ClassFrom(p, negated, ranges).value.rest)
    ensures ClassFrom(p, negated, ranges).value.term.Class?
    decreases |p|
  {
    if p[0] == ']' && ranges != [] {
    } else if p[1] != '-' {
      ClassLeavesTail(p[1..], negated, ranges + [(p[0], p[0])]);
    } else {
      ClassLeavesTail(p[3..], negated, ranges + [(p[0], p[2])]);
    }
  }

  lemma {:induction false} NoStar(p: string)
    requires Terms(p).Some? && '*' !in p
    ensures Star !in Terms(p).value
    decreases |p|
  {
    if p != "" {
      if p[0] == '[' {
        var negated := |p| > 1 && p[1] == '^';
        var q := if negated then p[2..] else p[1..];
        ClassLeavesTail(q, negated, []);
        NoStar(ClassFrom(q, negated, []).value.rest);
      } else {
        NoStar(p[1..]);
      }
    }
  }

  /** Without a star, a pattern matches only names of as many characters as it has terms. */
  lemma {:induction false} MatchLength(terms: seq<Term>, name: string)
    requires Star !in terms && Matches(terms, name)
    ensures |name| == |terms|
  {
    if terms != [] {
      assert terms[0] in terms;
      MatchLength(terms[1..], name[1..]);
    }
  }

  lemma {:induction false} PlainFindsItself(p: string)
    requires '[' !in p && '*' !in p
    ensures FindsItself(p)
  {
    if p != "" {
      assert p == [p[0]] + p[1..];
      PlainFindsItself(p[1..]);
      assert p[0] in p;
      assert Terms(p).value[1..] == Terms(p[1..]).value;
    }
  }

  lemma {:induction false} BracketMissesItself(p: string)
    requires '[' in p && '*' !in p
    ensures !FindsItself(p)
  {
    if FindsItself(p) {
      NoStar(p);
      MatchLength(Terms(p).value, p);
      ClassesShorten(p);
    }
  }

  ghost predicate HasChar(parts: seq<string>, k: nat, c: char) { k < |parts| && c in parts[k] }

  lemma {:induction false} FromComponent(path: string, k: nat, c: char)
    requires HasChar(Components(path), k, c)
    ensures c in path
  {
    var parts := Components(path);
    if path != "" {
      var rest := Components(path[1..]);
      assert path == [path[0]] + path[1..];
      if path[0] == '\\' {
        if k > 0 { FromComponent(path[1..], k - 1, c); }
      } else if path[0] != c {
        FromComponent(path[1..], k, c);
      }
    }
  }

  lemma {:induction false} IntoComponent(path: string, c: char) returns (k: nat)
    requires c in path && c != '\\'
    ensures HasChar(Components(path), k, c)
  {
    assert path == [path[0]] + path[1..];
    if path[0] == c {
      k := 0;
    } else {
      k := IntoComponent(path[1..], c);
      k := if path[0] == '\\' then k + 1 else k;
    }
  }

  /** The glob reaches the session directory exactly when its path has no opening bracket. */
  lemma {:induction false} FindsExactlyWithoutBracket(path: string)
    requires '*' !in path
    ensures ReachOf(path).Finds? <==> '[' !in path
  {
    hide Components, FindsItself, Terms;
    var parts := Components(path);
    forall k: nat | k < |parts|
      ensures FindsItself(parts[k]) <==> !HasChar(parts, k, '[')
      ensures FindsItself(parts[k]) ==> Terms(parts[k]).Some?
      ensures HasChar(parts, k, '[') ==> '[' in path
    {
      if HasChar(parts, k, '*') { FromComponent(path, k, '*'); }
      if HasChar(parts, k, '[') { FromComponent(path, k, '['); }
      ItselfExactly(parts[k]);
    }
    if '[' in path {
      var k := IntoComponent(path, '[');
      assert !FindsItself(parts[k]);
    }
  }

  lemma {:induction false} ClassCloses(p: string, negated: bool, ranges: seq<(char, char)>)
    requires ClassFrom(p, negated, ranges).Some?
    ensures ']' in p
    decreases |p|
  {
    if p[0] == ']' && ranges != [] {
    } else if p[1] != '-' {
      ClassCloses(p[1..], negated, ranges + [(p[0], p[0])]);
      assert forall c :: c in p[1..] ==> c in p;
    } else {
      ClassCloses(p[3..], negated, ranges + [(p[0], p[2])]);
      assert forall c :: c in p[3..] ==> c in p;
    }
  }

  lemma {:induction false} UnclosedIsMalformed(p: string)
    requires '[' in p && ']' !in p
    ensures Terms(p).None?
    decreases |p|
  {
    assert p == [p[0]] + p[1..];
    if p[0] == '[' {
      var negated := |p| > 1 && p[1] == '^';
      var q := if negated then p[2..] else p[1..];
      assert forall c :: c in q ==> c in p;
      if ClassFrom(q, negated, []).Some? {
        ClassCloses(q, negated, []);
      }
    } else {
      UnclosedIsMalformed(p[1..]);
    }
  }

  /** A bracket that is never closed makes the whole path a malformed pattern, and every cleanup fail. */
  lemma {:induction false} UnclosedBracketIsBad(path: string)
    requires '[' in path && ']' !in path
    ensures ReachOf(path).BadPattern?
  {
    hide Components, Terms;
    var k := IntoComponent(path, '[');
    var parts := Components(path);
    if HasChar(parts, k, ']') { FromComponent(path, k, ']'); }
    UnclosedIsMalformed(parts[k]);
  }

  /** A closed one is a class, as in "a[1]": the pattern is sound and the cleanup looks elsewhere. */
  lemma {:induction false} ClosedBracketMisses(a: char, c: char, b: string)
    requires a !in "[*\\" && c !in "-]^\\*" && '[' !in b && '*' !in b && '\\' !in b
    ensures ReachOf([a, '[', c, ']'] + b).FindsNothing?
  {
    var path := [a, '[', c, ']'] + b;
    assert path[1..] == ['[', c, ']'] + b && path[2..] == [c, ']'] + b && path[3..] == [']'] + b && path[4..] == b;
    assert path[2..][1..] == [']'] + b && ([']'] + b)[1..] == b;
    PlainFindsItself(b);
    assert path[1] == '[';
    FindsExactlyWithoutBracket(path);
    OneComponent(path);
    ClassOf(c, b);
    assert Terms(path[1..]).Some?;
  }

  lemma {:induction false} ClassOf(c: char, b: string)
    requires c !in "-]^" && '[' !in b && '*' !in b
    ensures Terms(['[', c, ']'] + b).Some?
  {
    var p := ['[', c, ']'] + b;
    assert p[1..] == [c, ']'] + b && p[1..][1..] == [']'] + b && ([']'] + b)[1..] == b;
    assert p[1] == c;
    assert ClassFrom([']'] + b, false, [(c, c)]) == Some(Cut(Class(false, [(c, c)]), b));
    assert ClassFrom(p[1..], false, []) == ClassFrom([']'] + b, false, [] + [(c, c)]);
    assert [] + [(c, c)] == [(c, c)];
    PlainFindsItself(b);
  }

  lemma {:induction false} OneComponent(path: string)
    requires '\\' !in path
    ensures Components(path) == [path]
  {
    if path != "" {
      assert path == [path[0]] + path[1..];
      OneComponent(path[1..]);
    }
  }

  lemma {:induction false} ItselfExactly(p: string)
    requires '*' !in p
    ensures FindsItself(p) <==> '[' !in p
    ensures FindsItself(p) ==> Terms(p).Some?
  {
    if '[' in p {
      BracketMissesItself(p);
    } else {
      PlainFindsItself(p);
    }
  }
}
