/** The string operations the tree printer relies on: substring search, splitting and joining. */
module Text {
  import opened Collections

  predicate Contains(s: string, t: string) {
    exists i | 0 <= i <= |s| :: t <= s[i..]
  }

  function SplitOn(s: string, c: char): (r: seq<string>)
    ensures |r| >= 1
  {
    if s == "" then [""]
    else if s[0] == c then [""] + SplitOn(s[1..], c)
    else
      var r := SplitOn(s[1..], c);
      [[s[0]] + r[0]] + r[1..]
  }

  function Join(parts: seq<string>, c: char): string {
    if parts == [] then ""
    else if |parts| == 1 then parts[0]
    else parts[0] + [c] + Join(parts[1..], c)
  }

  lemma JoinFive(c0: string, c1: string, c2: string, c3: string, c4: string, c: char)
    ensures Join([c0, c1, c2, c3, c4], c) == c0 + [c] + (c1 + [c] + (c2 + [c] + (c3 + [c] + c4)))
  {
    assert [c0, c1, c2, c3, c4][1..] == [c1, c2, c3, c4];
    assert [c1, c2, c3, c4][1..] == [c2, c3, c4];
    assert [c2, c3, c4][1..] == [c3, c4];
    assert [c3, c4][1..] == [c4];
    assert Join([c3, c4], c) == c3 + [c] + c4;
    assert Join([c2, c3, c4], c) == c2 + [c] + (c3 + [c] + c4);
    assert Join([c1, c2, c3, c4], c) == c1 + [c] + (c2 + [c] + (c3 + [c] + c4));
  }

  ghost function SplitAll(parts: seq<string>, c: char): seq<string> {
    if parts == [] then [] else SplitOn(parts[0], c) + SplitAll(parts[1..], c)
  }

  lemma {:induction false} SplitConcat(a: string, b: string, c: char)
    ensures SplitOn(a + [c] + b, c) == SplitOn(a, c) + SplitOn(b, c)
  {
    if a == "" {
      assert a + [c] + b == [c] + b && ([c] + b)[1..] == b;
    } else {
      assert (a + [c] + b)[1..] == a[1..] + [c] + b;
      SplitConcat(a[1..], b, c);
    }
  }

  lemma {:induction false} SplitPlain(s: string, c: char)
    requires c !in s
    ensures SplitOn(s, c) == [s]
  {
    if s != "" {
      SplitPlain(s[1..], c);
      assert [s[0]] + s[1..] == s;
    }
  }

  /** Splitting what was joined splits every part on its own. */
  lemma {:induction false} SplitJoin(parts: seq<string>, c: char)
    requires parts != []
    ensures SplitOn(Join(parts, c), c) == SplitAll(parts, c)
  {
    if |parts| == 1 {
      assert SplitAll(parts[1..], c) == [];
    } else {
      SplitJoin(parts[1..], c);
      SplitConcat(parts[0], Join(parts[1..], c), c);
    }
  }

  /** Parts without the separator come back as they were. */
  lemma {:induction false} SplitAllPlain(parts: seq<string>, c: char)
    requires forall p :: p in parts ==> c !in p
    ensures SplitAll(parts, c) == parts
  {
    if parts != [] {
      SplitPlain(parts[0], c);
      SplitAllPlain(parts[1..], c);
    }
  }

  lemma {:induction false} SplitAllHas(parts: seq<string>, c: char, l: string)
    ensures l in SplitAll(parts, c) <==> exists p :: p in parts && l in SplitOn(p, c)
  {
    if parts != [] {
      SplitAllHas(parts[1..], c, l);
      if l in SplitAll(parts[1..], c) {
        var p :| p in parts[1..] && l in SplitOn(p, c);
        assert p in parts;
      }
      if l in SplitOn(parts[0], c) {
        assert parts[0] in parts;
      }
    }
  }

  lemma {:induction false} SplitHasNoSeparator(s: string, c: char)
    ensures forall l :: l in SplitOn(s, c) ==> c !in l
  {
    if s != "" {
      SplitHasNoSeparator(s[1..], c);
      var r := SplitOn(s[1..], c);
      assert r[0] in r;
      assert forall l :: l in r[1..] ==> l in r;
    }
  }

  /** A substring with a character the text does not have is not in it. */
  lemma LacksSubstring(s: string, t: string, k: nat)
    requires k < |t| && t[k] !in s
    ensures !Contains(s, t)
  {
    forall i | 0 <= i <= |s|
      ensures !(t <= s[i..])
    {
      assert i + k < |s| ==> s[i..][k] == s[i + k];
    }
  }

  lemma ContainsMiddle(a: string, t: string, b: string)
    ensures Contains(a + t + b, t)
  {
    var s := a + t + b;
    assert s[|a|..] == t + b;
  }

  /** A set of strings has no order of its own; any may come out. */
  method AnyOrder(s: set<string>) returns (l: seq<string>)
    ensures Distinct(l) && forall x :: x in l <==> x in s
  {
    l := [];
    var rest := s;
    while rest != {}
      invariant rest <= s && Distinct(l)
      invariant forall x :: x in l <==> x in s - rest
    {
      var x :| x in rest;
      assert x !in l;
      rest := rest - {x};
      l := l + [x];
    }
  }
}
