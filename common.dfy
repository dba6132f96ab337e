/** Small shared vocabulary: an Option type, the string tests the JavaScript
    source performs (`startsWith`, `includes`, `endsWith`, `replace` of a single
    character), and `Math.round` on real numbers. */
module Common {

  datatype Option<+T> = None | Some(value: T)

  /** How an awaited call ends: with a value, or by throwing an Error whose
      `message` is given. */
  datatype Outcome<+T> = Returned(value: T) | Threw(message: string)

  /** `s.startsWith(p)` */
  predicate StartsWith(s: string, p: string) {
    |p| <= |s| && s[..|p|] == p
  }

  /** `s.endsWith(p)` */
  predicate EndsWith(s: string, p: string) {
    |p| <= |s| && s[|s| - |p|..] == p
  }

  /** `p` occurs in `s` at position `i`. */
  predicate OccursAt(s: string, p: string, i: int) {
    0 <= i <= |s| - |p| && s[i..i + |p|] == p
  }

  /** `s.includes(p)`: `p` occurs at some position of `s`. */
  ghost predicate Contains(s: string, p: string) {
    exists i :: OccursAt(s, p, i)
  }

  /** Search for `p` starting at index `from`; returns the first position. */
  function IndexOfFrom(s: string, p: string, from: nat): (r: Option<nat>)
    requires from <= |s|
    decreases |s| - from
    ensures r.Some? ==> from <= r.value && OccursAt(s, p, r.value)
    ensures r.Some? ==> forall i :: from <= i < r.value ==> !OccursAt(s, p, i)
    ensures r.None? ==> forall i :: from <= i ==> !OccursAt(s, p, i)
  {
    if |s| - from < |p| then None
    else if s[from..from + |p|] == p then Some(from)
    else IndexOfFrom(s, p, from + 1)
  }

  /** `s.includes(p)`, computed: agrees with Contains. */
  function Includes(s: string, p: string): (b: bool)
    ensures b <==> Contains(s, p)
  {
    IndexOfFrom(s, p, 0).Some?
  }

  /** `s.replace(/x/g, y)` for a single character `x`. */
  function ReplaceChar(s: string, x: char, y: char): (r: string)
    ensures |r| == |s|
    ensures forall i :: 0 <= i < |s| ==> r[i] == if s[i] == x then y else s[i]
  {
    if s == [] then [] else [if s[0] == x then y else s[0]] + ReplaceChar(s[1..], x, y)
  }

  /** ASCII lower-casing, the only case folding a non-unicode `/i` regular
      expression applies to the ASCII letters the source matches. */
  function LowerChar(c: char): char {
    if 'A' <= c <= 'Z' then (c as int + 32) as char else c
  }

  function Lower(s: string): (r: string)
    ensures |r| == |s|
    ensures forall i :: 0 <= i < |s| ==> r[i] == LowerChar(s[i])
  {
    if s == [] then [] else [LowerChar(s[0])] + Lower(s[1..])
  }

  /** Decimal digits of a natural number, as JavaScript prints an integer. */
  function NatToString(n: nat): (r: string)
    ensures |r| >= 1
    ensures forall i :: 0 <= i < |r| ==> '0' <= r[i] <= '9'
  {
    if n < 10 then [('0' as int + n) as char]
    else NatToString(n / 10) + [('0' as int + n % 10) as char]
  }

  /** `Math.round(x)`: the nearest integer, halves rounded up. */
  function Round(x: real): (r: int)
    ensures x - 1.0 / 2.0 < r as real <= x + 1.0 / 2.0
  {
    (x + 1.0 / 2.0).Floor
  }

  lemma RoundMonotone(x: real, y: real)
    requires x <= y
    ensures Round(x) <= Round(y)
  {
  }

  function MaxR(a: real, b: real): real { if a >= b then a else b }
  function MinR(a: real, b: real): real { if a <= b then a else b }

  /** Elements of `s` that satisfy `p`, in order. */
  function Filter<T(!new)>(s: seq<T>, p: T -> bool): (r: seq<T>)
    ensures |r| <= |s|
    ensures forall x :: x in r <==> x in s && p(x)
  {
    if s == [] then [] else (if p(s[0]) then [s[0]] else []) + Filter(s[1..], p)
  }

  lemma FilterAppend<T(!new)>(s: seq<T>, x: T, p: T -> bool)
    ensures Filter(s + [x], p) == Filter(s, p) + (if p(x) then [x] else [])
  {
    var tail := if p(x) then [x] else [];
    if s == [] {
      assert s + [x] == [x];
      assert Filter([x], p) == tail + Filter([], p);
    } else {
      var head, rest := if p(s[0]) then [s[0]] else [], s[1..];
      assert (s + [x])[0] == s[0] && (s + [x])[1..] == rest + [x];
      FilterAppend(rest, x, p);
      calc {
        Filter(s + [x], p);
        head + Filter(rest + [x], p);
        head + (Filter(rest, p) + tail);
        (head + Filter(rest, p)) + tail;
        Filter(s, p) + tail;
      }
    }
  }

  lemma FilterAll<T(!new)>(s: seq<T>, p: T -> bool)
    requires forall x :: x in s ==> p(x)
    ensures Filter(s, p) == s
  {
    if s != [] {
      FilterAll(s[1..], p);
    }
  }

  lemma FilterNone<T(!new)>(s: seq<T>, p: T -> bool)
    requires forall x :: x in s ==> !p(x)
    ensures Filter(s, p) == []
  {
    if s != [] {
      FilterNone(s[1..], p);
    }
  }

  /** Filtering by a predicate and by its negation splits the list: every
      element lands in exactly one of the two results. */
  lemma {:induction false} FilterSplit<T(!new)>(s: seq<T>, p: T -> bool, q: T -> bool)
    requires forall x :: q(x) <==> !p(x)
    ensures multiset(Filter(s, p)) + multiset(Filter(s, q)) == multiset(s)
  {
    if s != [] {
      FilterSplit(s[1..], p, q);
      FilterSplitCons(s, p, q);
    }
  }

  /** The inductive step of `FilterSplit`: the head goes to exactly one side. */
  lemma FilterSplitCons<T(!new)>(s: seq<T>, p: T -> bool, q: T -> bool)
    requires s != [] && (q(s[0]) <==> !p(s[0]))
    requires multiset(Filter(s[1..], p)) + multiset(Filter(s[1..], q)) == multiset(s[1..])
    ensures multiset(Filter(s, p)) + multiset(Filter(s, q)) == multiset(s)
  {
    var x, rest := s[0], s[1..];
    assert s == [x] + rest;
    var fp, fq := Filter(s, p), Filter(s, q);
    if p(x) {
      assert fp == [x] + Filter(rest, p) && fq == Filter(rest, q);
      MultisetCons(x, Filter(rest, p), Filter(rest, q), rest);
    } else {
      assert fq == [x] + Filter(rest, q) && fp == Filter(rest, p);
      MultisetCons(x, Filter(rest, q), Filter(rest, p), rest);
    }
    assert multiset(fp) + multiset(fq) == multiset([x] + rest);
  }

  lemma MultisetCons<T>(x: T, a: seq<T>, b: seq<T>, r: seq<T>)
    requires multiset(a) + multiset(b) == multiset(r)
    ensures multiset([x] + a) + multiset(b) == multiset([x] + r)
    ensures multiset(b) + multiset([x] + a) == multiset([x] + r)
  {
    assert multiset([x] + a) == multiset{x} + multiset(a);
    assert multiset([x] + r) == multiset{x} + multiset(r);
  }

  /** The images of the elements `f` accepts, in order: a loop that pushes
      `f(x).value` for every `x` with `f(x)` present. */
  function Collect<A, B>(s: seq<A>, f: A -> Option<B>): seq<B> {
    if s == [] then []
    else
      var last := f(s[|s| - 1]);
      Collect(s[..|s| - 1], f) + (if last.Some? then [last.value] else [])
  }

  lemma CollectStep<A, B>(s: seq<A>, i: nat, f: A -> Option<B>)
    requires i < |s|
    ensures Collect(s[..i + 1], f) == Collect(s[..i], f) + (if f(s[i]).Some? then [f(s[i]).value] else [])
  {
    assert s[..i + 1][..i] == s[..i];
  }

  /** Collection works element by element: the result for a concatenation is
      the concatenation of the results, in order. */
  lemma {:induction false} CollectAppend<A, B>(a: seq<A>, b: seq<A>, f: A -> Option<B>)
    ensures Collect(a + b, f) == Collect(a, f) + Collect(b, f)
    decreases |b|
  {
    if b == [] {
      assert a + b == a;
    } else {
      var n := |b| - 1;
      assert (a + b)[..|a + b| - 1] == a + b[..n];
      assert (a + b)[|a + b| - 1] == b[n];
      CollectAppend(a, b[..n], f);
    }
  }

  /** An element is collected exactly when some input maps to it; there are
      never more outputs than inputs. */
  lemma {:induction false} CollectMembers<A, B>(s: seq<A>, f: A -> Option<B>, y: B)
    ensures |Collect(s, f)| <= |s|
    ensures y in Collect(s, f) <==> exists i :: 0 <= i < |s| && f(s[i]) == Some(y)
  {
    if s != [] {
      var n := |s| - 1;
      CollectMembers(s[..n], f, y);
      if exists i :: 0 <= i < |s| && f(s[i]) == Some(y) {
        var i :| 0 <= i < |s| && f(s[i]) == Some(y);
        if i < n {
          assert s[..n][i] == s[i];
        }
      }
    }
  }

  /** When `f` accepts every element, one output per input, position by position. */
  lemma {:induction false} CollectTotal<A, B>(s: seq<A>, f: A -> Option<B>)
    requires forall i :: 0 <= i < |s| ==> f(s[i]).Some?
    ensures |Collect(s, f)| == |s|
    ensures forall i :: 0 <= i < |s| ==> Collect(s, f)[i] == f(s[i]).value
  {
    if s != [] {
      var n := |s| - 1;
      assert forall i :: 0 <= i < n ==> s[..n][i] == s[i];
      CollectTotal(s[..n], f);
    }
  }

  /** `path.join(dir, name)` for a plain file name: one '/' between them. */
  function JoinPath(dir: string, name: string): (r: string)
    ensures EndsWith(r, name)
  {
    var r := if dir == "" then name else if dir[|dir| - 1] == '/' then dir + name else dir + "/" + name;
    assert r[|r| - |name|..] == name;
    r
  }

  /** No element occurs twice. */
  predicate Distinct<T(==)>(s: seq<T>) {
    forall i, j :: 0 <= i < j < |s| ==> s[i] != s[j]
  }
}
