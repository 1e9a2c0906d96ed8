/** Shared vocabulary: optional values, results and a few facts about sequences. */
module Prelude {

  datatype Option<+T> = None | Some(value: T)

  datatype Result<+T, +E> = Ok(value: T) | Err(error: E)

  type Byte = b: int | 0 <= b < 256

  /** An embedding. */
  type Vector = seq<real>

  function Min(a: int, b: int): int {
    if a <= b then a else b
  }

  function Max(a: int, b: int): int {
    if a >= b then a else b
  }

  function Last<T>(s: seq<T>): T
    requires s != []
  {
    s[|s| - 1]
  }

  /** The last `n` elements of `s`, or all of `s` when it is shorter. */
  function Suffix<T>(s: seq<T>, n: nat): seq<T> {
    if |s| <= n then s else s[|s| - n..]
  }

  /** The elements a test keeps, in order. */
  function Filter<T>(s: seq<T>, keep: T -> bool): seq<T> {
    if s == [] then [] else (if keep(s[0]) then [s[0]] else []) + Filter(s[1..], keep)
  }

  lemma FilterOne<T>(x: T, keep: T -> bool)
    ensures Filter([x], keep) == (if keep(x) then [x] else []) && Filter([], keep) == []
  {
    assert [x][1..] == [];
  }

  lemma {:induction false} FilterConcat<T>(a: seq<T>, b: seq<T>, keep: T -> bool)
    ensures Filter(a + b, keep) == Filter(a, keep) + Filter(b, keep)
  {
    if a == [] {
      assert a + b == b;
    } else {
      FilterConcat(a[1..], b, keep);
      assert (a + b)[1..] == a[1..] + b;
      Associate(if keep(a[0]) then [a[0]] else [], Filter(a[1..], keep), Filter(b, keep));
    }
  }

  lemma FrontAndLast<T>(s: seq<T>)
    requires s != []
    ensures s == s[..|s| - 1] + [Last(s)]
    ensures forall x :: x in s <==> x in s[..|s| - 1] || x == Last(s)
  {
    assert s == s[..|s| - 1] + [Last(s)];
  }

  function Elements<T(==)>(s: seq<T>): set<T> {
    set x | x in s
  }

  lemma ElementsOfFront<T>(s: seq<T>)
    requires s != []
    ensures Elements(s) == Elements(s[..|s| - 1]) + {Last(s)}
  {
    FrontAndLast(s);
  }

  predicate Distinct<T(==)>(s: seq<T>) {
    forall i, j :: 0 <= i < j < |s| ==> s[i] != s[j]
  }

  lemma DistinctAppend<T>(s: seq<T>, x: T)
    ensures Elements(s + [x]) == Elements(s) + {x}
    ensures Distinct(s) && x !in s ==> Distinct(s + [x])
  {
    assert (s + [x])[|s|] == x;
    assert forall i :: 0 <= i < |s| ==> (s + [x])[i] == s[i];
  }

  lemma Associate<T>(a: seq<T>, b: seq<T>, c: seq<T>)
    ensures (a + b) + c == a + (b + c)
  {
  }

  /** Python's `s[at:at] = b`. */
  function Splice<T>(lines: seq<T>, at: nat, b: seq<T>): (r: seq<T>)
    requires at <= |lines|
    ensures |r| == |lines| + |b|
  {
    lines[..at] + b + lines[at..]
  }

  lemma SpliceAt<T>(lines: seq<T>, at: nat, b: seq<T>, k: nat)
    requires at <= |lines|
    ensures k < at ==> Splice(lines, at, b)[k] == lines[k]
    ensures k < |b| ==> Splice(lines, at, b)[at + k] == b[k]
    ensures at <= k < |lines| ==> Splice(lines, at, b)[k + |b|] == lines[k]
  {
  }
}
