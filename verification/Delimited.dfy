/** Splitting a text leftmost on a delimiter: the one specification of every framing loop. */
module Delimited {
  import opened Prelude

  predicate OccursAt<T(==)>(t: seq<T>, d: seq<T>, p: nat) {
    p + |d| <= |t| && t[p..p + |d|] == d
  }

  /** The leftmost occurrence of `d` in `t` at or after `from`. */
  function FirstFrom<T(==)>(t: seq<T>, d: seq<T>, from: nat): (r: Option<nat>)
    requires from <= |t|
    ensures r.Some? ==> from <= r.value && r.value + |d| <= |t|
    decreases |t| - from
  {
    if OccursAt(t, d, from) then Some(from)
    else if from == |t| then None
    else FirstFrom(t, d, from + 1)
  }

  function First<T(==)>(t: seq<T>, d: seq<T>): (r: Option<nat>)
    ensures r.Some? ==> r.value + |d| <= |t|
  {
    FirstFrom(t, d, 0)
  }

  lemma {:induction false} FirstFromIsLeftmost<T>(t: seq<T>, d: seq<T>, from: nat)
    requires from <= |t|
    ensures var r := FirstFrom(t, d, from);
            && (r.Some? ==> OccursAt(t, d, r.value))
            && (forall p :: from <= p < (if r.Some? then r.value else |t| + 1) ==> !OccursAt(t, d, p))
    decreases |t| - from
  {
    if !OccursAt(t, d, from) && from < |t| {
      FirstFromIsLeftmost(t, d, from + 1);
    }
  }

  /** The search finds an occurrence, and no earlier one exists. */
  lemma FirstIsLeftmost<T>(t: seq<T>, d: seq<T>)
    ensures var r := First(t, d);
            && (r.Some? ==> OccursAt(t, d, r.value))
            && (forall p :: 0 <= p < (if r.Some? then r.value else |t| + 1) ==> !OccursAt(t, d, p))
  {
    FirstFromIsLeftmost(t, d, 0);
  }

  /** The terminated blocks of `t`, without their delimiters. */
  function Blocks<T(==)>(t: seq<T>, d: seq<T>): seq<seq<T>>
    requires d != []
    decreases |t|
  {
    match First(t, d)
    case None => []
    case Some(p) => [t[..p]] + Blocks(t[p + |d|..], d)
  }

  /** What follows the last terminated block. */
  function Rest<T(==)>(t: seq<T>, d: seq<T>): (r: seq<T>)
    requires d != []
    ensures First(r, d).None?
    decreases |t|
  {
    match First(t, d)
    case None => t
    case Some(p) => Rest(t[p + |d|..], d)
  }

  function Terminated<T>(blocks: seq<seq<T>>, d: seq<T>): seq<T> {
    if blocks == [] then [] else blocks[0] + d + Terminated(blocks[1..], d)
  }

  lemma OccurrenceStarts<T>(t: seq<T>, d: seq<T>, p: nat)
    requires d != []
    ensures OccursAt(t, d, p) ==> p < |t| && t[p] == d[0]
  {
    if OccursAt(t, d, p) { assert t[p] == t[p..p + |d|][0]; }
  }

  lemma FirstIs<T>(t: seq<T>, d: seq<T>, p: nat)
    requires OccursAt(t, d, p)
    requires forall q :: 0 <= q < p ==> !OccursAt(t, d, q)
    ensures First(t, d) == Some(p)
  {
    FirstIsLeftmost(t, d);
  }

  /** A first occurrence inside a prefix is the first occurrence of the whole. */
  lemma {:induction false} FirstInPrefix<T>(a: seq<T>, b: seq<T>, d: seq<T>)
    requires First(a, d).Some?
    ensures First(a + b, d) == First(a, d)
  {
    var p := First(a, d).value;
    FirstIsLeftmost(a, d);
    assert (a + b)[p..p + |d|] == a[p..p + |d|];
    forall q | 0 <= q < p ensures !OccursAt(a + b, d, q) {
      assert (a + b)[q..q + |d|] == a[q..q + |d|];
      assert !OccursAt(a, d, q);
    }
    FirstIs(a + b, d, p);
  }

  /**
   * The law behind every incremental reader: cutting what has arrived and keeping
   * the rest loses nothing, wherever the text is broken, even inside a delimiter.
   */
  lemma {:induction false} SplitInTwo<T>(a: seq<T>, b: seq<T>, d: seq<T>)
    requires d != []
    ensures Blocks(a + b, d) == Blocks(a, d) + Blocks(Rest(a, d) + b, d)
    ensures Rest(a + b, d) == Rest(Rest(a, d) + b, d)
    decreases |a|
  {
    hide Blocks, Rest;
    var first := First(a, d);
    if first.Some? {
      var p := first.value;
      var tail := a[p + |d|..];
      FirstInPrefix(a, b, d);
      CutConcat(a, b, p, |d|);
      SplitInTwo(tail, b, d);
      BlocksCut(a, d, p);
      BlocksCut(a + b, d, p);
      Associate([a[..p]], Blocks(tail, d), Blocks(Rest(tail, d) + b, d));
    } else {
      NoCut(a, d);
      assert [] + Blocks(a + b, d) == Blocks(a + b, d);
    }
  }

  lemma NoCut<T>(t: seq<T>, d: seq<T>)
    requires d != [] && First(t, d).None?
    ensures Blocks(t, d) == [] && Rest(t, d) == t
  {
  }

  lemma BlocksCut<T>(t: seq<T>, d: seq<T>, p: nat)
    requires d != [] && First(t, d) == Some(p)
    ensures Blocks(t, d) == [t[..p]] + Blocks(t[p + |d|..], d)
    ensures Rest(t, d) == Rest(t[p + |d|..], d)
  {
  }

  lemma CutConcat<T>(a: seq<T>, b: seq<T>, p: nat, k: nat)
    requires p + k <= |a|
    ensures (a + b)[..p] == a[..p]
    ensures (a + b)[p + k..] == a[p + k..] + b
  {
  }

  /** Splitting loses no element: delimiters put back, the blocks and the rest are the text. */
  lemma {:induction false} Reassembles<T>(t: seq<T>, d: seq<T>)
    requires d != []
    ensures Terminated(Blocks(t, d), d) + Rest(t, d) == t
    decreases |t|
  {
    var first := First(t, d);
    if first.Some? {
      var p := first.value;
      var x, tail := t[..p], t[p + |d|..];
      FirstIsLeftmost(t, d);
      Reassembles(tail, d);
      var whole := Terminated(Blocks(tail, d), d);
      TerminatedCons(x, Blocks(tail, d), d);
      CutInThree(t, d, p);
      Associate(x + d, whole, Rest(tail, d));
    }
  }

  lemma CutInThree<T>(t: seq<T>, d: seq<T>, p: nat)
    requires OccursAt(t, d, p)
    ensures t == t[..p] + d + t[p + |d|..]
  {
  }

  lemma TerminatedCons<T>(x: seq<T>, blocks: seq<seq<T>>, d: seq<T>)
    ensures Terminated([x] + blocks, d) == x + d + Terminated(blocks, d)
  {
    assert ([x] + blocks)[1..] == blocks;
  }

  /** `x` ends its block at the first possible place: `x + d` holds no earlier delimiter. */
  predicate Leftmost<T(==)>(x: seq<T>, d: seq<T>) {
    First(x + d, d) == Some(|x|)
  }

  /** The leftmost splitting is the only one: any decomposition with these two properties is it. */
  lemma {:induction false} SplittingIsUnique<T>(blocks: seq<seq<T>>, rest: seq<T>, d: seq<T>)
    requires d != []
    requires forall i :: 0 <= i < |blocks| ==> Leftmost(blocks[i], d)
    requires First(rest, d).None?
    ensures Blocks(Terminated(blocks, d) + rest, d) == blocks
    ensures Rest(Terminated(blocks, d) + rest, d) == rest
    decreases |blocks|
  {
    if blocks == [] {
      assert Terminated(blocks, d) + rest == rest;
    } else {
      var x, tail := blocks[0], Terminated(blocks[1..], d) + rest;
      var t := x + d + tail;
      Associate(x + d, Terminated(blocks[1..], d), rest);
      FirstInPrefix(x + d, tail, d);
      CutConcat(x + d, tail, |x|, |d|);
      assert t[..|x|] == x && t[|x| + |d|..] == tail;
      SplittingIsUnique(blocks[1..], rest, d);
      BlocksCut(t, d, |x|);
      assert blocks == [x] + blocks[1..];
    }
  }

  /** Every block of a splitting is leftmost. */
  lemma {:induction false} BlocksAreLeftmost<T>(t: seq<T>, d: seq<T>, i: nat)
    requires d != [] && i < |Blocks(t, d)|
    ensures Leftmost(Blocks(t, d)[i], d)
    decreases |t|
  {
    var p := First(t, d).value;
    if i > 0 {
      BlocksAreLeftmost(t[p + |d|..], d, i - 1);
    } else {
      var x := t[..p];
      FirstIsLeftmost(t, d);
      forall q | 0 <= q < p ensures !OccursAt(x + d, d, q) {
        assert !OccursAt(t, d, q);
        assert t == x + d + t[p + |d|..];
        assert (x + d)[q..q + |d|] == t[q..q + |d|];
      }
      assert (x + d)[p..p + |d|] == d;
      FirstIs(x + d, d, p);
    }
  }
}
