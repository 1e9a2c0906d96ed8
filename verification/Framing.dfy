/** A reader that cuts blocks off a growing buffer: what it yields does not depend on how the stream was broken. */
module Framing {
  import opened Prelude
  import opened Delimited

  /** What the transport yields: a piece of the stream, or a read error. */
  datatype Item<T, +R> = Chunk(piece: seq<T>) | Broken(error: R)

  /** How blocks become events; `last` decides about the unterminated tail at the end. */
  datatype Format<!T, +E> = Format(delimiter: seq<T>, decode: seq<T> -> Option<E>, last: seq<T> -> Option<E>)

  function OneOrNone<E>(o: Option<E>): seq<E> {
    match o case None => [] case Some(e) => [e]
  }

  function Decoded<T, E>(decode: seq<T> -> Option<E>, blocks: seq<seq<T>>): seq<E> {
    if blocks == [] then [] else OneOrNone(decode(blocks[0])) + Decoded(decode, blocks[1..])
  }

  /** The specification: the events of a whole stream, read at once. */
  function Whole<T(==), E>(f: Format<T, E>, t: seq<T>): seq<E>
    requires f.delimiter != []
  {
    Decoded(f.decode, Blocks(t, f.delimiter)) + OneOrNone(f.last(Rest(t, f.delimiter)))
  }

  function AllOk<E, R>(events: seq<E>): seq<Result<E, R>> {
    seq(|events|, i requires 0 <= i < |events| => Ok(events[i]))
  }

  /** Everything a reader with this buffer and this stream ahead of it will yield, in order. */
  function Transcript<T(==), E, R>(f: Format<T, E>, buffer: seq<T>, items: seq<Item<T, R>>): seq<Result<E, R>>
    requires f.delimiter != []
    decreases |items|, 1
  {
    AllOk(Decoded(f.decode, Blocks(buffer, f.delimiter))) + Pending(f, Rest(buffer, f.delimiter), items)
  }

  /** The part of the transcript that needs more of the stream; `carry` is the unterminated text. */
  function Pending<T(==), E, R>(f: Format<T, E>, carry: seq<T>, items: seq<Item<T, R>>): seq<Result<E, R>>
    requires f.delimiter != []
    decreases |items|, 0
  {
    if items == [] then AllOk(OneOrNone(f.last(carry)))
    else match items[0]
      case Chunk(c) => Transcript(f, carry + c, items[1..])
      case Broken(e) => [Err(e)] + Transcript(f, carry, items[1..])
  }

  lemma AllOkConcat<E, R>(a: seq<E>, b: seq<E>)
    ensures AllOk<E, R>(a + b) == AllOk(a) + AllOk(b)
  {
  }

  lemma TranscriptIs<T, E, R>(f: Format<T, E>, buffer: seq<T>, items: seq<Item<T, R>>)
    requires f.delimiter != []
    ensures Transcript(f, buffer, items) ==
            AllOk(Decoded(f.decode, Blocks(buffer, f.delimiter))) + Pending(f, Rest(buffer, f.delimiter), items)
  {
    hide Blocks, Rest, Decoded, AllOk, Pending;
  }

  lemma DecodedCons<T, E>(decode: seq<T> -> Option<E>, x: seq<T>, blocks: seq<seq<T>>)
    ensures Decoded(decode, [x] + blocks) == OneOrNone(decode(x)) + Decoded(decode, blocks)
  {
    assert ([x] + blocks)[1..] == blocks;
  }

  /** One cut from the front of the buffer, seen from the transcript. */
  lemma {:induction false} CutOne<T, E, R>(f: Format<T, E>, buffer: seq<T>, items: seq<Item<T, R>>)
    requires f.delimiter != [] && First(buffer, f.delimiter).Some?
    ensures var p := First(buffer, f.delimiter).value;
            Transcript(f, buffer, items) ==
            AllOk(OneOrNone(f.decode(buffer[..p]))) + Transcript(f, buffer[p + |f.delimiter|..], items)
  {
    hide Transcript, Pending, Blocks, Rest, First, Decoded, AllOk, OneOrNone;
    var p := First(buffer, f.delimiter).value;
    var tail := buffer[p + |f.delimiter|..];
    var head := OneOrNone(f.decode(buffer[..p]));
    var others := Decoded(f.decode, Blocks(tail, f.delimiter));
    TranscriptIs(f, buffer, items);
    TranscriptIs(f, tail, items);
    BlocksCut(buffer, f.delimiter, p);
    DecodedCons(f.decode, buffer[..p], Blocks(tail, f.delimiter));
    AllOkConcat<E, R>(head, others);
    Associate<Result<E, R>>(AllOk(head), AllOk(others), Pending(f, Rest(tail, f.delimiter), items));
  }

  /** Without a delimiter in the buffer, the next thing to happen is the next item of the stream. */
  lemma NothingToCut<T, E, R>(f: Format<T, E>, buffer: seq<T>, items: seq<Item<T, R>>)
    requires f.delimiter != [] && First(buffer, f.delimiter).None?
    ensures Transcript(f, buffer, items) == Pending(f, buffer, items)
  {
    assert AllOk<E, R>(Decoded(f.decode, Blocks(buffer, f.delimiter))) == [];
  }

  /** What one decoded block adds in front of the rest of the output. */
  lemma YieldOne<E, R>(o: Option<E>, rest: seq<Result<E, R>>)
    ensures AllOk(OneOrNone(o)) + rest == if o.Some? then [Ok(o.value)] + rest else rest
  {
  }

  function Text<T, R>(items: seq<Item<T, R>>): seq<T> {
    if items == [] then [] else (if items[0].Chunk? then items[0].piece else []) + Text(items[1..])
  }

  function Oks<E, R>(out: seq<Result<E, R>>): seq<E> {
    if out == [] then [] else (if out[0].Ok? then [out[0].value] else []) + Oks(out[1..])
  }

  function Errs<E, R>(out: seq<Result<E, R>>): seq<R> {
    if out == [] then [] else (if out[0].Err? then [out[0].error] else []) + Errs(out[1..])
  }

  function ReadErrors<T, R>(items: seq<Item<T, R>>): seq<R> {
    if items == [] then [] else (if items[0].Broken? then [items[0].error] else []) + ReadErrors(items[1..])
  }

  /**
   * Wherever the transport broke the stream, and whatever read errors came in
   * between, the events are those of the whole stream and no error is lost.
   */
  lemma {:induction false} ChunkingIsInvisible<T, E, R>(f: Format<T, E>, buffer: seq<T>, items: seq<Item<T, R>>)
    requires f.delimiter != []
    ensures Oks(Transcript(f, buffer, items)) == Whole(f, buffer + Text(items))
    ensures Errs(Transcript(f, buffer, items)) == ReadErrors(items)
    decreases |items|, 1
  {
    var d := f.delimiter;
    var carry := Rest(buffer, d);
    var now, later := Blocks(buffer, d), Blocks(carry + Text(items), d);
    SplitInTwo(buffer, Text(items), d);
    DecodedConcat(f.decode, now, later);
    ProjectOks<E, R>(Decoded(f.decode, now));
    PendingEvents(f, carry, items);
    Projections<E, R>(AllOk(Decoded(f.decode, now)), Pending(f, carry, items));
    Associate(Decoded(f.decode, now), Decoded(f.decode, later), OneOrNone(f.last(Rest(carry + Text(items), d))));
  }

  lemma {:induction false} PendingEvents<T, E, R>(f: Format<T, E>, carry: seq<T>, items: seq<Item<T, R>>)
    requires f.delimiter != [] && First(carry, f.delimiter).None?
    ensures Oks(Pending(f, carry, items)) == Whole(f, carry + Text(items))
    ensures Errs(Pending(f, carry, items)) == ReadErrors(items)
    decreases |items|, 0
  {
    if items == [] {
      assert carry + Text(items) == carry;
      ProjectOks<E, R>(OneOrNone(f.last(carry)));
      assert [] + OneOrNone(f.last(carry)) == OneOrNone(f.last(carry));
    } else if items[0].Chunk? {
      var c := items[0].piece;
      ChunkingIsInvisible(f, carry + c, items[1..]);
      Associate(carry, c, Text(items[1..]));
    } else {
      ChunkingIsInvisible(f, carry, items[1..]);
      hide Transcript, Whole, Blocks, Rest, First;
      var t := Transcript(f, carry, items[1..]);
      assert ([Err(items[0].error)] + t)[1..] == t;
      assert [] + Text(items[1..]) == Text(items[1..]);
    }
  }

  /** Two ways to cut the same stream into chunks give the same output, event for event. */
  lemma {:induction false} SameTextSameEvents<T, E, R>(f: Format<T, E>, xs: seq<Item<T, R>>, ys: seq<Item<T, R>>)
    requires f.delimiter != []
    requires Text(xs) == Text(ys)
    requires ReadErrors(xs) == ReadErrors(ys) == []
    ensures Transcript(f, [], xs) == Transcript(f, [], ys) == AllOk(Whole(f, Text(xs)))
  {
    ChunkingIsInvisible(f, [], xs);
    ChunkingIsInvisible(f, [], ys);
    assert [] + Text(xs) == Text(xs);
    NoErrors(Transcript(f, [], xs));
    NoErrors(Transcript(f, [], ys));
  }

  lemma {:induction false} NoErrors<E, R>(out: seq<Result<E, R>>)
    requires Errs(out) == []
    ensures out == AllOk(Oks(out))
    decreases |out|
  {
    if out != [] {
      assert out[0].Ok?;
      NoErrors(out[1..]);
      assert out == [Ok(out[0].value)] + out[1..];
    }
  }

  lemma {:induction false} ProjectOks<E, R>(events: seq<E>)
    ensures Oks<E, R>(AllOk(events)) == events
    ensures Errs<E, R>(AllOk(events)) == []
    decreases |events|
  {
    if events != [] {
      ProjectOks<E, R>(events[1..]);
      var all: seq<Result<E, R>> := AllOk(events);
      assert all[1..] == AllOk(events[1..]);
    }
  }

  lemma Projections<E, R>(a: seq<Result<E, R>>, b: seq<Result<E, R>>)
    ensures Oks(a + b) == Oks(a) + Oks(b)
    ensures Errs(a + b) == Errs(a) + Errs(b)
  {
    OksConcat(a, b);
    ErrsConcat(a, b);
  }

  lemma {:induction false} OksConcat<E, R>(a: seq<Result<E, R>>, b: seq<Result<E, R>>)
    ensures Oks(a + b) == Oks(a) + Oks(b)
    decreases |a|
  {
    if a == [] {
      assert a + b == b;
    } else {
      assert (a + b)[1..] == a[1..] + b;
      OksConcat(a[1..], b);
      Associate(if a[0].Ok? then [a[0].value] else [], Oks(a[1..]), Oks(b));
    }
  }

  lemma {:induction false} ErrsConcat<E, R>(a: seq<Result<E, R>>, b: seq<Result<E, R>>)
    ensures Errs(a + b) == Errs(a) + Errs(b)
    decreases |a|
  {
    if a == [] {
      assert a + b == b;
    } else {
      assert (a + b)[1..] == a[1..] + b;
      ErrsConcat(a[1..], b);
      Associate(if a[0].Err? then [a[0].error] else [], Errs(a[1..]), Errs(b));
    }
  }

  lemma {:induction false} DecodedConcat<T, E>(decode: seq<T> -> Option<E>, a: seq<seq<T>>, b: seq<seq<T>>)
    ensures Decoded(decode, a + b) == Decoded(decode, a) + Decoded(decode, b)
    decreases |a|
  {
    if a == [] {
      assert a + b == b;
    } else {
      assert (a + b)[1..] == a[1..] + b;
      DecodedConcat(decode, a[1..], b);
      Associate(OneOrNone(decode(a[0])), Decoded(decode, a[1..]), Decoded(decode, b));
    }
  }
}
