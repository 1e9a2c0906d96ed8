/** The noise policy of the semantic memory: normalisation and the laughter test. */
module MemoryNoise {
  import opened Prelude

  /** Unicode facts the code takes from its standard library. */
  datatype Unicode = Unicode(fold: char -> char, alnum: char -> bool, space: char -> bool)
  {
    /** Folding a folded letter changes nothing, and a blank is no letter however it folds. */
    ghost predicate Sound() {
      && (forall c :: alnum(fold(c)) ==> fold(fold(c)) == fold(c))
      && !alnum(fold(' '))
    }
  }

  // ------------------------------------------------------------ normalisation

  function Folded(u: Unicode, s: string): string {
    seq(|s|, i requires 0 <= i < |s| => u.fold(s[i]))
  }

  /** The maximal runs of letters and digits of a folded text. */
  function Words(u: Unicode, t: string): seq<string> {
    if t == "" then []
    else
      var front, c := t[..|t| - 1], Last(t);
      var words := Words(u, front);
      if !u.alnum(c) then words
      else if front != "" && u.alnum(Last(front)) && words != [] then words[..|words| - 1] + [Last(words) + [c]]
      else words + [[c]]
  }

  function Spaced(words: seq<string>): string {
    if words == [] then ""
    else if |words| == 1 then words[0]
    else Spaced(words[..|words| - 1]) + " " + Last(words)
  }

  /** The specification: the folded words, one blank between them. */
  function Normal(u: Unicode, s: string): string {
    Spaced(Words(u, Folded(u, s)))
  }

  predicate AreWords(u: Unicode, words: seq<string>) {
    forall i :: 0 <= i < |words| ==> words[i] != "" && forall j :: 0 <= j < |words[i]| ==> u.alnum(words[i][j])
  }

  lemma {:induction false} WordsAreWords(u: Unicode, t: string)
    ensures AreWords(u, Words(u, t))
    ensures t != "" && u.alnum(Last(t)) ==> Words(u, t) != []
    decreases |t|
  {
    if t != "" {
      var front, c := t[..|t| - 1], Last(t);
      WordsAreWords(u, front);
      var words := Words(u, front);
      if u.alnum(c) && front != "" && u.alnum(Last(front)) {
        var grown := Last(words) + [c];
        assert forall j :: 0 <= j < |grown| ==> u.alnum(grown[j]);
      }
    }
  }

  lemma SpacedOfAppend(words: seq<string>, w: string)
    ensures Spaced(words + [w]) == if words == [] then w else Spaced(words) + " " + w
  {
    assert (words + [w])[..|words + [w]| - 1] == words;
  }

  lemma {:induction false} SpacedOfGrown(words: seq<string>, c: char)
    requires words != []
    ensures Spaced(words[..|words| - 1] + [Last(words) + [c]]) == Spaced(words) + [c]
  {
    var front, w := words[..|words| - 1], Last(words);
    FrontAndLast(words);
    SpacedOfAppend(front, w);
    SpacedOfAppend(front, w + [c]);
    if front != [] {
      assert Spaced(front) + " " + (w + [c]) == (Spaced(front) + " " + w) + [c];
    }
  }

  lemma {:induction false} SpacedIsEmpty(u: Unicode, words: seq<string>)
    requires AreWords(u, words)
    ensures Spaced(words) == "" <==> words == []
  {
  }

  /** The loop with the pending-separator flag computes the normal form. */
  method Normalize(u: Unicode, s: string) returns (out: string)
    ensures out == Normal(u, s)
  {
    hide Words, Spaced;
    out := "";
    var pending := false;
    ghost var t := Folded(u, s);
    NoWords(u);
    assert t[..0] == "";
    for i := 0 to |s|
      invariant out == Spaced(Words(u, t[..i]))
      invariant pending == (i > 0 && !u.alnum(t[i - 1]))
    {
      var c := u.fold(s[i]);
      NormalStep(u, t, i);
      if u.alnum(c) {
        if pending && out != "" {
          out := out + [' '];
        }
        pending := false;
        out := out + [c];
      } else {
        pending := true;
      }
    }
    assert t[..|s|] == t;
  }

  lemma NoWords(u: Unicode)
    ensures Words(u, "") == [] && Spaced([]) == ""
  {
  }

  /** One more character of the text, seen from the normal form. */
  lemma {:induction false} NormalStep(u: Unicode, t: string, i: nat)
    requires i < |t|
    ensures var out := Spaced(Words(u, t[..i]));
            Spaced(Words(u, t[..i + 1])) ==
            if !u.alnum(t[i]) then out
            else if i > 0 && !u.alnum(t[i - 1]) && out != "" then out + [' '] + [t[i]]
            else out + [t[i]]
  {
    hide Spaced;
    var front, c := t[..i], t[i];
    var words := Words(u, front);
    assert t[..i + 1][..i] == front;
    assert Words(u, t[..i + 1]) == WordsWith(u, front, c);
    hide Words;
    WordsAreWords(u, front);
    SpacedIsEmpty(u, words);
    SpacedOfAppend(words, [c]);
    if words != [] { SpacedOfGrown(words, c); }
  }

  /** The words after one more character. */
  function WordsWith(u: Unicode, front: string, c: char): seq<string> {
    var words := Words(u, front);
    if !u.alnum(c) then words
    else if front != "" && u.alnum(Last(front)) && words != [] then words[..|words| - 1] + [Last(words) + [c]]
    else words + [[c]]
  }

  /** Words survive spacing them out and folding again. */
  lemma {:induction false} WordsOfSpaced(u: Unicode, words: seq<string>)
    requires u.Sound() && AreWords(u, words) && forall i :: 0 <= i < |words| ==> Folded(u, words[i]) == words[i]
    ensures Words(u, Folded(u, Spaced(words))) == words
    decreases |words|
  {
    hide Spaced, Words;
    NoWords(u);
    if words == [] {
      assert Folded(u, "") == "";
    } else {
      var front, w := words[..|words| - 1], Last(words);
      FrontAndLast(words);
      SpacedOfAppend(front, w);
      assert Folded(u, w) == w;
      if front == [] {
        AppendWord(u, "", w, |w|);
        assert w[..|w|] == w && "" + w == w;
        assert words == [] + [w];
      } else {
        WordsOfSpaced(u, front);
        WordAfter(u, front, w);
      }
    }
  }

  lemma {:induction false} WordAfter(u: Unicode, front: seq<string>, w: string)
    requires u.Sound() && w != "" && Folded(u, w) == w && forall j :: 0 <= j < |w| ==> u.alnum(w[j])
    requires Words(u, Folded(u, Spaced(front))) == front
    ensures Words(u, Folded(u, Spaced(front) + " " + w)) == front + [w]
  {
    hide Words, Spaced;
    var a := Spaced(front);
    var text := Folded(u, a);
    SeparatorKeepsWords(u, text);
    AppendWord(u, text + [u.fold(' ')], w, |w|);
    assert w[..|w|] == w;
    assert Folded(u, a + " " + w) == text + [u.fold(' ')] + w;
  }

  lemma SeparatorKeepsWords(u: Unicode, t: string)
    requires u.Sound()
    ensures Words(u, t + [u.fold(' ')]) == Words(u, t)
  {
    assert (t + [u.fold(' ')])[..|t|] == t;
  }

  /** Letters after a separator form one new word. */
  lemma {:induction false} AppendWord(u: Unicode, t: string, w: string, n: nat)
    requires t == "" || !u.alnum(Last(t))
    requires 0 < n <= |w| && forall j :: 0 <= j < |w| ==> u.alnum(w[j])
    ensures Words(u, t + w[..n]) == Words(u, t) + [w[..n]]
    decreases n
  {
    hide Words, Spaced;
    var k := n - 1;
    CutLast(t, w, n);
    WordsOfAppend(u, t + w[..k], w[k]);
    if n == 1 {
      assert t + w[..0] == t;
      assert [w[0]] == w[..1];
    } else {
      AppendWord(u, t, w, k);
      assert Last(t + w[..k]) == w[k - 1];
      assert w[..k] + [w[k]] == w[..n];
      var words := Words(u, t) + [w[..k]];
      assert words[..|words| - 1] == Words(u, t);
    }
  }

  lemma CutLast(t: string, w: string, n: nat)
    requires 0 < n <= |w|
    ensures t + w[..n] == (t + w[..n - 1]) + [w[n - 1]]
  {
  }

  lemma WordsOfAppend(u: Unicode, t: string, c: char)
    ensures Words(u, t + [c]) == WordsWith(u, t, c)
  {
    assert (t + [c])[..|t|] == t;
  }

  lemma {:induction false} WordsAreFolded(u: Unicode, t: string)
    requires u.Sound() && forall i :: 0 <= i < |t| && u.alnum(t[i]) ==> u.fold(t[i]) == t[i]
    ensures forall i :: 0 <= i < |Words(u, t)| ==> Folded(u, Words(u, t)[i]) == Words(u, t)[i]
    decreases |t|
  {
    if t != "" {
      var front, c := t[..|t| - 1], Last(t);
      WordsAreFolded(u, front);
      var words := Words(u, front);
      if u.alnum(c) {
        assert Folded(u, [c]) == [c];
        if words != [] {
          assert Folded(u, Last(words) + [c]) == Folded(u, Last(words)) + [c];
        }
      }
    }
  }

  /** Normalising keeps the words, so normalising twice is normalising once. */
  lemma {:induction false} NormalIsIdempotent(u: Unicode, s: string)
    requires u.Sound()
    ensures Words(u, Folded(u, Normal(u, s))) == Words(u, Folded(u, s))
    ensures Normal(u, Normal(u, s)) == Normal(u, s)
  {
    var t := Folded(u, s);
    WordsAreWords(u, t);
    WordsAreFolded(u, t);
    WordsOfSpaced(u, Words(u, t));
  }

  // ---- two laws that determine the normal form

  /** A text of letters and digits is its own word. */
  lemma {:induction false} NormalOfLetters(u: Unicode, s: string)
    requires forall c :: c in s ==> u.alnum(u.fold(c))
    ensures Normal(u, s) == Folded(u, s)
  {
    hide Words, Spaced;
    NoWords(u);
    var t := Folded(u, s);
    forall j | 0 <= j < |t| ensures u.alnum(t[j]) { assert s[j] in s; }
    if t != "" {
      AppendWord(u, "", t, |t|);
      assert "" + t[..|t|] == t && t[..|t|] == t;
      SpacedOfAppend([], t);
      assert [] + [t] == [t];
    }
  }

  lemma {:induction false} WordsAcrossGap(u: Unicode, a: string, c: char, b: string)
    requires !u.alnum(c)
    ensures Words(u, a + [c] + b) == Words(u, a) + Words(u, b)
    decreases |b|
  {
    hide Words;
    NoWords(u);
    if b == "" {
      WordsOfAppend(u, a, c);
      assert a + [c] + b == a + [c];
    } else {
      var front, x := b[..|b| - 1], Last(b);
      FrontAndLast(b);
      WordsAcrossGap(u, a, c, front);
      WordsAreWords(u, front);
      WordsOfAppend(u, a + [c] + front, x);
      WordsOfAppend(u, front, x);
      assert a + [c] + b == (a + [c] + front) + [x];
      assert Last(a + [c] + front) == if front == "" then c else Last(front);
      GrowTogether(Words(u, a), Words(u, front), x);
    }
  }

  lemma GrowTogether(a: seq<string>, b: seq<string>, x: char)
    ensures a + b + [[x]] == a + (b + [[x]])
    ensures b != [] ==>
              var ab := a + b;
              ab[..|ab| - 1] + [Last(ab) + [x]] == a + (b[..|b| - 1] + [Last(b) + [x]])
  {
  }

  lemma {:induction false} SpacedConcat(a: seq<string>, b: seq<string>)
    ensures Spaced(a + b) ==
            if a == [] then Spaced(b) else if b == [] then Spaced(a) else Spaced(a) + " " + Spaced(b)
    decreases |b|
  {
    hide Spaced;
    if b == [] {
      assert a + b == a;
    } else if a == [] {
      assert a + b == b;
    } else {
      var front, w := b[..|b| - 1], Last(b);
      FrontAndLast(b);
      SpacedConcat(a, front);
      SpacedOfAppend(a + front, w);
      SpacedOfAppend(front, w);
      Associate(a, front, [w]);
      if front != [] {
        assert Spaced(a) + " " + Spaced(front) + " " + w == Spaced(a) + " " + (Spaced(front) + " " + w);
      }
    }
  }

  /**
   * Anything but a letter or digit parts the text: both sides are normalised for themselves,
   * with one blank between.
   */
  lemma {:induction false} NormalAcrossGap(u: Unicode, a: string, c: char, b: string)
    requires !u.alnum(u.fold(c))
    ensures Normal(u, a + [c] + b) ==
            if Normal(u, a) == "" then Normal(u, b)
            else if Normal(u, b) == "" then Normal(u, a)
            else Normal(u, a) + " " + Normal(u, b)
  {
    hide Words, Spaced;
    NoWords(u);
    var s, t := Folded(u, a), Folded(u, b);
    assert Folded(u, a + [c] + b) == s + [u.fold(c)] + t;
    WordsAcrossGap(u, s, u.fold(c), t);
    SpacedConcat(Words(u, s), Words(u, t));
    WordsAreWords(u, s);
    WordsAreWords(u, t);
    SpacedIsEmpty(u, Words(u, s));
    SpacedIsEmpty(u, Words(u, t));
  }

  lemma {:induction false} SpacedIsTidy(u: Unicode, words: seq<string>)
    requires AreWords(u, words)
    ensures var n := Spaced(words);
            && (forall i :: 0 <= i < |n| ==> u.alnum(n[i]) || n[i] == ' ')
            && (n != "" ==> u.alnum(n[0]) && u.alnum(Last(n)))
            && (forall i :: 0 < i < |n| && !u.alnum(n[i]) ==> u.alnum(n[i - 1]))
    decreases |words|
  {
    if words != [] {
      var front, w := words[..|words| - 1], Last(words);
      FrontAndLast(words);
      SpacedIsTidy(u, front);
      SpacedOfAppend(front, w);
      SpacedIsEmpty(u, front);
      TidyJoin(u, Spaced(front), w, front == []);
    }
  }

  lemma TidyJoin(u: Unicode, a: string, w: string, first: bool)
    requires w != "" && forall j :: 0 <= j < |w| ==> u.alnum(w[j])
    requires first || a != ""
    requires forall i :: 0 <= i < |a| ==> u.alnum(a[i]) || a[i] == ' '
    requires a != "" ==> u.alnum(a[0]) && u.alnum(Last(a))
    requires forall i :: 0 < i < |a| && !u.alnum(a[i]) ==> u.alnum(a[i - 1])
    ensures var n := if first then w else a + " " + w;
            && (forall i :: 0 <= i < |n| ==> u.alnum(n[i]) || n[i] == ' ')
            && (n != "" ==> u.alnum(n[0]) && u.alnum(Last(n)))
            && (forall i :: 0 < i < |n| && !u.alnum(n[i]) ==> u.alnum(n[i - 1]))
  {
  }

  /** Normalising leaves letters and digits, and single blanks between them: none in front, behind or doubled. */
  lemma NormalIsTidy(u: Unicode, s: string)
    ensures var n := Normal(u, s);
            && (forall i :: 0 <= i < |n| ==> u.alnum(n[i]) || n[i] == ' ')
            && (n != "" ==> u.alnum(n[0]) && u.alnum(Last(n)))
            && (forall i :: 0 < i < |n| && !u.alnum(n[i]) ==> u.alnum(n[i - 1]))
  {
    hide Words, Spaced, Folded;
    WordsAreWords(u, Folded(u, s));
    SpacedIsTidy(u, Words(u, Folded(u, s)));
  }

  // ------------------------------------------------------------ laughter

  function Utf8(c: char): (b: seq<Byte>)
    ensures 1 <= |b| <= 4
    ensures (c as int < 0x80) == (b[0] < 0x80) && (c as int < 0x80 ==> b == [c as int])
    ensures c as int >= 0x80 ==> forall i :: 0 <= i < |b| ==> b[i] >= 0x80
  {
    var n := c as int;
    if n < 0x80 then [n]
    else if n < 0x800 then [0xC0 + n / 0x40, 0x80 + n % 0x40]
    else if n < 0x1_0000 then [0xE0 + n / 0x1000, 0x80 + n / 0x40 % 0x40, 0x80 + n % 0x40]
    else [0xF0 + n / 0x4_0000, 0x80 + n / 0x1000 % 0x40, 0x80 + n / 0x40 % 0x40, 0x80 + n % 0x40]
  }

  function Encoded(s: string): seq<Byte> {
    if s == "" then [] else Utf8(s[0]) + Encoded(s[1..])
  }

  function Times<T>(w: seq<T>, m: nat): seq<T> {
    if m == 0 then [] else w + Times(w, m - 1)
  }

  predicate Ascii(s: string) {
    forall i :: 0 <= i < |s| ==> s[i] as int < 0x80
  }

  lemma {:induction false} EncodedConcat(a: string, b: string)
    ensures Encoded(a + b) == Encoded(a) + Encoded(b)
    decreases |a|
  {
    if a == "" {
      assert a + b == b;
    } else {
      assert (a + b)[1..] == a[1..] + b;
      EncodedConcat(a[1..], b);
    }
  }

  lemma {:induction false} EncodedTimes(w: string, m: nat)
    ensures Encoded(Times(w, m)) == Times(Encoded(w), m)
  {
    if m > 0 {
      EncodedTimes(w, m - 1);
      EncodedConcat(w, Times(w, m - 1));
    }
  }

  /** ASCII bytes decode in one way only. */
  lemma {:induction false} AsciiDecodesUniquely(s: string, t: string)
    requires Ascii(t) && Encoded(s) == Encoded(t)
    ensures s == t
    decreases |s|
  {
    if s != "" && t != "" {
      assert Encoded(s)[0] == Utf8(s[0])[0] && Encoded(t)[0] == Utf8(t[0])[0];
      assert s[0] == t[0];
      assert Encoded(s)[1..] == Encoded(s[1..]) && Encoded(t)[1..] == Encoded(t[1..]);
      AsciiDecodesUniquely(s[1..], t[1..]);
      assert s == [s[0]] + s[1..] && t == [t[0]] + t[1..];
    }
  }

  lemma {:induction false} TimesAscii(w: string, m: nat)
    requires Ascii(w)
    ensures Ascii(Times(w, m))
  {
    if m > 0 { TimesAscii(w, m - 1); }
  }

  /**
   * Comparing bytes is right for every text: the encoding of `s` is a repetition
   * of an ASCII syllable's bytes exactly when `s` is a repetition of the syllable.
   */
  lemma {:induction false} BytesDecideRepetition(s: string, w: string, m: nat)
    requires Ascii(w)
    ensures Encoded(s) == Times(Encoded(w), m) <==> s == Times(w, m)
  {
    EncodedTimes(w, m);
    TimesAscii(w, m);
    if Encoded(s) == Times(Encoded(w), m) {
      AsciiDecodesUniquely(s, Times(w, m));
    }
  }

  lemma {:induction false} TimesLength<T>(w: seq<T>, m: nat)
    ensures |Times(w, m)| == |w| * m
  {
    if m > 0 { TimesLength(w, m - 1); }
  }

  lemma {:induction false} TimesMore<T>(w: seq<T>, m: nat)
    ensures Times(w, m + 1) == Times(w, m) + w
  {
    if m > 0 {
      TimesMore(w, m - 1);
      assert w + (Times(w, m - 1) + w) == (w + Times(w, m - 1)) + w;
    } else {
      assert w + [] == w == [] + w;
    }
  }

  /** The chunk comparison: whether a byte string is a syllable at least twice. */
  method AllChunksAre(bytes: seq<Byte>, w: seq<Byte>) returns (r: bool)
    requires w != []
    ensures r <==> exists m: nat :: m >= 2 && bytes == Times(w, m)
  {
    var n := |w|;
    if |bytes| < n * 2 || |bytes| % n != 0 {
      NotTimes(bytes, w);
      return false;
    }
    var i := 0;
    ghost var k: nat := 0;
    while i < |bytes|
      invariant i == n * k <= |bytes| && |bytes| % n == 0
      invariant bytes[..i] == Times(w, k)
      decreases |bytes| - i
    {
      NextChunkFits(|bytes|, n, k);
      if bytes[i..i + n] != w {
        ChunkMismatch(bytes, w, k);
        return false;
      }
      TimesMore(w, k);
      assert bytes[..i + n] == bytes[..i] + bytes[i..i + n];
      i, k := i + n, k + 1;
    }
    assert bytes[..i] == bytes;
    AtLeastTwo(n, k);
    return true;
  }

  lemma AtLeastTwo(n: nat, k: nat)
    requires 0 < n && n * k >= n * 2
    ensures k >= 2
  {
    assert k <= 1 ==> n * k <= n;
  }

  lemma LessByFactor(n: nat, a: int, b: int)
    ensures a <= b ==> n * a <= n * b
  {
  }

  lemma {:induction false} NextChunkFits(len: nat, n: nat, k: nat)
    requires 0 < n && n * k < len && len % n == 0
    ensures n * k + n <= len
  {
    var q := len / n;
    assert len == n * q;
    LessByFactor(n, q, k);
    LessByFactor(n, k + 1, q);
  }

  lemma {:induction false} NotTimes(bytes: seq<Byte>, w: seq<Byte>)
    requires w != [] && (|bytes| < |w| * 2 || |bytes| % |w| != 0)
    ensures forall m: nat :: m >= 2 ==> bytes != Times(w, m)
  {
    forall m: nat | m >= 2 ensures bytes != Times(w, m) {
      TimesLength(w, m);
      assert |w| * 2 <= |w| * m;
      Multiple(|w|, m);
    }
  }

  lemma Multiple(n: nat, m: nat)
    requires 0 < n
    ensures (n * m) % n == 0
  {
    var q, r := (n * m) / n, (n * m) % n;
    assert n * m == n * q + r;
    LessByFactor(n, q + 1, m);
    LessByFactor(n, m, q - 1);
  }

  lemma {:induction false} ChunkMismatch(bytes: seq<Byte>, w: seq<Byte>, k: nat)
    requires w != [] && |w| * k + |w| <= |bytes| && bytes[|w| * k..|w| * k + |w|] != w
    ensures forall m: nat :: m >= 2 ==> bytes != Times(w, m)
  {
    forall m: nat | m >= 2 ensures bytes != Times(w, m) {
      if bytes == Times(w, m) {
        ChunkOfTimes(w, m, k);
        assert false;
      }
    }
  }

  lemma {:induction false} ChunkOfTimes<T>(w: seq<T>, m: nat, k: nat)
    requires |w| * k + |w| <= |Times(w, m)| && w != []
    ensures Times(w, m)[|w| * k..|w| * k + |w|] == w
    decreases k
  {
    TimesLength(w, m);
    if k > 0 {
      assert |w| * k == |w| * (k - 1) + |w|;
      TimesLength(w, m - 1);
      ChunkOfTimes(w, m - 1, k - 1);
      var rest := Times(w, m - 1);
      assert (w + rest)[|w| * k..|w| * k + |w|] == rest[|w| * (k - 1)..|w| * (k - 1) + |w|];
    }
  }

  const SYLLABLES: seq<string> := ["ha", "he", "hi", "rs", "hue"]

  function WithoutSpaces(u: Unicode, s: string): string {
    if s == "" then "" else WithoutSpaces(u, s[..|s| - 1]) + (if u.space(Last(s)) then "" else [Last(s)])
  }

  function NoSpace(u: Unicode): char -> bool {
    (c: char) => !u.space(c)
  }

  /** Without its blanks a text keeps every other character, in order. */
  lemma {:induction false} WithoutSpacesIs(u: Unicode, s: string)
    ensures WithoutSpaces(u, s) == Filter(s, NoSpace(u))
    decreases |s|
  {
    hide Filter;
    if s == "" {
      FilterOne(' ', NoSpace(u));
    } else {
      var front, c := s[..|s| - 1], Last(s);
      FrontAndLast(s);
      WithoutSpacesIs(u, front);
      FilterConcat(front, [c], NoSpace(u));
      FilterOne(c, NoSpace(u));
    }
  }

  /** Laughter: three or more characters, all `k`, or one syllable repeated. */
  ghost predicate IsLaughter(compact: string) {
    |compact| >= 3 &&
    ((forall i :: 0 <= i < |compact| ==> compact[i] == 'k') ||
     exists j: nat, m: nat :: j < |SYLLABLES| && m >= 2 && compact == Times(SYLLABLES[j], m))
  }

  /** Two or more times one of the five syllables. */
  ghost predicate Repeats(compact: string) {
    exists syllable, m: nat ::
      syllable in {"ha", "he", "hi", "rs", "hue"} && m > 1 && compact == Times(syllable, m)
  }

  lemma LaughterIs(compact: string)
    ensures IsLaughter(compact) <==>
            |compact| > 2 && ((forall c :: c in compact ==> c == 'k') || Repeats(compact))
  {
    hide Times;
    assert (forall c :: c in compact ==> c == 'k') <==> (forall i :: 0 <= i < |compact| ==> compact[i] == 'k') by {
      assert forall i :: 0 <= i < |compact| ==> compact[i] in compact;
    }
    if j: nat, m: nat :| j < |SYLLABLES| && m > 1 && compact == Times(SYLLABLES[j], m) {
      SyllablesAre(SYLLABLES[j]);
      assert Repeats(compact);
    }
    if Repeats(compact) {
      var syllable, m: nat :|
        syllable in {"ha", "he", "hi", "rs", "hue"} && m > 1 && compact == Times(syllable, m);
      SyllablesAre(syllable);
      var j: nat :| j < |SYLLABLES| && SYLLABLES[j] == syllable;
      assert m >= 2 && compact == Times(SYLLABLES[j], m);
    }
  }

  lemma SyllablesAre(s: string)
    ensures s in SYLLABLES <==> s in {"ha", "he", "hi", "rs", "hue"}
  {
    assert SYLLABLES[0] == "ha" && SYLLABLES[1] == "he" && SYLLABLES[2] == "hi" && SYLLABLES[3] == "rs";
    assert SYLLABLES[4] == "hue";
  }

  method OnlyLaughter(u: Unicode, s: string) returns (r: bool)
    ensures r <==> IsLaughter(WithoutSpaces(u, s))
  {
    var compact := WithoutSpaces(u, s);
    if |compact| < 3 {
      return false;
    }
    if forall i :: 0 <= i < |compact| ==> compact[i] == 'k' {
      return true;
    }
    for j := 0 to |SYLLABLES|
      invariant forall i: nat, m: nat :: i < j && m >= 2 ==> compact != Times(SYLLABLES[i], m)
    {
      var w := SYLLABLES[j];
      SyllablesAreAscii(j);
      var repeated := AllChunksAre(Encoded(compact), Encoded(w));
      forall m: nat | m >= 2
        ensures Encoded(compact) == Times(Encoded(w), m) <==> compact == Times(w, m)
      {
        BytesDecideRepetition(compact, w, m);
      }
      if repeated {
        return true;
      }
      forall m: nat | m >= 2 ensures compact != Times(w, m) {
        assert Encoded(compact) != Times(Encoded(w), m);
      }
    }
    return false;
  }

  lemma SyllablesAreAscii(j: nat)
    requires j < |SYLLABLES|
    ensures Ascii(SYLLABLES[j]) && Encoded(SYLLABLES[j]) != []
  {
    assert SYLLABLES[j] != "";
  }

  // ------------------------------------------------------------ the policy

  class NoisePolicy {
    const u: Unicode
    const enabled: bool
    const minChars: nat
    const phrases: set<string>

    /**
     * Configured phrases add to the default ones. A content is a known phrase exactly
     * when it is not empty in normal form and some configured phrase has the same
     * normal form; so writing a configured phrase in any other way is noise too, and
     * an empty phrase swallows nothing.
     */
    constructor (u: Unicode, enabled: bool, minChars: nat, defaults: set<string>, extras: set<string>)
      ensures this.u == u && this.enabled == enabled && this.minChars == minChars
      ensures u.Sound() ==> forall p :: p in phrases ==> p != "" && Normal(u, p) == p
      ensures forall content :: Normal(u, content) in phrases <==>
                Normal(u, content) != "" && exists p :: p in defaults + extras && Normal(u, p) == Normal(u, content)
      ensures enabled ==> forall p, content :: p in defaults + extras && Normal(u, p) == Normal(u, content) ==>
              Noisy(content)
    {
      hide Normal;
      this.u, this.enabled, this.minChars := u, enabled, minChars;
      phrases := set p | p in defaults + extras && Normal(u, p) != "" :: Normal(u, p);
      new;
      if u.Sound() {
        forall p | p in phrases ensures p != "" && Normal(u, p) == p {
          var q :| q in defaults + extras && p == Normal(u, q) && p != "";
          NormalIsIdempotent(u, q);
        }
      }
    }

    /** What a disabled or enabled policy says about a content, in terms of its normal form. */
    ghost predicate Noisy(content: string) {
      var n := Normal(u, content);
      enabled && (n == "" || |n| < minChars || n in phrases || IsLaughter(WithoutSpaces(u, n)))
    }

    method IsNoise(content: string) returns (r: bool)
      ensures r == Noisy(content)
    {
      if !enabled {
        return false;
      }
      var n := Normalize(u, content);
      if n == "" || |n| < minChars || n in phrases {
        return true;
      }
      r := OnlyLaughter(u, n);
    }

    /** What is noise and what is not, case by case. */
    lemma NoiseIs(content: string)
      ensures !enabled ==> !Noisy(content)
      ensures enabled && |Normal(u, content)| == 0 ==> Noisy(content)
      ensures enabled && |Normal(u, content)| < minChars ==> Noisy(content)
      ensures enabled && Normal(u, content) in phrases ==> Noisy(content)
      ensures var compact := WithoutSpaces(u, Normal(u, content));
              enabled && |compact| > 2 && ((forall c :: c in compact ==> c == 'k') || Repeats(compact)) ==>
                  Noisy(content)
      ensures var n := Normal(u, content);
              var compact := WithoutSpaces(u, n);
              Noisy(content) && |n| > 0 && |n| >= minChars && n !in phrases ==>
                |compact| > 2 && ((forall c :: c in compact ==> c == 'k') || Repeats(compact))
    {
      hide Normal, Repeats, IsLaughter, WithoutSpaces;
      LaughterIs(WithoutSpaces(u, Normal(u, content)));
    }

    /** The verdict depends on the normal form alone, and is stable under normalising. */
    lemma NoisyIsStable(content: string)
      requires u.Sound()
      ensures Noisy(content) == Noisy(Normal(u, content))
    {
      NormalIsIdempotent(u, content);
    }
  }
}
