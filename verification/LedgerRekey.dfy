/** Renaming alert numbers in the suppression ledger by two-phase placeholder replacement. */
module LedgerRekey {
  import opened Prelude
  import opened Delimited
  import opened Numerals

  const NUL: char := '\0'

  /** Python's `str.replace`: every occurrence from left to right, never overlapping. */
  function Replace(t: string, find: string, put: string): string
    requires find != ""
    decreases |t|
  {
    var p := First(t, find);
    if p.None? then t else t[..p.value] + put + Replace(t[p.value + |find|..], find, put)
  }

  // ------------------------------------------------------------ numbers and tokens

  /** Characters that may follow the NUL of a placeholder. */
  predicate IsInner(c: char) {
    IsDigit(c) || 'A' <= c <= 'Z'
  }

  predicate StartsToken(c: char) {
    IsDigit(c) || c == NUL
  }

  function RunLength(t: string, p: char -> bool): (n: nat)
    ensures n <= |t| && (forall i :: 0 <= i < n ==> p(t[i])) && (n < |t| ==> !p(t[n]))
  {
    if t == "" || !p(t[0]) then 0 else 1 + RunLength(t[1..], p)
  }

  /**
   * The token at the front of a text: a maximal run of digits, or a NUL with the
   * characters of a placeholder and its closing NUL when there is one.
   */
  function Token(t: string): (x: string)
    ensures x <= t
    ensures x != "" <==> t != "" && StartsToken(t[0])
    ensures forall i :: 0 <= i < |x| ==> IsInner(x[i]) || x[i] == NUL
  {
    if t == "" then ""
    else if IsDigit(t[0]) then t[..RunLength(t, IsDigit)]
    else if t[0] == NUL then
      var n := 1 + RunLength(t[1..], IsInner);
      if n < |t| && t[n] == NUL then t[..n + 1] else t[..n]
    else ""
  }

  lemma RunIs(t: string, p: char -> bool, n: nat)
    requires n <= |t| && (forall i :: 0 <= i < n ==> p(t[i])) && (n < |t| ==> !p(t[n]))
    ensures RunLength(t, p) == n
  {
  }

  predicate IsNumber(x: string) {
    x != "" && forall i :: 0 <= i < |x| ==> IsDigit(x[i])
  }

  predicate IsPlaceholder(x: string) {
    |x| >= 2 && x[0] == NUL && x[|x| - 1] == NUL && forall i :: 1 <= i < |x| - 1 ==> IsInner(x[i])
  }

  /** A whole number or a whole placeholder. */
  predicate Proper(x: string) {
    IsNumber(x) || IsPlaceholder(x)
  }

  /** A proper token stays one token in front of any text that cannot extend it. */
  lemma {:induction false} TokenThen(x: string, r: string)
    requires Proper(x)
    requires r != "" ==> !StartsToken(r[0])
    ensures Token(x + r) == x
  {
    var t := x + r;
    if IsNumber(x) {
      RunIs(t, IsDigit, |x|);
      assert t[..|x|] == x;
    } else {
      RunIs(t[1..], IsInner, |x| - 2);
      assert t[..|x|] == x;
    }
  }

  /** What follows a token decides its extent only through its first character. */
  lemma {:induction false} TokenStable(t: string, r: string)
    requires t != "" && StartsToken(t[0])
    requires var rest := t[|Token(t)|..]; (rest == "") == (r == "") && (r != "" ==> r[0] == rest[0])
    ensures Token(Token(t) + r) == Token(t)
  {
    var x := Token(t);
    var u := x + r;
    if IsDigit(t[0]) {
      RunIs(u, IsDigit, |x|);
    } else {
      var v, m := u[1..], RunLength(t[1..], IsInner);
      assert forall i :: 0 <= i < m ==> v[i] == t[1..][i];
      if |x| == m + 1 && r != "" {
        assert v[m] == r[0] == t[1..][m];
      } else if |x| == m + 2 {
        assert v[m] == NUL;
      }
      RunIs(v, IsInner, m);
    }
    assert u[..|x|] == x;
  }

  // ------------------------------------------------------------ anchored patterns

  /** The fixed text around a number. */
  datatype Family = Family(before: string, after: string)

  const ROW_ANCHOR := Family("<a id=\"alert-", "\"></a>")
  const ROW_LINK := Family("(#alert-", ")")
  const ALERT_URL := Family("/code-scanning/", ")")
  const ALERT_LINK := Family("[#", "](https://github" + ".com/michelbr84" + "/GarraRUST/security" + "/code-scanning/")

  /** The four anchored patterns, in the order they are rewritten. */
  function Families(): (fs: seq<Family>)
    ensures |fs| == 4
  {
    [ROW_ANCHOR, ROW_LINK, ALERT_URL, ALERT_LINK]
  }

  /** The last characters of the texts before a number. */
  predicate IsTail(c: char) {
    c == '-' || c == '/' || c == '#'
  }

  /** A character no token can contain. */
  predicate IsPlain(c: char) {
    !IsInner(c) && c != NUL
  }

  predicate NulFree(s: string) {
    forall i :: 0 <= i < |s| ==> s[i] != NUL
  }

  /** Tokens inside a fixed text never follow a tail. */
  predicate Quiet(s: string) {
    forall i :: 1 <= i < |s| && StartsToken(s[i]) ==> !IsTail(s[i - 1])
  }

  /** The pair `h`, `k` occurs nowhere in the text. */
  predicate Without(s: string, h: char, k: char) {
    forall i :: 0 <= i < |s| - 1 ==> s[i] != h || s[i + 1] != k
  }

  /** The text before a number holds no token and looks like its own beginning only there. */
  predicate GoodBefore(s: string) {
    && |s| >= 2
    && (forall i :: 0 <= i < |s| ==> !StartsToken(s[i]))
    && IsTail(s[|s| - 1])
    && IsPlain(s[0])
    && (forall i :: 1 <= i < |s| - 1 ==> s[i] != s[0] || s[i + 1] != s[1])
  }

  /** The text after a number ends it, and does not end like the beginning of another pattern. */
  predicate GoodAfter(s: string, h: char, k: char) {
    && s != "" && IsPlain(s[0]) && IsPlain(s[|s| - 1]) && s[|s| - 1] != h
    && NulFree(s)
    && Quiet(s)
    && Without(s, h, k)
  }

  predicate WellFormed(f: Family) {
    GoodBefore(f.before) && GoodAfter(f.after, f.before[0], f.before[1])
  }

  lemma Glue(a: string, b: string, h: char, k: char)
    requires a != "" && b != "" && NulFree(a) && NulFree(b) && Quiet(a) && Quiet(b) && Without(a, h, k)
             && Without(b, h, k)
    requires IsTail(a[|a| - 1]) ==> !StartsToken(b[0])
    requires a[|a| - 1] != h
    ensures NulFree(a + b) && Quiet(a + b) && Without(a + b, h, k)
  {
  }

  lemma RowBeforesAreGood()
    ensures GoodBefore(ROW_ANCHOR.before)
    ensures GoodBefore(ROW_LINK.before)
  {
  }

  lemma UrlBeforesAreGood()
    ensures GoodBefore(ALERT_URL.before)
    ensures GoodBefore(ALERT_LINK.before)
  {
  }

  lemma ShortAftersAreGood()
    ensures GoodAfter(ROW_ANCHOR.after, '<', 'a') && GoodAfter(ROW_LINK.after, '(', '#')
    ensures GoodAfter(ALERT_URL.after, '/', 'c')
  {
  }

  /** A piece of the fixed text of a link. */
  predicate GoodPiece(s: string) {
    NulFree(s) && Quiet(s) && Without(s, '[', '#')
  }

  lemma HostFront()
    ensures GoodPiece("](https:")
  {
  }

  lemma HostBack()
    ensures GoodPiece("//github")
  {
  }

  lemma HostPiece()
    ensures GoodPiece("](https://github")
  {
    hide NulFree, Quiet, Without;
    HostFront();
    HostBack();
    assert "](https:"[7] == ':' && "](https:" + "//github" == "](https://github";
    Glue("](https:", "//github", '[', '#');
  }

  lemma OwnerFront()
    ensures GoodPiece(".com/mi")
  {
  }

  lemma OwnerBack()
    ensures GoodPiece("chelbr84")
  {
  }

  lemma OwnerPiece()
    ensures GoodPiece(".com/michelbr84")
  {
    hide NulFree, Quiet, Without;
    OwnerFront();
    OwnerBack();
    assert ".com/mi"[6] == 'i' && ".com/mi" + "chelbr84" == ".com/michelbr84";
    Glue(".com/mi", "chelbr84", '[', '#');
  }

  lemma RepositoryFront()
    ensures GoodPiece("/GarraRUST")
  {
  }

  lemma RepositoryBack()
    ensures GoodPiece("/security")
  {
  }

  lemma RepositoryPiece()
    ensures GoodPiece("/GarraRUST/security")
  {
    hide NulFree, Quiet, Without;
    RepositoryFront();
    RepositoryBack();
    assert "/GarraRUST"[9] == 'T' && "/GarraRUST" + "/security" == "/GarraRUST/security";
    Glue("/GarraRUST", "/security", '[', '#');
  }

  lemma ScanningFront()
    ensures GoodPiece("/code-sc")
  {
  }

  lemma ScanningBack()
    ensures GoodPiece("anning/")
  {
  }

  lemma ScanningPiece()
    ensures GoodPiece("/code-scanning/")
  {
    hide NulFree, Quiet, Without;
    ScanningFront();
    ScanningBack();
    assert "/code-sc"[7] == 'c' && "/code-sc" + "anning/" == "/code-scanning/";
    Glue("/code-sc", "anning/", '[', '#');
  }

  lemma LinkAfterIsGood()
    ensures GoodAfter(ALERT_LINK.after, '[', '#')
  {
    hide NulFree, Quiet, Without;
    HostPiece();
    OwnerPiece();
    RepositoryPiece();
    ScanningPiece();
    var a, b, c, d := "](https://github", ".com/michelbr84", "/GarraRUST/security", "/code-scanning/";
    assert a[|a| - 1] == 'b' && b[|b| - 1] == '4' && c[|c| - 1] == 'y';
    Glue(a, b, '[', '#');
    assert (a + b)[|a + b| - 1] == '4';
    Glue(a + b, c, '[', '#');
    assert (a + b + c)[|a + b + c| - 1] == 'y';
    Glue(a + b + c, d, '[', '#');
    assert ALERT_LINK.after == a + b + c + d;
    assert ALERT_LINK.after[0] == a[0] == ']';
  }

  lemma FamiliesAreWellFormed(i: nat)
    requires i < |Families()|
    ensures WellFormed(Families()[i])
  {
    RowBeforesAreGood();
    UrlBeforesAreGood();
    ShortAftersAreGood();
    LinkAfterIsGood();
    assert i == 0 || i == 1 || i == 2 || i == 3;
  }

  // ------------------------------------------------------------ edits

  predicate EndsWith(l: string, p: string) {
    |p| <= |l| && l[|l| - |p|..] == p
  }

  /** A number between `l` and `r` stands in one of the fixed patterns. */
  predicate Anchored(families: seq<Family>, l: string, r: string) {
    exists i :: 0 <= i < |families| && EndsWith(l, families[i].before) && families[i].after <= r
  }

  /** A renaming of the tokens anchored by some families, or one edit after another. */
  datatype Edit = Rule(families: seq<Family>, rename: map<string, string>) | Then(first: Edit, second: Edit)
  {
    ghost predicate Good() {
      match this
      case Rule(fs, m) => (forall i :: 0 <= i < |fs| ==> WellFormed(fs[i]))
                          && (forall x :: x in m ==> Proper(x) && Proper(m[x]))
      case Then(a, b) => a.Good() && b.Good()
    }

    /** What becomes of the token `x` between `l` and `r`. */
    function Out(l: string, x: string, r: string): string {
      match this
      case Rule(fs, m) => if x in m && Anchored(fs, l, r) then m[x] else x
      case Then(a, b) => b.Out(l, a.Out(l, x, r), r)
    }
  }

  /**
   * The simultaneous edit: one pass from left to right over the tokens of a text,
   * deciding each from the original text around it and copying everything else.
   */
  function Edited(e: Edit, l: string, t: string): string
    decreases |t|
  {
    if t == "" then ""
    else
      var x := Token(t);
      if x == "" then [t[0]] + Edited(e, l + [t[0]], t[1..])
      else e.Out(l, x, t[|x|..]) + Edited(e, l + x, t[|x|..])
  }

  /** Only whole tokens after a tail and before plain text are ever changed. */
  lemma {:induction false} OutChanges(e: Edit, l: string, x: string, r: string)
    requires e.Good() && e.Out(l, x, r) != x
    ensures Proper(x) && Proper(e.Out(l, x, r))
    ensures l != "" && IsTail(Last(l)) && r != "" && IsPlain(r[0])
  {
    match e
    case Rule(fs, m) =>
      var i :| 0 <= i < |fs| && EndsWith(l, fs[i].before) && fs[i].after <= r;
      assert WellFormed(fs[i]);
      assert Last(l) == Last(fs[i].before) && r[0] == fs[i].after[0];
    case Then(a, b) =>
      var y := a.Out(l, x, r);
      if y != x { OutChanges(a, l, x, r); }
      if b.Out(l, y, r) != y { OutChanges(b, l, y, r); }
  }

  lemma ProperStarts(x: string)
    requires Proper(x)
    ensures x != "" && StartsToken(x[0]) && StartsToken(Last(x))
  {
  }

  /** Away from a tail the first character of what follows is kept. */
  lemma {:induction false} FirstKept(e: Edit, l: string, t: string)
    requires e.Good() && (l == "" || !IsTail(Last(l)))
    ensures (Edited(e, l, t) == "") == (t == "")
    ensures t != "" ==> Edited(e, l, t)[0] == t[0]
  {
    if t != "" && Token(t) != "" {
      var x := Token(t);
      if e.Out(l, x, t[|x|..]) != x { OutChanges(e, l, x, t[|x|..]); }
    }
  }

  /** At least the kind of the first character is kept anywhere. */
  lemma {:induction false} FirstKindKept(e: Edit, l: string, t: string)
    requires e.Good() && t != ""
    ensures var u := Edited(e, l, t);
            u != "" && (if StartsToken(t[0]) then StartsToken(u[0]) else u[0] == t[0])
  {
    var x := Token(t);
    if x != "" && e.Out(l, x, t[|x|..]) != x {
      OutChanges(e, l, x, t[|x|..]);
      ProperStarts(e.Out(l, x, t[|x|..]));
    }
  }

  lemma {:induction false} NumberPrefix(z: string, s: string, x: string, r: string)
    requires IsNumber(z) && IsNumber(x)
    requires s != "" && !IsDigit(s[0])
    requires r != "" ==> !IsDigit(r[0])
    ensures z + s <= x + r <==> z == x && s <= r
  {
    if z + s <= x + r {
      var n := Min(|z|, |x|);
      if n < |x + r| {
        assert (x + r)[n] == (z + s)[n];
      }
      assert z == (x + r)[..|z|];
      assert x == (x + r)[..|x|];
      assert (x + r)[|x|..] == r && (z + s)[|z|..] == s;
    }
  }

  lemma NumberToken(t: string)
    requires t != "" && IsDigit(t[0])
    ensures IsNumber(Token(t)) && (t[|Token(t)|..] != "" ==> !IsDigit(t[|Token(t)|..][0]))
  {
  }

  lemma QuietTail(s: string, n: nat)
    requires Quiet(s) && NulFree(s) && n < |s|
    ensures Quiet(s[n..]) && NulFree(s[n..])
  {
  }

  /** A fixed text, or what is left of one after matching its beginning. */
  predicate Fixed(s: string) {
    NulFree(s) && Quiet(s) && (s != "" ==> IsPlain(s[|s| - 1]))
  }

  /** A number at the front of `s` would not follow a tail. */
  predicate Meets(l: string, s: string) {
    s != "" && StartsToken(s[0]) ==> l != "" && !IsTail(Last(l))
  }

  lemma TokenCut(t: string)
    ensures t == Token(t) + t[|Token(t)|..]
  {
  }

  lemma RestIsFixed(s: string, l: string)
    requires Fixed(s) && s != "" && IsDigit(s[0])
    ensures var s' := s[|Token(s)|..]; Fixed(s') && Meets(l, s') && s' != "" && |s'| < |s|
  {
    NumberToken(s);
    var n := |Token(s)|;
    assert n < |s|;
    QuietTail(s, n);
    assert s[n..][|s| - n - 1] == s[|s| - 1];
  }

  /** A fixed text that starts with a number: the edit leaves the number facing it alone. */
  lemma {:induction false} KeepsNumber(e: Edit, l: string, r: string, s: string)
    requires e.Good() && Fixed(s) && Meets(l, s)
    requires s != "" && r != "" && IsDigit(s[0]) && IsDigit(r[0])
    ensures var x := Token(r);
            var s', r' := s[|Token(s)|..], r[|x|..];
            && Fixed(s') && Meets(l + x, s') && |s'| < |s|
            && (s <= r <==> Token(s) == x && s' <= r')
            && (s <= Edited(e, l, r) <==> Token(s) == x && s' <= Edited(e, l + x, r'))
  {
    var z, x := Token(s), Token(r);
    NumberToken(s);
    NumberToken(r);
    var s', r' := s[|z|..], r[|x|..];
    RestIsFixed(s, l + x);
    if e.Out(l, x, r') != x { OutChanges(e, l, x, r'); }
    FirstKept(e, l + x, r');
    NumberPrefix(z, s', x, r');
    NumberPrefix(z, s', x, Edited(e, l + x, r'));
    TokenCut(s);
    TokenCut(r);
  }

  lemma {:induction false} KeepsPlain(e: Edit, l: string, r: string, s: string)
    requires e.Good() && Fixed(s) && Meets(l, s)
    requires s != "" && r != "" && !StartsToken(r[0]) && r[0] == s[0]
    ensures Fixed(s[1..]) && Meets(l + [r[0]], s[1..])
    ensures s <= r <==> s[1..] <= r[1..]
    ensures s <= Edited(e, l, r) <==> s[1..] <= Edited(e, l + [r[0]], r[1..])
  {
    var rest := Edited(e, l + [r[0]], r[1..]);
    assert Edited(e, l, r) == [r[0]] + rest;
    assert s <= [r[0]] + rest <==> s[1..] <= rest;
  }

  lemma {:induction false} KeepsMismatch(e: Edit, l: string, r: string, s: string)
    requires e.Good() && Fixed(s) && Meets(l, s)
    requires s != "" && (r == "" || (if StartsToken(s[0]) then !IsDigit(r[0]) else r[0] != s[0]))
    ensures !(s <= r) && !(s <= Edited(e, l, r))
  {
    if r != "" {
      FirstKindKept(e, l, r);
      if StartsToken(s[0]) { FirstKept(e, l, r); }
    }
  }

  /** Editing neither creates nor destroys a fixed text at the front. */
  lemma {:induction false} KeepsPrefix(e: Edit, l: string, r: string, s: string)
    requires e.Good() && Fixed(s) && Meets(l, s)
    ensures s <= Edited(e, l, r) <==> s <= r
    decreases |s|
  {
    if s == "" {
    } else if r != "" && StartsToken(s[0]) && IsDigit(r[0]) {
      KeepsNumber(e, l, r, s);
      KeepsPrefix(e, l + Token(r), r[|Token(r)|..], s[|Token(s)|..]);
    } else if r != "" && !StartsToken(s[0]) && r[0] == s[0] {
      KeepsPlain(e, l, r, s);
      KeepsPrefix(e, l + [r[0]], r[1..], s[1..]);
    } else {
      KeepsMismatch(e, l, r, s);
    }
  }

  // ------------------------------------------------------------ composition

  /** The longest end of a text without token characters. */
  function Gap(l: string): string {
    if l == "" || StartsToken(Last(l)) then "" else Gap(l[..|l| - 1]) + [Last(l)]
  }

  lemma {:induction false} EndsInGap(l: string, p: string)
    requires forall i :: 0 <= i < |p| ==> !StartsToken(p[i])
    ensures EndsWith(l, p) <==> EndsWith(Gap(l), p)
    decreases |p|
  {
    if p != "" && l != "" && !StartsToken(Last(l)) {
      var m := l[..|l| - 1];
      var q := p[..|p| - 1];
      EndsInGap(m, q);
      EndsWithLast(l, p);
      EndsWithLast(Gap(l), p);
      assert Gap(l)[..|Gap(l)| - 1] == Gap(m);
    } else if p != "" && l != "" {
      assert EndsWith(l, p) ==> l[|l| - |p|..][|p| - 1] == p[|p| - 1];
    }
  }

  lemma EndsWithLast(l: string, p: string)
    requires l != "" && p != ""
    ensures EndsWith(l, p) <==> Last(l) == Last(p) && EndsWith(l[..|l| - 1], p[..|p| - 1])
  {
    var m, q := l[..|l| - 1], p[..|p| - 1];
    if |p| <= |l| {
      assert l[|l| - |p|..] == m[|m| - |q|..] + [Last(l)];
      assert p == q + [Last(p)];
      assert m[|m| - |q|..] + [Last(l)] == q + [Last(p)] ==>
             (m[|m| - |q|..] + [Last(l)])[..|q|] == q && (m[|m| - |q|..] + [Last(l)])[|q|] == Last(p);
    }
  }

  lemma {:induction false} GapOfAppend(l: string, l': string, s: string)
    requires Gap(l) == Gap(l')
    ensures Gap(l + s) == Gap(l' + s)
    decreases |s|
  {
    if s == "" {
      assert l + s == l && l' + s == l';
    } else {
      var front := s[..|s| - 1];
      GapOfAppend(l, l', front);
      assert (l + s)[..|l + s| - 1] == l + front && (l' + s)[..|l' + s| - 1] == l' + front;
    }
  }

  /** Both texts show the same fixed texts at their front. */
  ghost predicate SameStarts(r: string, r': string) {
    forall f: Family :: WellFormed(f) ==> (f.after <= r <==> f.after <= r')
  }

  lemma {:induction false} OutStable(e: Edit, l: string, l': string, x: string, r: string, r': string)
    requires e.Good() && Gap(l) == Gap(l') && SameStarts(r, r')
    ensures e.Out(l, x, r) == e.Out(l', x, r')
  {
    match e
    case Rule(fs, m) =>
      forall i | 0 <= i < |fs|
        ensures EndsWith(l, fs[i].before) == EndsWith(l', fs[i].before)
        ensures fs[i].after <= r <==> fs[i].after <= r'
      {
        assert WellFormed(fs[i]);
        EndsInGap(l, fs[i].before);
        EndsInGap(l', fs[i].before);
      }
    case Then(a, b) =>
      OutStable(a, l, l', x, r, r');
      OutStable(b, l, l', a.Out(l, x, r), r, r');
  }

  lemma AfterIsFixed(f: Family, l: string)
    requires WellFormed(f)
    ensures Fixed(f.after) && Meets(l, f.after)
  {
  }

  lemma {:induction false} EditKeepsStarts(e: Edit, l: string, r: string)
    requires e.Good()
    ensures SameStarts(r, Edited(e, l, r))
  {
    forall f: Family | WellFormed(f) ensures f.after <= r <==> f.after <= Edited(e, l, r) {
      AfterIsFixed(f, l);
      KeepsPrefix(e, l, r, f.after);
    }
  }

  /** An edited token is still one token, and leaves the same gap behind. */
  lemma {:induction false} EditedToken(e: Edit, l: string, l': string, t: string)
    requires e.Good() && t != "" && StartsToken(t[0]) && Gap(l) == Gap(l')
    ensures var x := Token(t);
            var r := t[|x|..];
            var y, rest := e.Out(l, x, r), Edited(e, l + x, r);
            Token(y + rest) == y != "" && Gap(l + x) == Gap(l' + y)
  {
    var x := Token(t);
    var r := t[|x|..];
    TokenEndsPlainly(t);
    FirstKept(e, l + x, r);
    if e.Out(l, x, r) != x {
      OutChanges(e, l, x, r);
      ChangedToken(x, e.Out(l, x, r), l, l', Edited(e, l + x, r));
    } else {
      TokenStable(t, Edited(e, l + x, r));
      GapOfAppend(l, l', x);
    }
  }

  lemma ChangedToken(x: string, y: string, l: string, l': string, rest: string)
    requires Proper(x) && Proper(y) && (rest != "" ==> !StartsToken(rest[0]))
    ensures Token(y + rest) == y != "" && Gap(l + x) == Gap(l' + y) == ""
  {
    TokenThen(y, rest);
    ProperStarts(x);
    ProperStarts(y);
    assert Last(l + x) == Last(x) && Last(l' + y) == Last(y);
  }

  lemma TokenEndsPlainly(t: string)
    requires t != "" && StartsToken(t[0])
    ensures Token(t) != "" && !IsTail(Last(Token(t)))
  {
    assert IsInner(Last(Token(t))) || Last(Token(t)) == NUL;
  }

  /** One pass after another is one pass: each token is decided by its original surroundings. */
  lemma {:induction false} Compose(a: Edit, b: Edit, l: string, l': string, t: string)
    requires a.Good() && b.Good() && Gap(l) == Gap(l')
    ensures Edited(b, l', Edited(a, l, t)) == Edited(Then(a, b), l, t)
    decreases |t|
  {
    if t != "" {
      var x := Token(t);
      if x == "" {
        var rest := Edited(a, l + [t[0]], t[1..]);
        assert ([t[0]] + rest)[1..] == rest;
        GapOfAppend(l, l', [t[0]]);
        Compose(a, b, l + [t[0]], l' + [t[0]], t[1..]);
      } else {
        var r := t[|x|..];
        var y, rest := a.Out(l, x, r), Edited(a, l + x, r);
        EditedToken(a, l, l', t);
        EditKeepsStarts(a, l + x, r);
        OutStable(b, l, l', y, r, rest);
        assert (y + rest)[|y|..] == rest;
        Compose(a, b, l + x, l' + y, r);
      }
    }
  }

  /** Edits that agree on numbers agree on text without placeholders. */
  lemma {:induction false} SameEdit(a: Edit, b: Edit, l: string, t: string)
    requires NulFree(t)
    requires forall l: string, x: string, r: string :: IsNumber(x) ==> a.Out(l, x, r) == b.Out(l, x, r)
    ensures Edited(a, l, t) == Edited(b, l, t)
    decreases |t|
  {
    if t != "" {
      var x := Token(t);
      if x == "" {
        SameEdit(a, b, l + [t[0]], t[1..]);
      } else {
        NumberToken(t);
        SameEdit(a, b, l + x, t[|x|..]);
      }
    }
  }

  // ------------------------------------------------------------ one replacement

  function Pattern(f: Family, x: string): string {
    f.before + x + f.after
  }

  lemma {:induction false} ReplaceHit(t: string, find: string, put: string)
    requires find != "" && OccursAt(t, find, 0)
    ensures Replace(t, find, put) == put + Replace(t[|find|..], find, put)
  {
    FirstIs(t, find, 0);
    assert t[..0] + put == put;
  }

  lemma {:induction false} FirstShifts(t: string, n: nat, find: string)
    requires n <= |t| && forall p :: 0 <= p < n ==> !OccursAt(t, find, p)
    ensures First(t[n..], find).None? ==> First(t, find).None?
    ensures First(t[n..], find).Some? ==> First(t, find) == Some(n + First(t[n..], find).value)
  {
    hide First, OccursAt;
    var u := t[n..];
    FirstIsLeftmost(t, find);
    FirstIsLeftmost(u, find);
    if First(t, find).Some? {
      OccursInSuffix(t, n, find, First(t, find).value - n);
    }
    if First(u, find).Some? {
      var q := First(u, find).value;
      OccursInSuffix(t, n, find, q);
      forall p: nat | p < n + q ensures !OccursAt(t, find, p) {
        if p >= n { OccursInSuffix(t, n, find, p - n); }
      }
      FirstIs(t, find, n + q);
    }
  }

  lemma OccursInSuffix(t: string, n: nat, find: string, p: nat)
    requires n <= |t|
    ensures OccursAt(t, find, n + p) <==> OccursAt(t[n..], find, p)
  {
    if n + p + |find| <= |t| { assert t[n..][p..p + |find|] == t[n + p..n + p + |find|]; }
  }

  lemma {:induction false} ReplaceMiss(t: string, n: nat, find: string, put: string)
    requires find != "" && n <= |t| && forall p :: 0 <= p < n ==> !OccursAt(t, find, p)
    ensures Replace(t, find, put) == t[..n] + Replace(t[n..], find, put)
  {
    var u := t[n..];
    FirstShifts(t, n, find);
    if First(u, find).Some? {
      MissThenHit(t, n, First(u, find).value, find, put);
    } else {
      CutAt(t, n);
    }
  }

  lemma MissThenHit(t: string, n: nat, p: nat, find: string, put: string)
    requires find != "" && n <= |t| && First(t[n..], find) == Some(p) && First(t, find) == Some(n + p)
    ensures Replace(t, find, put) == t[..n] + Replace(t[n..], find, put)
  {
    hide First, Replace;
    ReplaceFirst(t, n + p, find, put);
    ReplaceFirst(t[n..], p, find, put);
    CutTwice(t, n, p, |find|);
    FourParts(t[..n], t[n..][..p], put, Replace(t[n..][p + |find|..], find, put));
  }

  lemma ReplaceFirst(t: string, p: nat, find: string, put: string)
    requires find != "" && First(t, find) == Some(p)
    ensures Replace(t, find, put) == t[..p] + put + Replace(t[p + |find|..], find, put)
  {
    hide First, OccursAt;
  }

  lemma CutTwice(t: string, n: nat, p: nat, k: nat)
    requires n + p + k <= |t|
    ensures t[n + p + k..] == t[n..][p + k..]
    ensures t[..n + p] == t[..n] + t[n..][..p]
  {
  }

  lemma CutAt(t: string, n: nat)
    requires n <= |t|
    ensures t == t[..n] + t[n..]
  {
  }

  lemma FourParts(a: string, b: string, c: string, d: string)
    ensures (a + b) + c + d == a + (b + c + d)
  {
  }

  /** Patterns of one family never overlap, whatever tokens they hold. */
  lemma {:induction false} NoOverlap(f: Family, x: string, w: string, p: nat, q: nat)
    requires WellFormed(f) && Proper(x)
    requires OccursAt(w, Pattern(f, x), p) && OccursAt(w, Pattern(f, x), q) && p < q
    ensures p + |Pattern(f, x)| <= q
  {
    var pat := Pattern(f, x);
    var d := q - p;
    if d < |pat| {
      assert w[q] == w[q..q + |pat|][0] == pat[0] == f.before[0];
      assert w[q] == w[p..p + |pat|][d] == pat[d];
      assert w[q + 1] == w[q..q + |pat|][1] == pat[1] == f.before[1];
      HeadOnlyFirst(f, x, d);
    }
  }

  lemma {:induction false} HeadOnlyFirst(f: Family, x: string, d: nat)
    requires WellFormed(f) && Proper(x) && 1 <= d < |Pattern(f, x)|
    ensures var pat := Pattern(f, x);
            pat[d] != f.before[0] || (d + 1 < |pat| && pat[d + 1] != f.before[1])
  {
    var pat := Pattern(f, x);
    var n, m := |f.before|, |f.before| + |x|;
    ProperStarts(x);
    if d < n {
      assert pat[d] == f.before[d];
      assert pat[d + 1] == if d + 1 < n then f.before[d + 1] else x[0];
    } else if d < m {
      assert pat[d] == x[d - n] && (IsInner(x[d - n]) || x[d - n] == NUL);
    } else {
      assert pat[d] == f.after[d - m];
      if d + 1 < |pat| { assert pat[d + 1] == f.after[d + 1 - m]; }
    }
  }

  lemma EditedStep(e: Edit, l: string, t: string)
    requires t != ""
    ensures var x := Token(t);
            Edited(e, l, t) == if x == "" then [t[0]] + Edited(e, l + [t[0]], t[1..])
                               else e.Out(l, x, t[|x|..]) + Edited(e, l + x, t[|x|..])
  {
    hide Token;
  }

  /** A fixed text passes through any edit unchanged. */
  lemma {:induction false} Passes(e: Edit, l: string, s: string, r: string)
    requires e.Good() && Fixed(s) && Meets(l, s)
    ensures Edited(e, l, s + r) == s + Edited(e, l + s, r)
    decreases |s|
  {
    hide Edited, Token;
    if s == "" {
      assert s + r == r && l + s == l;
    } else if StartsToken(s[0]) {
      var x := Token(s);
      RestIsFixed(s, l + x);
      PassesToken(e, l, s, r);
      Passes(e, l + x, s[|x|..], r);
      TokenCut(s);
      Rejoin(e, l, x, s[|x|..], r);
    } else {
      RestAfterPlain(s, l);
      PassesPlain(e, l, s, r);
      Passes(e, l + [s[0]], s[1..], r);
      assert [s[0]] + s[1..] == s;
      Rejoin(e, l, [s[0]], s[1..], r);
    }
  }

  lemma Rejoin(e: Edit, l: string, a: string, b: string, r: string)
    ensures a + (b + Edited(e, l + a + b, r)) == (a + b) + Edited(e, l + (a + b), r)
  {
    hide Edited;
    assert l + a + b == l + (a + b);
  }

  lemma PassesPlain(e: Edit, l: string, s: string, r: string)
    requires s != "" && !StartsToken(s[0])
    ensures Edited(e, l, s + r) == [s[0]] + Edited(e, l + [s[0]], s[1..] + r)
  {
    assert (s + r)[1..] == s[1..] + r;
  }

  lemma PassesToken(e: Edit, l: string, s: string, r: string)
    requires e.Good() && Fixed(s) && Meets(l, s) && s != "" && StartsToken(s[0])
    ensures var x := Token(s);
            Edited(e, l, s + r) == x + Edited(e, l + x, s[|x|..] + r)
  {
    hide Edited, Token, Quiet, NulFree;
    FirstIsDigit(s);
    TokenOfFixed(s, l, r);
    EditedStep(e, l, s + r);
    KeptWithoutTail(e, l, Token(s), s[|Token(s)|..] + r);
  }

  lemma FirstIsDigit(s: string)
    requires NulFree(s) && s != "" && StartsToken(s[0])
    ensures IsDigit(s[0])
  {
  }

  /** The number at the front of a fixed text is a token whatever follows the text. */
  lemma TokenOfFixed(s: string, l: string, r: string)
    requires Fixed(s) && s != "" && IsDigit(s[0])
    ensures var x := Token(s);
            x != "" && s + r != "" && Token(s + r) == x && (s + r)[|x|..] == s[|x|..] + r
  {
    var x := Token(s);
    RestIsFixed(s, l);
    TokenCut(s);
    TokenStable(s, s[|x|..] + r);
    hide Token;
    Reassociated(x, s[|x|..], r);
  }

  lemma Reassociated(a: string, b: string, c: string)
    ensures (a + b) + c == a + (b + c)
    ensures ((a + b) + c)[|a|..] == b + c
  {
  }

  lemma KeptWithoutTail(e: Edit, l: string, x: string, r: string)
    requires e.Good()
    ensures l == "" || !IsTail(Last(l)) ==> e.Out(l, x, r) == x
  {
    if e.Out(l, x, r) != x { OutChanges(e, l, x, r); }
  }

  lemma RestAfterPlain(s: string, l: string)
    requires Fixed(s) && s != "" && !StartsToken(s[0])
    ensures Fixed(s[1..]) && Meets(l + [s[0]], s[1..])
  {
  }

  lemma BeforeIsFixed(f: Family, l: string)
    requires WellFormed(f)
    ensures Fixed(f.before) && Meets(l, f.before)
  {
  }

  lemma OutAtPattern(f: Family, x: string, y: string, l: string, r: string)
    ensures Rule([f], map[x := y]).Out(l + f.before, x, f.after + r) == y
  {
    var fs := [f];
    assert fs[0] == f;
    assert (l + f.before)[|l|..] == f.before;
    assert EndsWith(l + f.before, fs[0].before) && fs[0].after <= f.after + r;
  }

  /** The edit, at a pattern: the fixed texts are copied and the number renamed. */
  lemma {:induction false} EditHit(f: Family, x: string, y: string, l: string, r: string)
    requires WellFormed(f) && Proper(x) && Proper(y)
    ensures var e := Rule([f], map[x := y]);
            Edited(e, l, Pattern(f, x) + r) == Pattern(f, y) + Edited(e, l + Pattern(f, x), r)
  {
    hide Edited, Fixed, Meets, WellFormed, Proper;
    var e := Rule([f], map[x := y]);
    BeforeIsFixed(f, l);
    Passes(e, l, f.before, x + (f.after + r));
    EditAtToken(f, x, y, l + f.before, r);
    OutAtPattern(f, x, y, l, r);
    AfterIsFixed(f, l + f.before + x);
    Passes(e, l + f.before + x, f.after, r);
    Regroup(f.before, x, f.after, r);
    Regroup(f.before, y, f.after, Edited(e, l + Pattern(f, x), r));
    assert l + f.before + x + f.after == l + Pattern(f, x);
  }

  lemma EditAtToken(f: Family, x: string, y: string, l: string, r: string)
    requires WellFormed(f) && Proper(x)
    ensures var e := Rule([f], map[x := y]);
            Edited(e, l, x + (f.after + r)) == e.Out(l, x, f.after + r) + Edited(e, l + x, f.after + r)
  {
    var t := x + (f.after + r);
    ProperStarts(x);
    TokenThen(x, f.after + r);
    assert t[|x|..] == f.after + r;
  }

  lemma Regroup(a: string, b: string, c: string, d: string)
    ensures (a + b + c) + d == a + (b + (c + d))
  {
  }

  /** A token that no pattern ending later covers is left alone. */
  lemma {:induction false} UntouchedToken(f: Family, x: string, y: string, w: string, i: nat)
    requires WellFormed(f) && i < |w| && StartsToken(w[i])
    requires forall p :: 0 <= p < i && OccursAt(w, Pattern(f, x), p) ==> p + |Pattern(f, x)| <= i
    ensures var z := Token(w[i..]);
            Rule([f], map[x := y]).Out(w[..i], z, w[i..][|z|..]) == z
  {
    var e, t := Rule([f], map[x := y]), w[i..];
    var z := Token(t);
    var fs := [f];
    if e.Out(w[..i], z, t[|z|..]) != z {
      var k :| 0 <= k < |fs| && EndsWith(w[..i], fs[k].before) && fs[k].after <= t[|z|..];
      PatternAround(f, w, i, z);
      assert false;
    }
  }

  lemma PatternAround(f: Family, w: string, i: nat, z: string)
    requires i <= |w| && z <= w[i..] && EndsWith(w[..i], f.before) && f.after <= w[i..][|z|..]
    ensures OccursAt(w, Pattern(f, z), i - |f.before|)
  {
    var a, b, c := i - |f.before|, i + |z|, i + |z| + |f.after|;
    assert w[a..i] == f.before && w[i..b] == z;
    assert w[b..c] == w[i..][|z|..][..|f.after|] == f.after;
    ThreeParts(w, a, i, b, c);
  }

  lemma ThreeParts(w: string, a: nat, i: nat, b: nat, c: nat)
    requires a <= i <= b <= c <= |w|
    ensures w[a..c] == w[a..i] + w[i..b] + w[b..c]
  {
  }

  lemma Advance(w: string, i: nat, n: nat)
    requires i + n <= |w|
    ensures w[..i + n] == w[..i] + w[i..][..n]
    ensures w[i..][n..] == w[i + n..]
  {
  }

  /** From position `i` on, the edit and the replacement of one number give the same text. */
  ghost predicate Agree(f: Family, x: string, y: string, w: string, i: nat)
    requires i <= |w| && |f.before| > 0
  {
    Edited(Rule([f], map[x := y]), w[..i], w[i..]) == Replace(w[i..], Pattern(f, x), Pattern(f, y))
  }

  /** Python's replacement of one number in one pattern is the simultaneous edit for that number. */
  lemma {:induction false} ReplaceIsEdit(f: Family, x: string, y: string, w: string, i: nat)
    requires WellFormed(f) && Proper(x) && Proper(y) && i <= |w|
    requires forall p :: 0 <= p < i && OccursAt(w, Pattern(f, x), p) ==> p + |Pattern(f, x)| <= i
    ensures Agree(f, x, y, w, i)
    decreases |w| - i
  {
    hide Edited, Replace;
    var pat := Pattern(f, x);
    if OccursAt(w, pat, i) {
      PastPattern(f, x, w, i);
      ReplaceIsEdit(f, x, y, w, i + |pat|);
      AgreeAtPattern(f, x, y, w, i);
    } else if i == |w| {
      AgreeAtEnd(f, x, y, w);
    } else {
      var z := Token(w[i..]);
      var n := if z == "" then 1 else |z|;
      NoPatternInside(f, x, w, i, n);
      if z != "" { UntouchedToken(f, x, y, w, i); }
      ReplaceIsEdit(f, x, y, w, i + n);
      AgreeElsewhere(f, x, y, w, i, n);
    }
  }

  lemma AgreeAtEnd(f: Family, x: string, y: string, w: string)
    requires WellFormed(f)
    ensures Agree(f, x, y, w, |w|)
  {
    FirstIsLeftmost("", Pattern(f, x));
  }

  lemma AgreeAtPattern(f: Family, x: string, y: string, w: string, i: nat)
    requires WellFormed(f) && Proper(x) && Proper(y) && OccursAt(w, Pattern(f, x), i)
    requires Agree(f, x, y, w, i + |Pattern(f, x)|)
    ensures Agree(f, x, y, w, i)
  {
    hide Edited, Token, Replace;
    EditStep(f, x, y, w, i);
    ReplaceStep(w, i, Pattern(f, x), Pattern(f, y));
  }

  lemma AgreeElsewhere(f: Family, x: string, y: string, w: string, i: nat, n: nat)
    requires WellFormed(f) && i < |w|
    requires forall p :: 0 <= p < n ==> !OccursAt(w[i..], Pattern(f, x), p)
    requires var z := Token(w[i..]);
             n == (if z == "" then 1 else |z|) &&
             (z != "" ==> Rule([f], map[x := y]).Out(w[..i], z, w[i..][|z|..]) == z)
    requires Agree(f, x, y, w, i + n)
    ensures Agree(f, x, y, w, i)
  {
    ReplaceMiss(w[i..], n, Pattern(f, x), Pattern(f, y));
    Advance(w, i, n);
    CopyStep(Rule([f], map[x := y]), w, i, n);
  }

  lemma PastPattern(f: Family, x: string, w: string, i: nat)
    requires WellFormed(f) && Proper(x) && OccursAt(w, Pattern(f, x), i)
    requires forall p :: 0 <= p < i && OccursAt(w, Pattern(f, x), p) ==> p + |Pattern(f, x)| <= i
    ensures var j := i + |Pattern(f, x)|;
            forall p :: 0 <= p < j && OccursAt(w, Pattern(f, x), p) ==> p + |Pattern(f, x)| <= j
  {
    var j := i + |Pattern(f, x)|;
    forall p | 0 <= p < j && OccursAt(w, Pattern(f, x), p) ensures p + |Pattern(f, x)| <= j {
      if i < p { NoOverlap(f, x, w, i, p); }
    }
  }

  lemma CopyStep(e: Edit, w: string, i: nat, n: nat)
    requires i < |w|
    requires var z := Token(w[i..]);
             n == (if z == "" then 1 else |z|) && (z != "" ==> e.Out(w[..i], z, w[i..][|z|..]) == z)
    ensures Edited(e, w[..i], w[i..]) == w[i..][..n] + Edited(e, w[..i + n], w[i + n..])
  {
    hide Token, RunLength, Edit.Out;
    var l, t := w[..i], w[i..];
    var z := Token(t);
    Advance(w, i, n);
    assert t[..n] == if z == "" then [t[0]] else z;
    if z == "" {
      assert Edited(e, l, t) == [t[0]] + Edited(e, l + [t[0]], t[1..]);
    } else {
      assert Edited(e, l, t) == z + Edited(e, l + z, t[n..]);
    }
  }

  lemma EditStep(f: Family, x: string, y: string, w: string, i: nat)
    requires WellFormed(f) && Proper(x) && Proper(y) && OccursAt(w, Pattern(f, x), i)
    ensures var e, j := Rule([f], map[x := y]), i + |Pattern(f, x)|;
            Edited(e, w[..i], w[i..]) == Pattern(f, y) + Edited(e, w[..j], w[j..])
  {
    hide Edited, Token;
    var pat := Pattern(f, x);
    PatternFirst(w, pat, i);
    assert w[..i + |pat|] == w[..i] + pat by { Advance(w, i, |pat|); }
    EditHit(f, x, y, w[..i], w[i + |pat|..]);
  }

  lemma ReplaceStep(w: string, i: nat, pat: string, put: string)
    requires pat != "" && OccursAt(w, pat, i)
    ensures Replace(w[i..], pat, put) == put + Replace(w[i + |pat|..], pat, put)
  {
    Advance(w, i, |pat|);
    PatternFirst(w, pat, i);
    ReplaceHit(w[i..], pat, put);
  }

  lemma PatternFirst(w: string, pat: string, i: nat)
    requires OccursAt(w, pat, i)
    ensures OccursAt(w[i..], pat, 0) && w[i..][..|pat|] == pat && w[i..] == pat + w[i + |pat|..]
  {
    CutAt(w[i..], |pat|);
    assert w[i..][..|pat|] == w[i..i + |pat|];
    assert w[i..][|pat|..] == w[i + |pat|..];
  }

  lemma {:induction false} NoPatternInside(f: Family, x: string, w: string, i: nat, n: nat)
    requires WellFormed(f) && Proper(x) && i < |w| && !OccursAt(w, Pattern(f, x), i)
    requires n == if Token(w[i..]) == "" then 1 else |Token(w[i..])|
    ensures forall p :: 0 <= p < n ==> !OccursAt(w[i..], Pattern(f, x), p)
    ensures forall p :: i <= p < i + n ==> !OccursAt(w, Pattern(f, x), p)
  {
    var pat, t := Pattern(f, x), w[i..];
    forall p | 0 <= p < n ensures !OccursAt(t, pat, p) && !OccursAt(w, pat, i + p) {
      if p + |pat| <= |t| {
        assert t[p..p + |pat|] == w[i + p..i + p + |pat|];
        assert t[p] == t[p..p + |pat|][0];
        assert pat[0] == f.before[0];
        if p > 0 { assert t[p] == Token(t)[p]; }
      }
    }
    forall p | i <= p < i + n ensures !OccursAt(w, pat, p) {
      assert !OccursAt(w, pat, i + (p - i));
    }
  }

  // ------------------------------------------------------------ the rewrite

  /** The placeholder of phase one. */
  function Mark(n: nat): string {
    [NUL] + "REKEY" + Decimal(n) + [NUL]
  }

  lemma MarkIsPlaceholder(n: nat)
    ensures IsPlaceholder(Mark(n)) && !IsNumber(Mark(n))
  {
    var s := Mark(n);
    assert s[0] == NUL && s[|s| - 1] == NUL;
    assert forall i :: 1 <= i < 6 ==> s[i] == "REKEY"[i - 1] && IsInner(s[i]);
    assert forall i :: 6 <= i < |s| - 1 ==> s[i] == Decimal(n)[i - 6];
  }

  lemma {:induction false} MarkInjective(m: nat, n: nat)
    ensures Mark(m) == Mark(n) ==> m == n
    ensures Decimal(m) == Decimal(n) ==> m == n
  {
    if Mark(m) == Mark(n) {
      assert Mark(m)[6..|Mark(m)| - 1] == Decimal(m);
      assert Mark(n)[6..|Mark(n)| - 1] == Decimal(n);
    }
    if Decimal(m) == Decimal(n) {
      DecimalInjective(m, n);
    }
  }

  /** A dictionary in its iteration order: pairs of old and new number, the old ones distinct. */
  predicate IsDictionary(mapping: seq<(nat, nat)>) {
    forall i, j :: 0 <= i < j < |mapping| ==> mapping[i].0 != mapping[j].0
  }

  /** The renaming of number spellings a dictionary asks for. */
  function Renames(mapping: seq<(nat, nat)>): map<string, string> {
    if mapping == [] then map[]
    else Renames(mapping[..|mapping| - 1])[Decimal(Last(mapping).0) := Decimal(Last(mapping).1)]
  }

  function Marks(mapping: seq<(nat, nat)>): map<string, string> {
    if mapping == [] then map[]
    else Marks(mapping[..|mapping| - 1])[Decimal(Last(mapping).0) := Mark(Last(mapping).0)]
  }

  function Unmarks(mapping: seq<(nat, nat)>): map<string, string> {
    if mapping == [] then map[]
    else Unmarks(mapping[..|mapping| - 1])[Mark(Last(mapping).0) := Decimal(Last(mapping).1)]
  }

  /** What the three maps hold, entry by entry. */
  lemma {:induction false} MapsMean(mapping: seq<(nat, nat)>, i: nat)
    requires IsDictionary(mapping) && i < |mapping|
    ensures var (was, new') := mapping[i];
            && Decimal(was) in Renames(mapping) && Renames(mapping)[Decimal(was)] == Decimal(new')
            && Decimal(was) in Marks(mapping) && Marks(mapping)[Decimal(was)] == Mark(was)
            && Mark(was) in Unmarks(mapping) && Unmarks(mapping)[Mark(was)] == Decimal(new')
    decreases |mapping|
  {
    hide Decimal, Mark;
    var front, p := mapping[..|mapping| - 1], Last(mapping);
    if i < |front| {
      MapsMean(front, i);
      MarkInjective(mapping[i].0, p.0);
    }
  }

  lemma {:induction false} MapsHoldOnly(mapping: seq<(nat, nat)>)
    ensures forall x :: x in Renames(mapping) ==> exists i :: 0 <= i < |mapping| && x == Decimal(mapping[i].0)
    ensures forall x :: x in Marks(mapping) ==> exists i :: 0 <= i < |mapping| && x == Decimal(mapping[i].0)
    ensures forall x :: x in Unmarks(mapping) ==> exists i :: 0 <= i < |mapping| && x == Mark(mapping[i].0)
    decreases |mapping|
  {
    hide Decimal, Mark;
    if mapping != [] {
      var n := |mapping| - 1;
      MapsHoldOnly(mapping[..n]);
      assert forall i :: 0 <= i < n ==> mapping[..n][i] == mapping[i];
      assert mapping[n] == Last(mapping);
    }
  }

  /** The order of a dictionary does not matter. */
  lemma {:induction false} OrderIsInvisible(a: seq<(nat, nat)>, b: seq<(nat, nat)>)
    requires IsDictionary(a) && IsDictionary(b)
    requires forall p :: p in a <==> p in b
    ensures Renames(a) == Renames(b)
  {
    hide Renames, Decimal, Mark, Marks, Unmarks;
    SubRenames(a, b);
    SubRenames(b, a);
  }

  lemma {:induction false} SubRenames(a: seq<(nat, nat)>, b: seq<(nat, nat)>)
    requires IsDictionary(a) && IsDictionary(b)
    requires forall p :: p in a ==> p in b
    ensures forall x :: x in Renames(a) ==> x in Renames(b) && Renames(a)[x] == Renames(b)[x]
  {
    hide Renames, Decimal, Mark, Marks, Unmarks;
    MapsHoldOnly(a);
    forall x | x in Renames(a) ensures x in Renames(b) && Renames(a)[x] == Renames(b)[x] {
      var i :| 0 <= i < |a| && x == Decimal(a[i].0);
      assert a[i] in b;
      var j :| 0 <= j < |b| && b[j] == a[i];
      MapsMean(a, i);
      MapsMean(b, j);
    }
  }

  lemma {:induction false} MapsAreGood(mapping: seq<(nat, nat)>)
    ensures forall x :: x in Renames(mapping) ==>
            Proper(x) && Proper(Renames(mapping)[x]) && IsNumber(Renames(mapping)[x])
    ensures forall x :: x in Marks(mapping) ==> Proper(x) && Proper(Marks(mapping)[x]) && !IsNumber(Marks(mapping)[x])
    ensures forall x :: x in Unmarks(mapping) ==>
            Proper(x) && Proper(Unmarks(mapping)[x]) && !IsNumber(x) && IsNumber(Unmarks(mapping)[x])
    decreases |mapping|
  {
    hide Decimal, Mark;
    if mapping != [] {
      MapsAreGood(mapping[..|mapping| - 1]);
      MarkIsPlaceholder(Last(mapping).0);
    }
  }

  function Swap(m: map<string, string>, x: string): string {
    if x in m then m[x] else x
  }

  /** Marking one more number extends the marks. */
  lemma {:induction false} OneMoreMark(f: Family, mapping: seq<(nat, nat)>, n: nat, l: string, x: string, r: string)
    requires IsDictionary(mapping) && n < |mapping|
    ensures var next := Rule([f], map[Decimal(mapping[n].0) := Mark(mapping[n].0)]);
            Then(Rule([f], Marks(mapping[..n])), next).Out(l, x, r) == Rule([f], Marks(mapping[..n + 1])).Out(l, x, r)
  {
    var old' := mapping[n].0;
    var front := mapping[..n];
    assert mapping[..n + 1][..n] == front;
    MapsHoldOnly(front);
    MapsAreGood(front);
    forall i | 0 <= i < n ensures Decimal(front[i].0) != Decimal(old') {
      MarkInjective(front[i].0, old');
    }
    hide Decimal, Mark;
  }

  lemma UnmarksGrow(mapping: seq<(nat, nat)>, n: nat)
    requires n < |mapping|
    ensures Unmarks(mapping[..n + 1]) == Unmarks(mapping[..n])[Mark(mapping[n].0) := Decimal(mapping[n].1)]
  {
    assert mapping[..n + 1][..n] == mapping[..n];
  }

  /** Unmarking one more number extends the unmarks. */
  lemma {:induction false} OneMoreUnmark(f: Family, mapping: seq<(nat, nat)>, n: nat, l: string, x: string, r: string)
    requires IsDictionary(mapping) && n < |mapping|
    ensures var a := Rule([f], Marks(mapping));
            var next := Rule([f], map[Mark(mapping[n].0) := Decimal(mapping[n].1)]);
            Then(Then(a, Rule([f], Unmarks(mapping[..n]))), next).Out(l, x, r) ==
            Then(a, Rule([f], Unmarks(mapping[..n + 1]))).Out(l, x, r)
  {
    var old' := mapping[n].0;
    var front := mapping[..n];
    assert mapping[..n + 1][..n] == front;
    MapsHoldOnly(front);
    MapsAreGood(front);
    MarkIsPlaceholder(old');
    forall i | 0 <= i < n ensures Mark(front[i].0) != Mark(old') {
      MarkInjective(front[i].0, old');
    }
    hide Decimal, Mark, Marks, Unmarks;
    UnmarksGrow(mapping, n);
    var a, u := Rule([f], Marks(mapping)), Rule([f], Unmarks(front));
    var next := Rule([f], map[Mark(old') := Decimal(mapping[n].1)]);
    assert Then(Then(a, u), next).Out(l, x, r) == next.Out(l, u.Out(l, a.Out(l, x, r), r), r);
  }

  /** Marking everything and unmarking everything renames every number once. */
  lemma {:induction false} MarkedAndUnmarked(f: Family, mapping: seq<(nat, nat)>, l: string, x: string, r: string)
    requires IsDictionary(mapping) && IsNumber(x)
    ensures Then(Rule([f], Marks(mapping)), Rule([f], Unmarks(mapping))).Out(l, x, r) ==
            Rule([f], Renames(mapping)).Out(l, x, r)
  {
    hide Decimal, Mark, Marks, Unmarks, Renames;
    MapsHoldOnly(mapping);
    MapsAreGood(mapping);
    if exists i :: 0 <= i < |mapping| && x == Decimal(mapping[i].0) {
      var i :| 0 <= i < |mapping| && x == Decimal(mapping[i].0);
      MapsMean(mapping, i);
    }
  }

  /** No number stands in two patterns at once. */
  lemma {:induction false} PatternsExclude(l: string, i: nat, j: nat)
    requires i < j < |Families()|
    ensures !EndsWith(l, Families()[i].before) || !EndsWith(l, Families()[j].before)
  {
    EndsAlike(l, Families()[i].before, 0);
    EndsAlike(l, Families()[j].before, 0);
    EndsAlike(l, ROW_ANCHOR.before, 6);
    EndsAlike(l, ROW_LINK.before, 6);
  }

  lemma EndsAlike(l: string, p: string, d: nat)
    requires d < |p|
    ensures EndsWith(l, p) ==> d < |l| && l[|l| - 1 - d] == p[|p| - 1 - d]
  {
    if EndsWith(l, p) {
      assert p[|p| - 1 - d] == l[|l| - |p|..][|p| - 1 - d];
    }
  }

  lemma AnchoredAppend(before: seq<Family>, f: Family, l: string, r: string)
    ensures Anchored(before + [f], l, r) <==> Anchored(before, l, r) || Anchored([f], l, r)
  {
    var all := before + [f];
    assert all[|before|] == f == [f][0];
    assert forall i :: 0 <= i < |before| ==> all[i] == before[i];
  }

  lemma OutOfAppend(before: seq<Family>, f: Family, m: map<string, string>, l: string, x: string, r: string)
    requires !Anchored(before, l, r) || !Anchored([f], l, r)
    ensures Then(Rule(before, m), Rule([f], m)).Out(l, x, r) == Rule(before + [f], m).Out(l, x, r)
  {
    AnchoredAppend(before, f, l, r);
    hide Anchored;
  }

  /** No place is anchored by two families. */
  lemma {:induction false} AnchoredOnce(k: nat, l: string, r: string)
    requires k < |Families()|
    ensures !Anchored(Families()[..k], l, r) || !Anchored([Families()[k]], l, r)
  {
    hide Families, EndsWith;
    if Anchored(Families()[..k], l, r) && Anchored([Families()[k]], l, r) {
      var i :| 0 <= i < k && EndsWith(l, Families()[..k][i].before);
      PatternsExclude(l, i, k);
    }
  }

  /** The families so far and the next one act as one rule. */
  lemma {:induction false} OneMoreFamily(m: map<string, string>, k: nat, l: string, x: string, r: string)
    requires k < |Families()|
    ensures Then(Rule(Families()[..k], m), Rule([Families()[k]], m)).Out(l, x, r) ==
            Rule(Families()[..k + 1], m).Out(l, x, r)
  {
    hide Families, Anchored;
    AnchoredOnce(k, l, r);
    OutOfAppend(Families()[..k], Families()[k], m, l, x, r);
    assert Families()[..k + 1] == Families()[..k] + [Families()[k]];
  }

  lemma {:induction false} StaysNulFree(fs: seq<Family>, m: map<string, string>, l: string, t: string)
    requires NulFree(t) && forall x :: x in m ==> IsNumber(m[x])
    ensures NulFree(Edited(Rule(fs, m), l, t))
    decreases |t|
  {
    if t != "" {
      hide Edited, Token, Anchored;
      var x := Token(t);
      EditedStep(Rule(fs, m), l, t);
      PrefixAndRest(x, t);
      if x == "" { StaysNulFree(fs, m, l + [t[0]], t[1..]); } else { StaysNulFree(fs, m, l + x, t[|x|..]); }
    }
  }

  /** One replacement on top of an edit is one longer edit. */
  lemma {:induction false} ReplaceExtends(e: Edit, f: Family, x: string, y: string, text: string)
    requires e.Good() && WellFormed(f) && Proper(x) && Proper(y)
    ensures Replace(Edited(e, "", text), Pattern(f, x), Pattern(f, y)) ==
            Edited(Then(e, Rule([f], map[x := y])), "", text)
  {
    hide Edited, Replace, Pattern;
    var w := Edited(e, "", text);
    ReplaceIsEdit(f, x, y, w, 0);
    assert w[..0] == "" && w[0..] == w;
    Compose(e, Rule([f], map[x := y]), "", "", text);
  }

  /** Two phases over one family: every old number to its placeholder, every placeholder to its new number. */
  method RewriteFamily(text: string, f: Family, mapping: seq<(nat, nat)>) returns (md: string)
    requires WellFormed(f) && IsDictionary(mapping)
    ensures NulFree(text) ==> md == Edited(Rule([f], Renames(mapping)), "", text)
  {
    hide Edited, Replace, Decimal, Mark, Marks, Unmarks, Renames, IsDictionary;
    md := text;
    MapsAreGood(mapping);
    EmptyRule(f, text);
    assert mapping[..0] == [];
    for n := 0 to |mapping|
      invariant NulFree(text) ==> md == Edited(Rule([f], Marks(mapping[..n])), "", text)
    {
      var x, y := Decimal(mapping[n].0), Mark(mapping[n].0);
      MarkStep(f, mapping, n, text);
      md := Replace(md, Pattern(f, x), Pattern(f, y));
    }
    assert mapping[..|mapping|] == mapping;
    NoUnmarks(f, mapping, text);
    for n := 0 to |mapping|
      invariant NulFree(text) ==>
                md == Edited(Then(Rule([f], Marks(mapping)), Rule([f], Unmarks(mapping[..n]))), "", text)
    {
      var x, y := Mark(mapping[n].0), Decimal(mapping[n].1);
      UnmarkStep(f, mapping, n, text);
      md := Replace(md, Pattern(f, x), Pattern(f, y));
    }
    if NulFree(text) {
      BothPhases(f, mapping, text);
    }
  }

  lemma EmptyRule(f: Family, text: string)
    ensures Marks([]) == map[] && Unmarks([]) == map[]
    ensures Edited(Rule([f], map[]), "", text) == text
  {
    Untouched([f], "", text);
  }

  lemma NothingRenamed(fs: seq<Family>, l: string, x: string, r: string)
    ensures Rule(fs, map[]).Out(l, x, r) == x
  {
    hide Anchored;
  }

  lemma PrefixAndRest(x: string, t: string)
    ensures x <= t ==> x + t[|x|..] == t
    ensures t != "" ==> [t[0]] + t[1..] == t
  {
  }

  /** An empty mapping changes nothing. */
  lemma {:induction false} Untouched(fs: seq<Family>, l: string, t: string)
    ensures Edited(Rule(fs, map[]), l, t) == t
    decreases |t|
  {
    if t != "" {
      hide Edited, Token;
      var x := Token(t);
      EditedStep(Rule(fs, map[]), l, t);
      NothingRenamed(fs, l, x, t[|x|..]);
      PrefixAndRest(x, t);
      if x == "" {
        Untouched(fs, l + [t[0]], t[1..]);
      } else {
        Untouched(fs, l + x, t[|x|..]);
      }
    }
  }

  lemma MarkStep(f: Family, mapping: seq<(nat, nat)>, n: nat, text: string)
    requires WellFormed(f) && IsDictionary(mapping) && n < |mapping|
    ensures var x, y := Decimal(mapping[n].0), Mark(mapping[n].0);
            NulFree(text) ==>
              Replace(Edited(Rule([f], Marks(mapping[..n])), "", text), Pattern(f, x), Pattern(f, y)) ==
              Edited(Rule([f], Marks(mapping[..n + 1])), "", text)
  {
    hide Edited, Replace, Pattern, Decimal, Mark, Marks;
    var x, y := Decimal(mapping[n].0), Mark(mapping[n].0);
    var a, b := Rule([f], Marks(mapping[..n])), Rule([f], Marks(mapping[..n + 1]));
    MarkIsPlaceholder(mapping[n].0);
    MapsAreGood(mapping[..n]);
    ReplaceExtends(a, f, x, y, text);
    forall l: string, z: string, r: string
      ensures Then(a, Rule([f], map[x := y])).Out(l, z, r) == b.Out(l, z, r)
    {
      OneMoreMark(f, mapping, n, l, z, r);
    }
    if NulFree(text) {
      SameEdit(Then(a, Rule([f], map[x := y])), b, "", text);
    }
  }

  lemma NoUnmarks(f: Family, mapping: seq<(nat, nat)>, text: string)
    requires WellFormed(f)
    ensures NulFree(text) ==>
              Edited(Then(Rule([f], Marks(mapping)), Rule([f], Unmarks([]))), "", text) ==
                  Edited(Rule([f], Marks(mapping)), "", text)
  {
    hide Edited;
    if NulFree(text) {
      SameEdit(Then(Rule([f], Marks(mapping)), Rule([f], Unmarks([]))), Rule([f], Marks(mapping)), "", text);
    }
  }

  lemma UnmarkStep(f: Family, mapping: seq<(nat, nat)>, n: nat, text: string)
    requires WellFormed(f) && IsDictionary(mapping) && n < |mapping|
    ensures var x, y := Mark(mapping[n].0), Decimal(mapping[n].1);
            var a := Rule([f], Marks(mapping));
            NulFree(text) ==>
              Replace(Edited(Then(a, Rule([f], Unmarks(mapping[..n]))), "", text), Pattern(f, x), Pattern(f, y)) ==
              Edited(Then(a, Rule([f], Unmarks(mapping[..n + 1]))), "", text)
  {
    hide Edited, Replace, Pattern, Decimal, Mark, Marks, Unmarks;
    var x, y := Mark(mapping[n].0), Decimal(mapping[n].1);
    var a := Rule([f], Marks(mapping));
    var b, c := Then(a, Rule([f], Unmarks(mapping[..n]))), Then(a, Rule([f], Unmarks(mapping[..n + 1])));
    MarkIsPlaceholder(mapping[n].0);
    MapsAreGood(mapping);
    MapsAreGood(mapping[..n]);
    ReplaceExtends(b, f, x, y, text);
    forall l: string, z: string, r: string
      ensures Then(b, Rule([f], map[x := y])).Out(l, z, r) == c.Out(l, z, r)
    {
      OneMoreUnmark(f, mapping, n, l, z, r);
    }
    if NulFree(text) {
      SameEdit(Then(b, Rule([f], map[x := y])), c, "", text);
    }
  }

  lemma BothPhases(f: Family, mapping: seq<(nat, nat)>, text: string)
    requires WellFormed(f) && IsDictionary(mapping) && NulFree(text)
    ensures Edited(Then(Rule([f], Marks(mapping)), Rule([f], Unmarks(mapping))), "", text) ==
            Edited(Rule([f], Renames(mapping)), "", text)
  {
    hide Edited, Decimal, Mark, Marks, Unmarks, Renames;
    var a, b := Then(Rule([f], Marks(mapping)), Rule([f], Unmarks(mapping))), Rule([f], Renames(mapping));
    forall l: string, z: string, r: string | IsNumber(z) ensures a.Out(l, z, r) == b.Out(l, z, r) {
      MarkedAndUnmarked(f, mapping, l, z, r);
    }
    SameEdit(a, b, "", text);
  }

  /**
   * The whole rewrite: for text without NUL, two-phase replacement family by
   * family is the simultaneous renaming of every anchored number, chains and
   * cycles included, and nothing else changes.
   */
  method RewriteMd(text: string, mapping: seq<(nat, nat)>) returns (md: string)
    requires IsDictionary(mapping)
    ensures NulFree(text) ==> md == Edited(Rule(Families(), Renames(mapping)), "", text)
  {
    hide Families, WellFormed, Edited, Renames;
    md := text;
    NoFamilies(Renames(mapping), text);
    for k := 0 to |Families()|
      invariant NulFree(text) ==> md == Edited(Rule(Families()[..k], Renames(mapping)), "", text)
    {
      FamiliesAreWellFormed(k);
      FamilyStep(mapping, k, text);
      md := RewriteFamily(md, Families()[k], mapping);
    }
    assert Families()[..|Families()|] == Families();
  }

  lemma {:induction false} NoFamilies(m: map<string, string>, text: string)
    ensures Edited(Rule(Families()[..0], m), "", text) == text
  {
    hide Families, Edited;
    NothingAnchored(m, "", text);
    assert Families()[..0] == [];
  }

  lemma {:induction false} NothingAnchored(m: map<string, string>, l: string, t: string)
    ensures Edited(Rule([], m), l, t) == t
    decreases |t|
  {
    if t != "" {
      hide Edited, Token;
      var x := Token(t);
      EditedStep(Rule([], m), l, t);
      PrefixAndRest(x, t);
      if x == "" { NothingAnchored(m, l + [t[0]], t[1..]); } else { NothingAnchored(m, l + x, t[|x|..]); }
    }
  }

  lemma FamilyStep(mapping: seq<(nat, nat)>, k: nat, text: string)
    requires k < |Families()|
    ensures var m := Renames(mapping);
            var base := Edited(Rule(Families()[..k], m), "", text);
            NulFree(text) ==>
              NulFree(base)
                  && Edited(Rule([Families()[k]], m), "", base) == Edited(Rule(Families()[..k + 1], m), "", text)
  {
    hide Edited, Renames, Families, WellFormed;
    var m := Renames(mapping);
    MapsAreGood(mapping);
    var a, b, c := Rule(Families()[..k], m), Rule([Families()[k]], m), Rule(Families()[..k + 1], m);
    forall i | 0 <= i <= k ensures WellFormed(Families()[i]) { FamiliesAreWellFormed(i); }
    assert a.Good() && b.Good();
    Compose(a, b, "", "", text);
    forall l: string, z: string, r: string ensures Then(a, b).Out(l, z, r) == c.Out(l, z, r) {
      OneMoreFamily(m, k, l, z, r);
    }
    if NulFree(text) {
      StaysNulFree(Families()[..k], m, "", text);
      SameEdit(Then(a, b), c, "", text);
    }
  }

  /** Renaming back undoes a renaming whose new numbers are distinct and exactly its old ones. */
  lemma {:induction false} PermutationsUndo(mapping: seq<(nat, nat)>, back: seq<(nat, nat)>, text: string)
    requires NulFree(text) && IsDictionary(mapping) && IsDictionary(back)
    requires forall p :: p in mapping <==> (p.1, p.0) in back
    requires forall p :: p in back ==> exists q :: q in mapping && q.0 == p.0
    ensures Edited(Rule(Families(), Renames(back)), "", Edited(Rule(Families(), Renames(mapping)), "", text)) == text
  {
    hide Edited, Renames, Marks, Unmarks, Decimal, Mark, Families, WellFormed;
    var a, b := Rule(Families(), Renames(mapping)), Rule(Families(), Renames(back));
    MapsAreGood(mapping);
    MapsAreGood(back);
    forall i | 0 <= i < |Families()| ensures WellFormed(Families()[i]) { FamiliesAreWellFormed(i); }
    assert a.Good() && b.Good();
    Compose(a, b, "", "", text);
    forall l: string, x: string, r: string | IsNumber(x)
      ensures Then(a, b).Out(l, x, r) == Rule([], map[]).Out(l, x, r)
    {
      BackAndForth(mapping, back, x);
    }
    SameEdit(Then(a, b), Rule([], map[]), "", text);
    NothingAnchored(map[], "", text);
  }

  lemma {:induction false} BackAndForth(mapping: seq<(nat, nat)>, back: seq<(nat, nat)>, x: string)
    requires IsDictionary(mapping) && IsDictionary(back)
    requires forall p :: p in mapping <==> (p.1, p.0) in back
    requires forall p :: p in back ==> exists q :: q in mapping && q.0 == p.0
    ensures Swap(Renames(back), Swap(Renames(mapping), x)) == x
  {
    hide Renames, Marks, Unmarks, Decimal, Mark;
    MapsHoldOnly(mapping);
    MapsHoldOnly(back);
    if x in Renames(mapping) {
      var i :| 0 <= i < |mapping| && x == Decimal(mapping[i].0);
      var p := mapping[i];
      assert p in mapping;
      Entry(mapping, p);
      Entry(back, (p.1, p.0));
    } else if x in Renames(back) {
      var j :| 0 <= j < |back| && x == Decimal(back[j].0);
      assert back[j] in back;
      var q :| q in mapping && q.0 == back[j].0;
      Entry(mapping, q);
    }
  }

  lemma Entry(mapping: seq<(nat, nat)>, p: (nat, nat))
    requires IsDictionary(mapping) && p in mapping
    ensures Decimal(p.0) in Renames(mapping) && Renames(mapping)[Decimal(p.0)] == Decimal(p.1)
  {
    hide Renames, Marks, Unmarks, Decimal, Mark;
    var i :| 0 <= i < |mapping| && mapping[i] == p;
    MapsMean(mapping, i);
  }
}
