/**
 Restoring aliases: the whole-text form (`restore_text`), the chunked form that holds back a
 possible alias prefix (`AliasStreamRestorer`), and the theorem that the two agree.
 */
module Restoring {
  import opened Substitution

  // ------------------------------------------------------------ sorting by length

  ghost predicate Descending<T>(xs: seq<T>, len: T -> nat) {
    forall i, j | 0 <= i < j < |xs| :: len(xs[i]) >= len(xs[j])
  }

  /** `sorted(xs, key=len, reverse=True)`: longest first, equal lengths in their old order. */
  function LongestFirst<T>(xs: seq<T>, len: T -> nat): (ys: seq<T>)
    ensures multiset(ys) == multiset(xs)
    ensures Descending(ys, len)
  {
    if xs == [] then []
    else
      assert xs == [xs[0]] + xs[1..];
      var ys := LongestFirst(xs[1..], len);
      InsertKeepsElements(xs[0], ys, len);
      InsertKeepsDescending(xs[0], ys, len);
      InsertByLength(xs[0], ys, len)
  }

  function InsertByLength<T>(x: T, ys: seq<T>, len: T -> nat): seq<T> {
    if ys == [] || len(x) >= len(ys[0]) then [x] + ys else [ys[0]] + InsertByLength(x, ys[1..], len)
  }

  lemma {:induction false} InsertKeepsElements<T>(x: T, ys: seq<T>, len: T -> nat)
    ensures multiset(InsertByLength(x, ys, len)) == multiset{x} + multiset(ys)
  {
    if ys != [] {
      InsertKeepsElements(x, ys[1..], len);
      assert ys == [ys[0]] + ys[1..];
    }
  }

  lemma {:induction false} InsertKeepsDescending<T>(x: T, ys: seq<T>, len: T -> nat)
    requires Descending(ys, len)
    ensures Descending(InsertByLength(x, ys, len), len)
  {
    if ys != [] && len(x) < len(ys[0]) {
      InsertKeepsDescending(x, ys[1..], len);
      InsertedIsBounded(x, ys[1..], len, len(ys[0]));
      DescendingFrom(ys[0], InsertByLength(x, ys[1..], len), len);
    }
  }

  lemma {:induction false} InsertedIsBounded<T>(x: T, ys: seq<T>, len: T -> nat, bound: nat)
    requires len(x) <= bound && forall i | 0 <= i < |ys| :: len(ys[i]) <= bound
    ensures forall i | 0 <= i < |InsertByLength(x, ys, len)| :: len(InsertByLength(x, ys, len)[i]) <= bound
  {
    if ys != [] && len(x) < len(ys[0]) { InsertedIsBounded(x, ys[1..], len, bound); }
  }

  lemma DescendingFrom<T>(x: T, ys: seq<T>, len: T -> nat)
    requires Descending(ys, len) && forall i | 0 <= i < |ys| :: len(ys[i]) <= len(x)
    ensures Descending([x] + ys, len)
  {}

  lemma SameElements<T>(xs: seq<T>, ys: seq<T>)
    requires multiset(xs) == multiset(ys)
    ensures forall x :: x in xs <==> x in ys
  {
    forall x
      ensures x in xs <==> x in ys
    {
      assert x in xs <==> x in multiset(xs);
    }
  }

  // ------------------------------------------------------------ whole-text restoring

  function RestoringOrder(bs: seq<Binding>): (r: seq<Binding>)
    ensures forall b :: b in r <==> b in bs
  {
    var r := LongestFirst(bs, (b: Binding) => |b.alias|);
    SameElements(r, bs);
    r
  }

  function RestoreText(bs: seq<Binding>, text: Text): Text
    requires NonEmpty(AliasesOf(bs))
  {
    AliasIn(bs);
    ReplaceEach(RestoringOrder(bs), text)
  }

  lemma AliasIn(bs: seq<Binding>)
    ensures forall b | b in bs :: b.alias in AliasesOf(bs)
    ensures forall a | a in AliasesOf(bs) :: exists b :: b in bs && b.alias == a
  {
    forall b | b in bs
      ensures b.alias in AliasesOf(bs)
    {
      var i :| 0 <= i < |bs| && bs[i] == b;
      assert AliasesOf(bs)[i] == b.alias;
    }
    forall a | a in AliasesOf(bs)
      ensures exists b :: b in bs && b.alias == a
    {
      var i :| 0 <= i < |bs| && AliasesOf(bs)[i] == a;
      assert bs[i] in bs;
    }
  }

  /** A dictionary that the theorems speak about: distinct keys that never collide in a text. */
  ghost predicate CrossFreeDictionary(bs: seq<Binding>) {
    DistinctAliases(bs) && CrossFree(AliasesOf(bs))
  }

  ghost predicate AliasFree(bs: seq<Binding>, text: Text) {
    forall a | a in AliasesOf(bs) :: !Occurs(a, text)
  }

  /** Whole-text restoring replaces every alias of the pieces by its value. */
  lemma RestoreIsSimultaneous(bs: seq<Binding>, ps: seq<Piece>)
    requires CrossFreeDictionary(bs)
    requires NamesIn(ps, AliasesOf(bs))
    requires AliasFree(bs, Render(ps, MapOf(bs)))
    ensures RestoreText(bs, Render(ps, map[])) == Render(ps, MapOf(bs))
  {
    var order := RestoringOrder(bs);
    AliasIn(bs);
    AliasIn(order);
    SequentialIsSimultaneous(ps, order, AliasesOf(bs), MapOf(bs));
  }

  // ------------------------------------------------------------ the chunked form

  function Suffix(text: Text, n: nat): Text
    requires n <= |text|
  {
    text[|text| - n..]
  }

  predicate StartsAnAlias(aliases: seq<Text>, suffix: Text) {
    exists a | a in aliases :: suffix <= a
  }

  /** The largest number of characters an incomplete alias can have. */
  function MaxPartial(aliases: seq<Text>): (n: nat)
    requires NonEmpty(aliases)
    ensures forall a | a in aliases :: |a| - 1 <= n
    ensures aliases == [] ==> n == 0
    ensures aliases != [] ==> exists a :: a in aliases && n == |a| - 1
  {
    if aliases == [] then 0
    else
      assert aliases == [aliases[0]] + aliases[1..];
      assert aliases[0] in aliases;
      assert forall a | a in aliases[1..] :: a in aliases;
      var rest := MaxPartial(aliases[1..]);
      if |aliases[0]| - 1 >= rest then |aliases[0]| - 1 else rest
  }

  /** The longest suffix of at most `n` characters that starts an alias. */
  function LongestHeld(aliases: seq<Text>, buffer: Text, n: nat): (h: nat)
    requires n <= |buffer|
    ensures h <= n
    ensures h > 0 ==> StartsAnAlias(aliases, Suffix(buffer, h))
    ensures forall l | h < l <= n :: !StartsAnAlias(aliases, Suffix(buffer, l))
  {
    if n == 0 then 0
    else if StartsAnAlias(aliases, Suffix(buffer, n)) then n
    else LongestHeld(aliases, buffer, n - 1)
  }

  function Min(x: nat, y: nat): nat { if x <= y then x else y }

  function HoldLength(aliases: seq<Text>, buffer: Text): (h: nat)
    requires NonEmpty(aliases)
    ensures h <= |buffer|
  {
    LongestHeld(aliases, buffer, Min(MaxPartial(aliases), |buffer|))
  }

  /** The last `l` characters begin some alias, and are fewer than the longest alias has. */
  ghost predicate MayBecome(aliases: seq<Text>, buffer: Text, l: nat)
    requires l <= |buffer|
  {
    && (exists a :: a in aliases && l < |a|)
    && (exists a :: a in aliases && buffer[|buffer| - l..] <= a)
  }

  /** What is held back is the longest end of the buffer that may still become an alias. */
  lemma HoldLengthIff(aliases: seq<Text>, buffer: Text, h: nat)
    requires NonEmpty(aliases)
    ensures HoldLength(aliases, buffer) == h <==>
              && h <= |buffer| && (h == 0 || MayBecome(aliases, buffer, h))
              && forall l | h < l <= |buffer| :: !MayBecome(aliases, buffer, l)
  {
    hide LongestHeld, MaxPartial;
    var held := HoldLength(aliases, buffer);
    forall l | 0 < l <= |buffer|
      ensures MayBecome(aliases, buffer, l) <==> l <= MaxPartial(aliases) && StartsAnAlias(aliases, Suffix(buffer, l))
    {
      if l <= MaxPartial(aliases) && aliases != [] {
        var a :| a in aliases && MaxPartial(aliases) == |a| - 1;
        assert l < |a|;
      }
    }
    if h < held { assert MayBecome(aliases, buffer, held); }
  }

  function Safe(aliases: seq<Text>, buffer: Text): Text
    requires NonEmpty(aliases)
  {
    buffer[..|buffer| - HoldLength(aliases, buffer)]
  }

  function Held(aliases: seq<Text>, buffer: Text): Text
    requires NonEmpty(aliases)
  {
    Suffix(buffer, HoldLength(aliases, buffer))
  }

  function Concat(chunks: seq<Text>): Text {
    if chunks == [] then "" else chunks[0] + Concat(chunks[1..])
  }

  /** Everything `feed` returns for the chunks, then what `flush` returns. */
  function StreamOutput(bs: seq<Binding>, chunks: seq<Text>, buffer: Text): Text
    requires NonEmpty(AliasesOf(bs))
    decreases |chunks|
  {
    if chunks == [] then RestoreText(bs, buffer)
    else
      var b := buffer + chunks[0];
      RestoreText(bs, Safe(AliasesOf(bs), b)) + StreamOutput(bs, chunks[1..], Held(AliasesOf(bs), b))
  }

  // ------------------------------------------------------------ why the cut is harmless

  lemma FirstMatchAgrees(patterns: seq<Text>, u: Text, w: Text)
    requires forall p | p in patterns :: p <= u <==> p <= w
    ensures FirstMatch(patterns, u) == FirstMatch(patterns, w)
  {
    if patterns != [] {
      assert patterns[0] in patterns;
      forall p | p in patterns[1..]
        ensures p <= u <==> p <= w
      {
        assert p in patterns;
      }
      FirstMatchAgrees(patterns[1..], u, w);
    }
  }

  ghost predicate NoStraddle(aliases: seq<Text>, x: Text, y: Text) {
    forall a, i: nat | a in aliases && i < |x| && a <= (x + y)[i..] :: i + |a| <= |x|
  }

  /** What the scan of `x` recognises at its start does not depend on a later `y`. */
  lemma SameFirstMatch(aliases: seq<Text>, x: Text, y: Text)
    requires x != "" && NoStraddle(aliases, x, y)
    ensures FirstMatch(aliases, x + y) == FirstMatch(aliases, x)
  {
    assert (x + y)[0..] == x + y;
    forall a | a in aliases
      ensures a <= x <==> a <= x + y
    {
      if a <= x + y {
        assert a <= (x + y)[0..];
        assert (x + y)[..|a|] == x[..|a|];
      }
    }
    FirstMatchAgrees(aliases, x, x + y);
  }

  lemma NoStraddleLater(aliases: seq<Text>, x: Text, y: Text, n: nat)
    requires n <= |x| && NoStraddle(aliases, x, y)
    ensures NoStraddle(aliases, x[n..], y)
  {
    forall a, i: nat | a in aliases && i < |x[n..]| && a <= (x[n..] + y)[i..]
      ensures i + |a| <= |x[n..]|
    {
      assert (x[n..] + y)[i..] == (x + y)[i + n..];
    }
  }

  /** The first step of a scan: the piece it recognises and how much of the text that takes. */
  function Head(patterns: seq<Text>, text: Text): (r: (Piece, nat))
    requires NonEmpty(patterns) && text != ""
    ensures 0 < r.1 <= |text|
  {
    var m := FirstMatch(patterns, text);
    if m.Some? then (Name(m.value), |m.value|) else (Lit(text[0]), 1)
  }

  lemma ScanHead(patterns: seq<Text>, text: Text)
    requires NonEmpty(patterns) && text != ""
    ensures Scan(patterns, text) == [Head(patterns, text).0] + Scan(patterns, text[Head(patterns, text).1..])
  {}

  lemma SameHead(aliases: seq<Text>, x: Text, y: Text)
    requires NonEmpty(aliases) && x != "" && NoStraddle(aliases, x, y)
    ensures Head(aliases, x + y) == Head(aliases, x)
  {
    SameFirstMatch(aliases, x, y);
  }

  lemma HeadOfBoth(aliases: seq<Text>, x: Text, y: Text)
    requires NonEmpty(aliases) && x != "" && NoStraddle(aliases, x, y)
    ensures var (h, n) := Head(aliases, x);
            Scan(aliases, x) == [h] + Scan(aliases, x[n..]) && Scan(aliases, x + y) == [h] + Scan(aliases, x[n..] + y)
  {
    hide Scan, FirstMatch, NoStraddle, Head;
    SameHead(aliases, x, y);
    ScanHead(aliases, x);
    ScanHead(aliases, x + y);
    var n := Head(aliases, x).1;
    assert (x + y)[n..] == x[n..] + y;
  }

  lemma ScanOfNothing(patterns: seq<Text>, y: Text)
    requires NonEmpty(patterns)
    ensures Scan(patterns, "" + y) == Scan(patterns, "") + Scan(patterns, y)
  {
    assert "" + y == y;
  }

  /** A cut that no occurrence crosses splits the scan. */
  lemma {:induction false} ScanSplits(aliases: seq<Text>, x: Text, y: Text)
    requires NonEmpty(aliases)
    requires NoStraddle(aliases, x, y)
    ensures Scan(aliases, x + y) == Scan(aliases, x) + Scan(aliases, y)
    decreases |x|
  {
    hide Scan, NoStraddle, Head;
    if x == "" {
      ScanOfNothing(aliases, y);
    } else {
      var (h, n) := Head(aliases, x);
      HeadOfBoth(aliases, x, y);
      NoStraddleLater(aliases, x, y, n);
      ScanSplits(aliases, x[n..], y);
      calc {
        Scan(aliases, x + y);
        [h] + (Scan(aliases, x[n..]) + Scan(aliases, y));
        [h] + Scan(aliases, x[n..]) + Scan(aliases, y);
      }
    }
  }

  /** An alias that begins in the buffer and ends after it begins inside the held part. */
  lemma PartialIsHeld(aliases: seq<Text>, buffer: Text, more: Text, a: Text, i: nat)
    requires NonEmpty(aliases) && a in aliases
    requires i < |buffer| < i + |a|
    requires a <= (buffer + more)[i..]
    ensures |buffer| - i <= HoldLength(aliases, buffer)
  {
    assert Suffix(buffer, |buffer| - i) == (buffer + more)[i..][..|buffer| - i] <= a;
    assert StartsAnAlias(aliases, Suffix(buffer, |buffer| - i));
  }

  /** A proper suffix of an alias never begins the start of an alias. */
  lemma NoBorder(aliases: seq<Text>, a: Text, k: nat, held: Text)
    requires CrossFree(aliases) && a in aliases
    requires 0 < k < |a| && a[k..] <= held
    ensures !StartsAnAlias(aliases, held)
  {
    forall b | b in aliases
      ensures !(held <= b)
    {
      assert !Comparable(a[k..], b);
    }
  }

  lemma HeldStartsAnAlias(aliases: seq<Text>, buffer: Text)
    requires NonEmpty(aliases)
    ensures var h := HoldLength(aliases, buffer); h > 0 ==> StartsAnAlias(aliases, Suffix(buffer, h))
  {}

  lemma SliceOfSuffix(buffer: Text, i: nat, k: nat, n: nat)
    requires k <= n && i + n <= |buffer|
    ensures buffer[i..i + n][k..] <= Suffix(buffer, |buffer| - i - k)
  {}

  /** Holding back the longest possible alias prefix never cuts through an alias. */
  lemma HoldCutsNoAliasAt(aliases: seq<Text>, buffer: Text, more: Text, a: Text, i: nat)
    requires CrossFree(aliases) && a in aliases
    requires i < |buffer| - HoldLength(aliases, buffer)
    requires a <= (buffer + more)[i..]
    ensures i + |a| <= |buffer| - HoldLength(aliases, buffer)
  {
    hide Comparable, HoldLength, StartsAnAlias;
    HeldStartsAnAlias(aliases, buffer);
    var h := HoldLength(aliases, buffer);
    if i + |a| > |buffer| {
      PartialIsHeld(aliases, buffer, more, a, i);
    } else {
      assert a == (buffer + more)[i..][..|a|] == buffer[i..i + |a|];
      if |buffer| - h - i < |a| {
        SliceOfSuffix(buffer, i, |buffer| - h - i, |a|);
        NoBorder(aliases, a, |buffer| - h - i, Suffix(buffer, h));
      }
    }
  }

  /** Holding back the longest possible alias prefix never cuts through an alias. */
  lemma HoldCutsNoAlias(aliases: seq<Text>, buffer: Text, more: Text)
    requires CrossFree(aliases)
    ensures NoStraddle(aliases, Safe(aliases, buffer), Held(aliases, buffer) + more)
    ensures Safe(aliases, buffer) + (Held(aliases, buffer) + more) == buffer + more
  {
    var x, y := Safe(aliases, buffer), Held(aliases, buffer) + more;
    assert x + y == buffer + more;
    forall a, i: nat | a in aliases && i < |x| && a <= (x + y)[i..]
      ensures i + |a| <= |x|
    {
      HoldCutsNoAliasAt(aliases, buffer, more, a, i);
    }
  }

  /** Every alias of the text replaced at once: what restoring should mean. */
  function Simultaneous(bs: seq<Binding>, text: Text): Text
    requires NonEmpty(AliasesOf(bs))
  {
    Render(Scan(AliasesOf(bs), text), MapOf(bs))
  }

  /** The restored text neither contains an alias nor forms one with its surroundings. */
  ghost predicate RestoresCleanly(bs: seq<Binding>, text: Text)
    requires NonEmpty(AliasesOf(bs))
  {
    AliasFree(bs, Simultaneous(bs, text))
  }

  lemma WholeIsSimultaneous(bs: seq<Binding>, text: Text)
    requires CrossFreeDictionary(bs) && RestoresCleanly(bs, text)
    ensures RestoreText(bs, text) == Simultaneous(bs, text)
  {
    RestoreIsSimultaneous(bs, Scan(AliasesOf(bs), text));
  }

  lemma SimultaneousSplits(bs: seq<Binding>, x: Text, y: Text)
    requires NonEmpty(AliasesOf(bs)) && NoStraddle(AliasesOf(bs), x, y)
    ensures Simultaneous(bs, x + y) == Simultaneous(bs, x) + Simultaneous(bs, y)
    ensures RestoresCleanly(bs, x + y) ==> RestoresCleanly(bs, x) && RestoresCleanly(bs, y)
  {
    var rx, ry := Simultaneous(bs, x), Simultaneous(bs, y);
    ScanSplits(AliasesOf(bs), x, y);
    RenderConcat(Scan(AliasesOf(bs), x), Scan(AliasesOf(bs), y), MapOf(bs));
    forall a | a in AliasesOf(bs) && !Occurs(a, rx + ry)
      ensures !Occurs(a, rx) && !Occurs(a, ry)
    {
      if Occurs(a, rx) { OccursInHead(a, rx, ry); }
      if Occurs(a, ry) { OccursInTail(a, rx, ry); }
    }
  }

  lemma ReleaseIsSimultaneous(bs: seq<Binding>, safe: Text, rest: Text)
    requires CrossFreeDictionary(bs)
    requires NoStraddle(AliasesOf(bs), safe, rest)
    requires RestoresCleanly(bs, safe + rest)
    ensures RestoresCleanly(bs, rest)
    ensures Simultaneous(bs, safe + rest) == RestoreText(bs, safe) + Simultaneous(bs, rest)
  {
    SimultaneousSplits(bs, safe, rest);
    WholeIsSimultaneous(bs, safe);
  }

  /** The streamed output is the simultaneous restoration of everything that was fed. */
  lemma {:induction false} StreamIsSimultaneous(bs: seq<Binding>, chunks: seq<Text>, buffer: Text)
    requires CrossFreeDictionary(bs)
    requires RestoresCleanly(bs, buffer + Concat(chunks))
    ensures StreamOutput(bs, chunks, buffer) == Simultaneous(bs, buffer + Concat(chunks))
    decreases |chunks|
  {
    if chunks == [] {
      assert buffer + Concat(chunks) == buffer;
      WholeIsSimultaneous(bs, buffer);
    } else {
      var b := buffer + chunks[0];
      assert buffer + Concat(chunks) == b + Concat(chunks[1..]);
      HoldCutsNoAlias(AliasesOf(bs), b, Concat(chunks[1..]));
      ReleaseIsSimultaneous(bs, Safe(AliasesOf(bs), b), Held(AliasesOf(bs), b) + Concat(chunks[1..]));
      StreamIsSimultaneous(bs, chunks[1..], Held(AliasesOf(bs), b));
    }
  }

  /** Streaming any chunking of a text gives exactly the whole-text restoration. */
  lemma StreamEqualsWhole(bs: seq<Binding>, chunks: seq<Text>)
    requires CrossFreeDictionary(bs)
    requires RestoresCleanly(bs, Concat(chunks))
    ensures StreamOutput(bs, chunks, "") == RestoreText(bs, Concat(chunks))
  {
    assert "" + Concat(chunks) == Concat(chunks);
    StreamIsSimultaneous(bs, chunks, "");
    WholeIsSimultaneous(bs, Concat(chunks));
  }
}
