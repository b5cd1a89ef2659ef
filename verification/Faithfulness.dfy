/**
 What the name obfuscation is for, as two properties of a set of aliases: a streamed reply is
 restored like the whole reply, and obfuscating then restoring gives the text back. Both hold
 for a set of generated aliases if and only if no alias ends in Q while one begins with Q.
 */
module Faithfulness {
  import opened Aliases
  import opened Restoring
  import opened Substitution
  import opened Wrappers

  ghost predicate Distinct(aliases: seq<Text>) {
    forall i, j | 0 <= i < j < |aliases| :: aliases[i] != aliases[j]
  }

  // ------------------------------------------------------------ the two properties

  ghost predicate StreamAgrees(bs: seq<Binding>, chunks: seq<Text>)
    requires NonEmpty(AliasesOf(bs))
  {
    StreamOutput(bs, chunks, "") == RestoreText(bs, Concat(chunks))
  }

  /** The value-to-alias direction of a dictionary, as its own dictionary. */
  function Inverse(bs: seq<Binding>): (r: seq<Binding>)
    ensures |r| == |bs|
    ensures forall i | 0 <= i < |bs| :: r[i] == Binding(bs[i].value, bs[i].alias)
  {
    seq(|bs|, i requires 0 <= i < |bs| => Binding(bs[i].value, bs[i].alias))
  }

  ghost predicate OneToOne(bs: seq<Binding>) {
    DistinctAliases(bs) && DistinctAliases(Inverse(bs))
  }

  /** A dictionary the obfuscator can hold with these aliases: each value has one, and is not empty. */
  ghost predicate Holds(bs: seq<Binding>, aliases: seq<Text>) {
    && AliasesOf(bs) == aliases && NonEmpty(aliases)
    && OneToOne(bs) && forall b | b in bs :: b.value != ""
  }

  /** For every dictionary with these aliases and every chunking of a text that restores cleanly. */
  ghost predicate StreamFaithful(aliases: seq<Text>) {
    forall bs, chunks | Holds(bs, aliases) && RestoresCleanly(bs, Concat(chunks)) :: StreamAgrees(bs, chunks)
  }

  function Length(t: Text): nat { |t| }

  /** A list the obfuscator can scan for: longest first, and every value of the dictionary is on it. */
  ghost predicate Protects(bs: seq<Binding>, names: seq<Text>) {
    NonEmpty(names) && Descending(names, Length) && forall b | b in bs :: b.value in names
  }

  /** The obfuscation of `text` once every name it contains has its alias. */
  function Obfuscated(bs: seq<Binding>, names: seq<Text>, text: Text): Text
    requires NonEmpty(names)
  {
    Render(Scan(names, text), MapOf(Inverse(bs)))
  }

  ghost predicate NamesBound(bs: seq<Binding>, names: seq<Text>, text: Text)
    requires NonEmpty(names)
  {
    NamesIn(Scan(names, text), AliasesOf(Inverse(bs)))
  }

  ghost predicate RoundTrips(bs: seq<Binding>, names: seq<Text>, text: Text)
    requires NonEmpty(AliasesOf(bs)) && NonEmpty(names)
  {
    RestoreText(bs, Obfuscated(bs, names, text)) == text
  }

  /** For every dictionary with these aliases, its lists of names, and every text without an alias. */
  ghost predicate RoundTripFaithful(aliases: seq<Text>) {
    forall bs, names, text |
      && Holds(bs, aliases) && Protects(bs, names)
      && NamesBound(bs, names, text) && AliasFree(bs, text) :: RoundTrips(bs, names, text)
  }

  // ------------------------------------------------------------ cross-free is enough

  /** The pieces of an obfuscated text: the scanned names, each as its alias. */
  function Aliased(ps: seq<Piece>, m: map<Text, Text>): (qs: seq<Piece>)
    ensures Render(qs, map[]) == Render(ps, m)
    ensures forall q | q in qs && q.Name? ::
              exists p :: p in ps && p.Name? && q.key == (if p.key in m then m[p.key] else p.key)
  {
    if ps == [] then []
    else
      (match ps[0]
       case Lit(c) => [Lit(c)]
       case Name(k) => assert ps[0] in ps; [Name(if k in m then m[k] else k)]) + Aliased(ps[1..], m)
  }

  lemma InverseMaps(bs: seq<Binding>, v: Text)
    requires OneToOne(bs) && v in AliasesOf(Inverse(bs))
    ensures v in MapOf(Inverse(bs))
    ensures MapOf(Inverse(bs))[v] in AliasesOf(bs)
    ensures MapOf(Inverse(bs))[v] in MapOf(bs)
    ensures MapOf(bs)[MapOf(Inverse(bs))[v]] == v
  {
    var i :| 0 <= i < |bs| && AliasesOf(Inverse(bs))[i] == v;
    assert bs[i] in bs && Inverse(bs)[i] in Inverse(bs);
    assert AliasesOf(bs)[i] == bs[i].alias;
  }

  /** Rendering the aliased pieces with the inverse map gives the original text. */
  lemma {:induction false} AliasedRenders(bs: seq<Binding>, ps: seq<Piece>)
    requires OneToOne(bs) && NamesIn(ps, AliasesOf(Inverse(bs)))
    ensures Render(Aliased(ps, MapOf(Inverse(bs))), MapOf(bs)) == Render(ps, map[])
  {
    if ps != [] {
      assert ps[0] in ps;
      forall p | p in ps[1..] ensures p in ps {}
      AliasedRenders(bs, ps[1..]);
      if ps[0].Name? { InverseMaps(bs, ps[0].key); }
    }
  }

  /** Obfuscating then restoring a text that contains no alias gives it back. */
  lemma RoundTrip(bs: seq<Binding>, names: seq<Text>, text: Text)
    requires CrossFree(AliasesOf(bs)) && OneToOne(bs) && NonEmpty(names)
    requires NamesBound(bs, names, text) && AliasFree(bs, text)
    ensures RoundTrips(bs, names, text)
  {
    hide CrossFree, MapOf, Inverse, Scan;
    var ps, m := Scan(names, text), MapOf(Inverse(bs));
    var qs := Aliased(ps, m);
    AliasedRenders(bs, ps);
    forall q | q in qs && q.Name?
      ensures q.key in AliasesOf(bs)
    {
      var p :| p in ps && p.Name? && q.key == (if p.key in m then m[p.key] else p.key);
      InverseMaps(bs, p.key);
    }
    RestoreIsSimultaneous(bs, qs);
  }

  // ------------------------------------------------------------ the hazard breaks both

  /** A generated alias does not occur where the text has one more, foreign character. */
  lemma NoOtherAliasAt(a: Text, c: char, x: Text, p: nat)
    requires Generated(a) && Generated(x) && p <= |a| + 1
    requires c in "t#$%"
    requires p > 0 || x != a
    ensures !(x <= (a + [c])[p..])
  {
    var t := (a + [c])[p..];
    AliasShape(x);
    AliasShape(a);
    if p < |a| {
      assert t == a[p..] + [c];
      if p == 0 {
        assert a[0..] == a;
        if Comparable(a, x) { PrefixIsEqual(a, x); }
      } else if Comparable(a[p..], x) {
        BeginsInsideOnlyAtFinalQ(a, p, x);
      }
    }
  }

  /** Restoring leaves a text without aliases alone. */
  lemma {:induction false} ReplaceEachAliasFree(bs: seq<Binding>, text: Text)
    requires forall b | b in bs :: b.alias != "" && !Occurs(b.alias, text)
    ensures ReplaceEach(bs, text) == text
  {
    if bs != [] {
      var b := bs[0];
      assert b in bs;
      assert text + "" == text;
      ReplaceSkips(text, "", b.alias, b.value);
      forall c | c in bs[1..] ensures c in bs {}
      ReplaceEachAliasFree(bs[1..], text);
    }
  }

  /** A proper part of a generated alias, from its start, contains no alias. */
  lemma PartOfAliasIsAliasFree(a: Text, n: nat, x: Text)
    requires Generated(a) && Generated(x) && n < |a|
    ensures !Occurs(x, a[..n])
  {
    forall p | 0 <= p <= n
      ensures !(x <= a[..n][p..])
    {
      assert (a + ['t'])[p..][..n - p] == a[..n][p..];
      if p > 0 || x != a { NoOtherAliasAt(a, 't', x, p); }
    }
  }

  /** An alias whose value is one character, followed by a `t`, is restored to two characters. */
  lemma {:induction false} ReplaceEachMarked(bs: seq<Binding>, a: Text)
    requires forall b | b in bs :: Generated(b.alias) && (b.alias == a ==> b.value == "#")
    requires Generated(a)
    requires exists b :: b in bs && b.alias == a
    ensures forall b | b in bs :: b.alias != ""
    ensures ReplaceEach(bs, a + "t") == "#t"
  {
    forall b | b in bs
      ensures b.alias != "" && !Occurs(b.alias, "#t") && |b.alias| > 2
    {
      AliasShape(b.alias);
    }
    var b := bs[0];
    assert b in bs;
    if b.alias == a {
      assert (a + "t")[|a|..] == "t";
      assert "t" + "" == "t";
      ReplaceSkips("t", "", a, "#");
      assert Replace(a + "t", a, "#") == "#t";
      ReplaceEachAliasFree(bs[1..], "#t");
    } else {
      forall j | 0 <= j < |a + "t"|
        ensures !(b.alias <= ((a + "t") + "")[j..])
      {
        assert (a + "t") + "" == a + ['t'];
        NoOtherAliasAt(a, 't', b.alias, j);
      }
      ReplaceSkips(a + "t", "", b.alias, b.value);
      assert (a + "t") + "" == a + "t";
      ReplaceEachMarked(bs[1..], a);
    }
  }

  /** Different values for different aliases, each recognisable by its first character. */
  function ValueFor(x: Text, a: Text, b: Text): Text {
    if x == a then "#" else if x == b then "$" else "%" + x
  }

  function Valued(aliases: seq<Text>, a: Text, b: Text): (bs: seq<Binding>)
    ensures AliasesOf(bs) == aliases
    ensures forall i | 0 <= i < |aliases| :: bs[i] == Binding(aliases[i], ValueFor(aliases[i], a, b))
  {
    seq(|aliases|, i requires 0 <= i < |aliases| => Binding(aliases[i], ValueFor(aliases[i], a, b)))
  }

  lemma ValuedIsHeld(aliases: seq<Text>, a: Text, b: Text)
    requires Distinct(aliases) && NonEmpty(aliases)
    ensures Holds(Valued(aliases, a, b), aliases)
  {
    var bs := Valued(aliases, a, b);
    forall i, j | 0 <= i < j < |bs|
      ensures Inverse(bs)[i].alias != Inverse(bs)[j].alias
    {
      var x, y := aliases[i], aliases[j];
      assert ("%" + x)[1..] == x && ("%" + y)[1..] == y;
      assert ("%" + x)[0] == ("%" + y)[0] == '%';
    }
  }

  /** The scan of `a` followed by `t` finds `a` and nothing else. */
  lemma ScanOfAliasAndT(aliases: seq<Text>, a: Text)
    requires AllGenerated(aliases) && NonEmpty(aliases) && a in aliases
    ensures Scan(aliases, a + "t") == [Name(a), Lit('t')]
  {
    var text := a + "t";
    forall x | x in aliases
      ensures x <= text ==> x == a
      ensures !(x <= "t")
    {
      AliasShape(x);
      assert (a + ['t'])[0..] == text;
      if x != a { NoOtherAliasAt(a, 't', x, 0); }
    }
    assert FirstMatch(aliases, text) == Some(a);
    assert text[|a|..] == "t";
    assert FirstMatch(aliases, "t") == None;
    assert "t"[1..] == "";
    assert Scan(aliases, "t") == [Lit('t')] + Scan(aliases, "");
  }

  lemma RenderMarked(m: map<Text, Text>, a: Text)
    requires a in m && m[a] == "#"
    ensures Render([Name(a), Lit('t')], m) == "#t"
  {
    assert [Name(a), Lit('t')][1..] == [Lit('t')];
    assert Render([Lit('t')], m) == "t";
  }

  lemma ValuedMap(aliases: seq<Text>, a: Text, b: Text)
    requires Distinct(aliases) && NonEmpty(aliases) && a in aliases
    ensures a in MapOf(Valued(aliases, a, b)) && MapOf(Valued(aliases, a, b))[a] == "#"
  {
    ValuedIsHeld(aliases, a, b);
    var i :| 0 <= i < |aliases| && aliases[i] == a;
    assert Valued(aliases, a, b)[i] in Valued(aliases, a, b);
  }

  /** `a` followed by `t` restores to a hash and a `t`, at once ... */
  lemma ValuedSimultaneous(aliases: seq<Text>, a: Text, b: Text)
    requires AllGenerated(aliases) && NonEmpty(aliases) && Distinct(aliases) && a in aliases
    ensures Simultaneous(Valued(aliases, a, b), a + "t") == "#t"
  {
    ScanOfAliasAndT(aliases, a);
    ValuedMap(aliases, a, b);
    RenderMarked(MapOf(Valued(aliases, a, b)), a);
  }

  /** ... and in sequence. */
  lemma ValuedSequential(aliases: seq<Text>, a: Text, b: Text)
    requires AllGenerated(aliases) && NonEmpty(aliases) && a in aliases
    ensures RestoreText(Valued(aliases, a, b), a + "t") == "#t"
  {
    var bs := Valued(aliases, a, b);
    AliasIn(bs);
    assert exists x :: x in RestoringOrder(bs) && x.alias == a;
    forall x | x in RestoringOrder(bs) ensures Generated(x.alias) && (x.alias == a ==> x.value == "#") {
      var i :| 0 <= i < |bs| && bs[i] == x;
    }
    ReplaceEachMarked(RestoringOrder(bs), a);
  }

  lemma TwoCharactersAreAliasFree(bs: seq<Binding>, text: Text)
    requires AllGenerated(AliasesOf(bs)) && |text| <= 2
    ensures AliasFree(bs, text)
  {
    forall x | x in AliasesOf(bs)
      ensures !Occurs(x, text)
    {
      AliasShape(x);
    }
  }

  lemma HoldAtLeast(aliases: seq<Text>, buffer: Text, l: nat)
    requires NonEmpty(aliases)
    requires l <= |buffer| && l <= MaxPartial(aliases)
    requires StartsAnAlias(aliases, Suffix(buffer, l))
    ensures l <= HoldLength(aliases, buffer)
  {}

  lemma HoldIsNot(aliases: seq<Text>, buffer: Text, l: nat)
    requires NonEmpty(aliases)
    requires 0 < l <= |buffer| && !StartsAnAlias(aliases, Suffix(buffer, l))
    ensures l != HoldLength(aliases, buffer)
  {}

  lemma HazardHoldsTwo(aliases: seq<Text>, a: Text, b: Text)
    requires AllGenerated(aliases) && NonEmpty(aliases) && a in aliases && b in aliases
    requires a[|a| - 1] == 'Q' && b[0] == 'Q'
    ensures 2 <= HoldLength(aliases, a + "t")
  {
    AliasShape(a);
    AliasShape(b);
    assert Suffix(a + "t", 2) == "Qt" <= b;
    assert StartsAnAlias(aliases, Suffix(a + "t", 2));
    HoldAtLeast(aliases, a + "t", 2);
  }

  /** No alias starts with more of the end of `a` and a `t` than the last two characters. */
  lemma HazardHoldsNoMore(aliases: seq<Text>, a: Text, l: nat)
    requires AllGenerated(aliases) && NonEmpty(aliases) && a in aliases && 2 < l <= |a| + 1
    ensures !StartsAnAlias(aliases, Suffix(a + "t", l))
  {
    var k: nat := |a| + 1 - l;
    assert Suffix(a + "t", l) == a[k..] + "t";
    forall x | x in aliases
      ensures !(a[k..] + "t" <= x)
    {
      if k == 0 {
        assert a[0..] == a;
        if Comparable(a, x) { PrefixIsEqual(a, x); }
      } else if Comparable(a[k..], x) {
        BeginsInsideOnlyAtFinalQ(a, k, x);
      }
    }
  }

  lemma HazardHoldsExactlyTwo(aliases: seq<Text>, a: Text, b: Text)
    requires AllGenerated(aliases) && NonEmpty(aliases) && a in aliases && b in aliases
    requires a[|a| - 1] == 'Q' && b[0] == 'Q'
    ensures HoldLength(aliases, a + "t") == 2
  {
    HazardHoldsTwo(aliases, a, b);
    var l := HoldLength(aliases, a + "t");
    if l > 2 {
      HazardHoldsNoMore(aliases, a, l);
      HoldIsNot(aliases, a + "t", l);
    }
  }

  lemma StreamOneChunk(bs: seq<Binding>, buffer: Text)
    requires NonEmpty(AliasesOf(bs))
    ensures Concat([buffer]) == buffer
    ensures StreamOutput(bs, [buffer], "")
         == RestoreText(bs, Safe(AliasesOf(bs), buffer)) + RestoreText(bs, Held(AliasesOf(bs), buffer))
  {
    assert "" + [buffer][0] == buffer;
    assert StreamOutput(bs, [buffer][1..], Held(AliasesOf(bs), buffer)) == RestoreText(bs, Held(AliasesOf(bs), buffer));
  }

  lemma RestoreOfPart(bs: seq<Binding>, a: Text, n: nat)
    requires AllGenerated(AliasesOf(bs)) && NonEmpty(AliasesOf(bs)) && Generated(a) && n < |a|
    ensures RestoreText(bs, a[..n]) == a[..n]
  {
    AliasIn(bs);
    forall b | b in RestoringOrder(bs)
      ensures b.alias != "" && !Occurs(b.alias, a[..n])
    {
      PartOfAliasIsAliasFree(a, n, b.alias);
    }
    ReplaceEachAliasFree(RestoringOrder(bs), a[..n]);
  }

  /** The two held characters are no alias, so nothing of them is restored. */
  lemma RestoreOfHeldEnd(bs: seq<Binding>)
    requires AllGenerated(AliasesOf(bs)) && NonEmpty(AliasesOf(bs))
    ensures RestoreText(bs, "Qt") == "Qt"
  {
    AliasIn(bs);
    TwoCharactersAreAliasFree(bs, "Qt");
    assert forall b | b in RestoringOrder(bs) :: b.alias in AliasesOf(bs);
    ReplaceEachAliasFree(RestoringOrder(bs), "Qt");
  }

  lemma HazardSplits(aliases: seq<Text>, a: Text, b: Text)
    requires AllGenerated(aliases) && NonEmpty(aliases) && a in aliases && b in aliases
    requires a[|a| - 1] == 'Q' && b[0] == 'Q'
    ensures Safe(aliases, a + "t") == a[..|a| - 1] && Held(aliases, a + "t") == "Qt"
  {
    HazardHoldsExactlyTwo(aliases, a, b);
  }

  lemma ValuedRestoresCleanly(aliases: seq<Text>, a: Text, b: Text)
    requires AllGenerated(aliases) && NonEmpty(aliases) && Distinct(aliases) && a in aliases
    ensures RestoreText(Valued(aliases, a, b), a + "t") == "#t" && RestoresCleanly(Valued(aliases, a, b), a + "t")
  {
    ValuedSequential(aliases, a, b);
    ValuedSimultaneous(aliases, a, b);
    TwoCharactersAreAliasFree(Valued(aliases, a, b), "#t");
  }

  /**
   With a dictionary the obfuscator can hold, streaming `a` and a `t` in one chunk shows the alias
   as it is, although the whole text restores cleanly and without it.
   */
  lemma HazardLeaks(aliases: seq<Text>, a: Text, b: Text)
    requires AllGenerated(aliases) && NonEmpty(aliases) && Distinct(aliases) && a in aliases && b in aliases
    requires a[|a| - 1] == 'Q' && b[0] == 'Q'
    ensures var bs := Valued(aliases, a, b);
            && Holds(bs, aliases)
            && StreamOutput(bs, [a + "t"], "") == a + "t"
            && RestoreText(bs, a + "t") == "#t" && RestoresCleanly(bs, a + "t")
  {
    hide HoldLength, StreamOutput, RestoreText, MapOf, Scan, StartsAnAlias;
    var bs := Valued(aliases, a, b);
    ValuedIsHeld(aliases, a, b);
    HazardSplits(aliases, a, b);
    RestoreOfPart(bs, a, |a| - 1);
    RestoreOfHeldEnd(bs);
    StreamOneChunk(bs, a + "t");
    assert a[..|a| - 1] + "Qt" == a + "t";
    ValuedRestoresCleanly(aliases, a, b);
  }

  lemma HazardBreaksStream(aliases: seq<Text>)
    requires AllGenerated(aliases) && NonEmpty(aliases) && Distinct(aliases) && QHazard(aliases)
    ensures !StreamFaithful(aliases)
  {
    hide StreamOutput, RestoreText, RestoresCleanly, Holds;
    var a :| a in aliases && a != "" && a[|a| - 1] == 'Q';
    var b :| b in aliases && b != "" && b[0] == 'Q';
    var bs, chunks := Valued(aliases, a, b), [a + "t"];
    StreamOneChunk(bs, a + "t");
    HazardLeaks(aliases, a, b);
    AliasShape(a);
    assert (a + "t")[0] != "#t"[0];
    assert !StreamAgrees(bs, chunks);
  }

  /** Generated aliases stream faithfully exactly when the hazard is absent. */
  lemma StreamFaithfulIff(aliases: seq<Text>)
    requires AllGenerated(aliases) && Distinct(aliases)
    ensures StreamFaithful(aliases) <==> !QHazard(aliases)
  {
    CrossFreeIff(aliases);
    if QHazard(aliases) {
      GeneratedAreNonEmpty(aliases);
      HazardBreaksStream(aliases);
    } else {
      forall bs, chunks | Holds(bs, aliases) && RestoresCleanly(bs, Concat(chunks))
        ensures StreamAgrees(bs, chunks)
      {
        StreamEqualsWhole(bs, chunks);
      }
    }
  }

  // ---------------------------------------------- two texts with the same obfuscation

  /** Every name begins with one of the three marks, and one of the first two is a name by itself. */
  ghost predicate MarkedNames(names: seq<Text>) {
    forall n | n in names :: n != "" && n[0] in "#$%" && (n[0] in "#$" ==> |n| == 1)
  }

  ghost predicate Unmarked(x: Text) {
    forall i | 0 <= i < |x| :: x[i] !in "#$%"
  }

  lemma {:induction false} ScanUnmarked(names: seq<Text>, x: Text)
    requires MarkedNames(names) && Unmarked(x)
    ensures Scan(names, x) == Lits(x)
  {
    if x != "" {
      assert FirstMatch(names, x) == None;
      ScanUnmarked(names, x[1..]);
      assert Lits(x) == [Lit(x[0])] + Lits(x[1..]);
    }
  }

  lemma ScanMark(names: seq<Text>, c: char)
    requires MarkedNames(names) && [c] in names
    ensures Scan(names, [c]) == [Name([c])]
  {
    var m := FirstMatch(names, [c]);
    assert m.Some? && m.value == [c];
    assert [c][1..] == "";
  }

  lemma NothingStartsUnmarked(names: seq<Text>, x: Text, y: Text)
    requires MarkedNames(names) && Unmarked(x)
    ensures forall n, i: nat | n in names && i < |x| :: !(n <= (x + y)[i..])
  {
    forall n, i: nat | n in names && i < |x| ensures !(n <= (x + y)[i..]) {
      assert (x + y)[i..][0] == x[i];
    }
  }

  lemma MarkEnds(names: seq<Text>, x: Text, c: char, y: Text)
    requires MarkedNames(names) && c in "#$" && Unmarked(x)
    ensures NoStraddle(names, x, [c]) && NoStraddle(names, x + [c], y)
  {
    NothingStartsUnmarked(names, x, [c]);
    NothingStartsUnmarked(names, x, [c] + y);
    assert x + [c] + y == x + ([c] + y);
    forall n, i: nat | n in names && i < |x + [c]| && n <= (x + [c] + y)[i..] ensures i + |n| <= |x + [c]| {
      assert i == |x| && n[0] == c;
    }
  }

  /** Around a mark no name reaches across. */
  lemma ScanAroundMark(names: seq<Text>, x: Text, c: char, y: Text)
    requires MarkedNames(names) && [c] in names && c in "#$" && Unmarked(x) && Unmarked(y)
    ensures Scan(names, x + [c] + y) == Lits(x) + [Name([c])] + Lits(y)
  {
    hide Scan;
    MarkEnds(names, x, c, y);
    ScanUnmarked(names, x);
    ScanMark(names, c);
    ScanUnmarked(names, y);
    ScanSplits(names, x, [c]);
    ScanSplits(names, x + [c], y);
  }

  lemma RenderAroundMark(m: map<Text, Text>, x: Text, c: char, y: Text)
    requires [c] in m
    ensures Render(Lits(x) + [Name([c])] + Lits(y), m) == x + m[[c]] + y
  {
    RenderConcat(Lits(x), [Name([c])], m);
    RenderConcat(Lits(x) + [Name([c])], Lits(y), m);
    RenderLits(x, m);
    RenderLits(y, m);
    assert Render([Name([c])], m) == m[[c]];
  }

  /** A text of unmarked characters with one mark in it. */
  lemma ObfuscateMarked(bs: seq<Binding>, names: seq<Text>, x: Text, c: char, y: Text)
    requires MarkedNames(names) && [c] in names && c in "#$" && Unmarked(x) && Unmarked(y)
    requires [c] in MapOf(Inverse(bs)) && [c] in AliasesOf(Inverse(bs))
    ensures NamesBound(bs, names, x + [c] + y)
    ensures Obfuscated(bs, names, x + [c] + y) == x + MapOf(Inverse(bs))[[c]] + y
  {
    hide Scan, Render, MapOf, Inverse, MarkedNames, Unmarked;
    ScanAroundMark(names, x, c, y);
    RenderAroundMark(MapOf(Inverse(bs)), x, c, y);
  }

  /** All values of the dictionary, longest first. */
  function ValuedNames(aliases: seq<Text>, a: Text, b: Text): (names: seq<Text>)
    ensures Descending(names, Length)
  {
    LongestFirst(AliasesOf(Inverse(Valued(aliases, a, b))), Length)
  }

  lemma ValuedNamesAre(aliases: seq<Text>, a: Text, b: Text)
    ensures forall n ::
              n in ValuedNames(aliases, a, b) <==> exists i :: 0 <= i < |aliases| && n == ValueFor(aliases[i], a, b)
  {
    hide LongestFirst, ValueFor;
    var values := AliasesOf(Inverse(Valued(aliases, a, b)));
    SameElements(ValuedNames(aliases, a, b), values);
    assert forall i | 0 <= i < |aliases| :: values[i] == ValueFor(aliases[i], a, b);
    forall n ensures n in values <==> exists i :: 0 <= i < |aliases| && n == ValueFor(aliases[i], a, b) {
      if n in values { var i :| 0 <= i < |values| && values[i] == n; }
    }
  }

  lemma ValuedNamesAreMarked(aliases: seq<Text>, a: Text, b: Text)
    ensures MarkedNames(ValuedNames(aliases, a, b)) && Protects(Valued(aliases, a, b), ValuedNames(aliases, a, b))
    ensures forall x | x in aliases :: ValueFor(x, a, b) in ValuedNames(aliases, a, b)
  {
    hide ValuedNames;
    ValuedNamesAre(aliases, a, b);
    forall x | x in aliases ensures ValueFor(x, a, b) in ValuedNames(aliases, a, b) {
      var i :| 0 <= i < |aliases| && aliases[i] == x;
      assert ValueFor(x, a, b) == ValueFor(aliases[i], a, b);
    }
    var bs := Valued(aliases, a, b);
    forall x | x in bs ensures x.value in ValuedNames(aliases, a, b) {
      var i :| 0 <= i < |bs| && bs[i] == x;
      assert x.value == ValueFor(aliases[i], a, b);
    }
  }

  lemma ValuedInverse(aliases: seq<Text>, a: Text, b: Text, x: Text)
    requires Distinct(aliases) && NonEmpty(aliases) && x in aliases
    ensures ValueFor(x, a, b) in AliasesOf(Inverse(Valued(aliases, a, b)))
    ensures ValueFor(x, a, b) in MapOf(Inverse(Valued(aliases, a, b)))
    ensures MapOf(Inverse(Valued(aliases, a, b)))[ValueFor(x, a, b)] == x
  {
    var inv := Inverse(Valued(aliases, a, b));
    var i :| 0 <= i < |aliases| && aliases[i] == x;
    ValuedIsHeld(aliases, a, b);
    assert inv[i] in inv;
    assert AliasesOf(inv)[i] == ValueFor(x, a, b);
  }

  /** A value standing before the rest of an alias forms no alias with it. */
  lemma MarkThenRestIsAliasFree(b: Text, c: char, x: Text)
    requires Generated(b) && Generated(x) && c in "#$"
    ensures !Occurs(x, "" + [c] + b[1..])
  {
    var t := "" + [c] + b[1..];
    AliasShape(x);
    AliasShape(b);
    forall p | 0 <= p <= |t|
      ensures !(x <= t[p..])
    {
      if p > 0 {
        assert t[p..] == b[p..];
        if p < |b| && Comparable(b[p..], x) { BeginsInsideOnlyAtFinalQ(b, p, x); }
      }
    }
  }

  /** Nor does a value standing after the front of an alias. */
  lemma FrontThenMarkIsAliasFree(a: Text, c: char, x: Text)
    requires Generated(a) && Generated(x) && c in "#$"
    ensures |a| > 1
    ensures !Occurs(x, a[..|a| - 1] + [c] + "")
  {
    AliasShape(x);
    AliasShape(a);
    var front := a[..|a| - 1];
    var t := front + [c] + "";
    PartOfAliasIsAliasFree(a, |a| - 1, x);
    forall p | 0 <= p <= |t|
      ensures !(x <= t[p..])
    {
      if p + |x| <= |front| {
        assert t[p..][..|x|] == front[p..][..|x|];
        assert !(x <= front[p..]);
      } else if p + |x| == |t| {
        assert t[p..][|x| - 1] == c;
      }
    }
  }

  function HazardMark(a: Text, b: Text): (c: char)
    ensures c in "#$"
  {
    if a == b then '#' else '$'
  }

  /** The value of `a` before the rest of `b`, and the front of `a` before the value of `b`. */
  function ValueThenRest(b: Text): Text
    requires b != ""
  {
    "" + ['#'] + b[1..]
  }

  function FrontThenValue(a: Text, b: Text): Text
    requires a != ""
  {
    a[..|a| - 1] + [HazardMark(a, b)] + ""
  }

  lemma HazardTextsAreAliasFree(bs: seq<Binding>, a: Text, b: Text)
    requires AllGenerated(AliasesOf(bs)) && a != "" && b != "" && Generated(a) && Generated(b)
    ensures AliasFree(bs, ValueThenRest(b)) && AliasFree(bs, FrontThenValue(a, b))
    ensures ValueThenRest(b) != FrontThenValue(a, b)
  {
    forall x | x in AliasesOf(bs)
      ensures !Occurs(x, ValueThenRest(b)) && !Occurs(x, FrontThenValue(a, b))
    {
      MarkThenRestIsAliasFree(b, '#', x);
      FrontThenMarkIsAliasFree(a, HazardMark(a, b), x);
    }
    AliasShape(a);
    assert ValueThenRest(b)[0] == '#' && FrontThenValue(a, b)[0] == a[0];
  }

  /** Obfuscating a text in which only the value of `x` is marked. */
  lemma ObfuscateValueOf(aliases: seq<Text>, a: Text, b: Text, x: Text, c: char, before: Text, after: Text)
    requires NonEmpty(aliases) && Distinct(aliases) && x in aliases
    requires ValueFor(x, a, b) == [c] && c in "#$" && Unmarked(before) && Unmarked(after)
    ensures MarkedNames(ValuedNames(aliases, a, b))
    ensures NamesBound(Valued(aliases, a, b), ValuedNames(aliases, a, b), before + [c] + after)
    ensures Obfuscated(Valued(aliases, a, b), ValuedNames(aliases, a, b), before + [c] + after) == before + x + after
  {
    ValuedInverse(aliases, a, b, x);
    ValuedNamesAreMarked(aliases, a, b);
    ObfuscateMarked(Valued(aliases, a, b), ValuedNames(aliases, a, b), before, c, after);
  }

  lemma SharedQ(a: Text, b: Text)
    requires a != "" && b != "" && a[|a| - 1] == 'Q' && b[0] == 'Q'
    ensures "" + a + b[1..] == a[..|a| - 1] + b + ""
  {
    assert a == a[..|a| - 1] + ['Q'] && b == ['Q'] + b[1..];
  }

  /**
   For one obfuscator, with one dictionary and one list of all its values, two different texts
   without aliases obfuscate to the same text.
   */
  lemma HazardObfuscatesAlike(aliases: seq<Text>, a: Text, b: Text)
    requires AllGenerated(aliases) && NonEmpty(aliases) && Distinct(aliases) && a in aliases && b in aliases
    requires a[|a| - 1] == 'Q' && b[0] == 'Q'
    ensures var bs, names := Valued(aliases, a, b), ValuedNames(aliases, a, b);
            && Holds(bs, aliases) && Protects(bs, names)
            && NamesBound(bs, names, ValueThenRest(b)) && NamesBound(bs, names, FrontThenValue(a, b))
            && ValueThenRest(b) != FrontThenValue(a, b)
            && AliasFree(bs, ValueThenRest(b)) && AliasFree(bs, FrontThenValue(a, b))
            && Obfuscated(bs, names, ValueThenRest(b)) == Obfuscated(bs, names, FrontThenValue(a, b))
  {
    hide NamesBound, Obfuscated, AliasFree, MarkedNames, OneToOne;
    AliasShape(a);
    AliasShape(b);
    ValuedIsHeld(aliases, a, b);
    ValuedNamesAreMarked(aliases, a, b);
    ObfuscateValueOf(aliases, a, b, a, '#', "", b[1..]);
    ObfuscateValueOf(aliases, a, b, b, HazardMark(a, b), a[..|a| - 1], "");
    SharedQ(a, b);
    HazardTextsAreAliasFree(Valued(aliases, a, b), a, b);
  }

  /** Of two texts with one obfuscation at most one is restored. */
  lemma AlikeIsNotRestored(bs: seq<Binding>, names: seq<Text>, s: Text, t: Text)
    requires Holds(bs, AliasesOf(bs)) && Protects(bs, names) && s != t
    requires NamesBound(bs, names, s) && AliasFree(bs, s) && NamesBound(bs, names, t) && AliasFree(bs, t)
    requires Obfuscated(bs, names, s) == Obfuscated(bs, names, t)
    ensures !RoundTripFaithful(AliasesOf(bs))
  {
    hide NamesBound, AliasFree, Obfuscated, RestoreText, OneToOne, Descending;
    assert !RoundTrips(bs, names, s) || !RoundTrips(bs, names, t);
  }

  lemma HazardBreaksRoundTrip(aliases: seq<Text>, a: Text, b: Text)
    requires AllGenerated(aliases) && NonEmpty(aliases) && Distinct(aliases)
    requires a in aliases && b in aliases
    requires a[|a| - 1] == 'Q' && b[0] == 'Q'
    ensures !RoundTripFaithful(aliases)
  {
    hide Holds, Protects, NamesBound, AliasFree, Obfuscated, RoundTripFaithful;
    HazardObfuscatesAlike(aliases, a, b);
    AlikeIsNotRestored(Valued(aliases, a, b), ValuedNames(aliases, a, b), ValueThenRest(b), FrontThenValue(a, b));
  }

  /** Generated aliases are undone exactly when the hazard is absent. */
  lemma RoundTripFaithfulIff(aliases: seq<Text>)
    requires AllGenerated(aliases) && Distinct(aliases)
    ensures RoundTripFaithful(aliases) <==> !QHazard(aliases)
  {
    CrossFreeIff(aliases);
    if QHazard(aliases) {
      GeneratedAreNonEmpty(aliases);
      var a :| a in aliases && a != "" && a[|a| - 1] == 'Q';
      var b :| b in aliases && b != "" && b[0] == 'Q';
      HazardBreaksRoundTrip(aliases, a, b);
    } else {
      forall bs, names, text |
        && Holds(bs, aliases) && Protects(bs, names)
        && NamesBound(bs, names, text) && AliasFree(bs, text)
        ensures RoundTrips(bs, names, text)
      {
        RoundTrip(bs, names, text);
      }
    }
  }
}
