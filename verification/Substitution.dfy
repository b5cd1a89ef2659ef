/**
 Multi-pattern substitution on text: the leftmost scan of `re.sub` over an alternation, and the
 repeated `str.replace` that undoes it. The main result, `SequentialIsSimultaneous`, says when
 replacing the names one after another gives the same text as replacing them all at once.
 */
module Substitution {

  import opened Wrappers

  type Text = string

  /** A scanned text is a sequence of single characters and recognised names. */
  datatype Piece = Lit(c: char) | Name(key: Text)

  /** One dictionary entry of the restoring direction. */
  datatype Binding = Binding(alias: Text, value: Text)

  // ---------------------------------------------------------------- scanning

  ghost predicate NonEmpty(patterns: seq<Text>) {
    forall p | p in patterns :: p != ""
  }

  /** The first listed pattern that `text` starts with: how a regex alternation chooses. */
  function FirstMatch(patterns: seq<Text>, text: Text): (m: Option<Text>)
    ensures m.Some? ==> m.value in patterns && m.value <= text
    ensures m.None? ==> forall p | p in patterns :: !(p <= text)
  {
    if patterns == [] then None
    else if patterns[0] <= text then Some(patterns[0])
    else
      assert forall p | p in patterns :: p == patterns[0] || p in patterns[1..];
      FirstMatch(patterns[1..], text)
  }

  /** The pieces a left-to-right scan recognises. */
  function Scan(patterns: seq<Text>, text: Text): (ps: seq<Piece>)
    requires NonEmpty(patterns)
    ensures forall p | p in ps && p.Name? :: p.key in patterns
    ensures Render(ps, map[]) == text
    decreases |text|
  {
    if text == "" then []
    else
      var m := FirstMatch(patterns, text);
      if m.Some? then [Name(m.value)] + Scan(patterns, text[|m.value|..])
      else [Lit(text[0])] + Scan(patterns, text[1..])
  }

  /** The text of the pieces, with every name the map knows replaced by its image. */
  function Render(ps: seq<Piece>, m: map<Text, Text>): Text {
    if ps == [] then ""
    else
      (match ps[0]
       case Lit(c) => [c]
       case Name(k) => if k in m then m[k] else k) + Render(ps[1..], m)
  }

  lemma RenderConcat(ps: seq<Piece>, qs: seq<Piece>, m: map<Text, Text>)
    ensures Render(ps + qs, m) == Render(ps, m) + Render(qs, m)
  {
    if ps == [] {
      assert ps + qs == qs;
    } else {
      assert (ps + qs)[1..] == ps[1..] + qs;
      RenderConcat(ps[1..], qs, m);
    }
  }

  ghost predicate AllLit(ps: seq<Piece>) {
    forall p | p in ps :: p.Lit?
  }

  function Lits(t: Text): (ps: seq<Piece>)
    ensures |ps| == |t|
    ensures AllLit(ps)
  {
    seq(|t|, i requires 0 <= i < |t| => Lit(t[i]))
  }

  lemma RenderLits(t: Text, m: map<Text, Text>)
    ensures Render(Lits(t), m) == t
  {
    if t != "" {
      assert Lits(t)[1..] == Lits(t[1..]);
      RenderLits(t[1..], m);
    }
  }

  lemma RenderAllLit(ps: seq<Piece>, m: map<Text, Text>)
    requires AllLit(ps)
    ensures Render(ps, m) == Render(ps, map[])
  {}

  // ------------------------------------------------- what the scan leaves over

  /** Any suffix of the pieces is itself the scan of the text it stands for. */
  lemma ScanSuffix(patterns: seq<Text>, text: Text, i: nat)
    requires NonEmpty(patterns)
    requires i <= |Scan(patterns, text)|
    ensures Scan(patterns, Render(Scan(patterns, text)[i..], map[])) == Scan(patterns, text)[i..]
    decreases |text|
  {
    hide Render, FirstMatch;
    var ps := Scan(patterns, text);
    if i == 0 {
      assert ps[0..] == ps;
    } else {
      var m := FirstMatch(patterns, text);
      var rest := if m.Some? then text[|m.value|..] else text[1..];
      assert ps[1..] == Scan(patterns, rest);
      ScanSuffix(patterns, rest, i - 1);
      assert ps[i..] == ps[1..][i - 1..];
    }
  }

  ghost predicate Occurs(a: Text, text: Text) {
    exists i | 0 <= i <= |text| :: a <= text[i..]
  }

  /** Where the scan kept a character, no pattern starts. */
  lemma NoPatternAtLiteral(patterns: seq<Text>, text: Text, i: nat)
    requires NonEmpty(patterns)
    requires i < |Scan(patterns, text)| && Scan(patterns, text)[i].Lit?
    ensures forall p | p in patterns :: !(p <= Render(Scan(patterns, text)[i..], map[]))
  {
    var tail := Render(Scan(patterns, text)[i..], map[]);
    ScanSuffix(patterns, text, i);
    assert Scan(patterns, tail)[0].Lit?;
  }

  lemma LiteralRunLength(ps: seq<Piece>)
    requires AllLit(ps)
    ensures |Render(ps, map[])| == |ps|
  {}

  lemma LiteralRunDrop(ps: seq<Piece>, k: nat)
    requires AllLit(ps) && k <= |ps|
    ensures |Render(ps, map[])| == |ps|
    ensures Render(ps, map[])[k..] == Render(ps[k..], map[])
  {
    LiteralRunLength(ps);
    if k > 0 {
      LiteralRunDrop(ps[1..], k - 1);
      assert ps[1..][k - 1..] == ps[k..];
    } else {
      assert ps[0..] == ps;
    }
  }

  lemma NoPatternInLiteralRun(patterns: seq<Text>, text: Text, i: nat, j: nat, k: nat, p: Text)
    requires NonEmpty(patterns) && p in patterns
    requires i + k < j <= |Scan(patterns, text)| && AllLit(Scan(patterns, text)[i..j])
    ensures k <= |Render(Scan(patterns, text)[i..j], map[])| && !(p <= Render(Scan(patterns, text)[i..j], map[])[k..])
  {
    hide Scan, Render;
    var ps := Scan(patterns, text);
    LiteralRunDrop(ps[i..j], k);
    assert ps[i..j][k..] == ps[i + k..j];
    assert ps[i + k..] == ps[i + k..j] + ps[j..];
    RenderConcat(ps[i + k..j], ps[j..], map[]);
    assert ps[i + k] == ps[i..j][k];
    NoPatternAtLiteral(patterns, text, i + k);
  }

  /** No run of characters the scan left unreplaced contains a pattern. */
  lemma {:induction false} ScanLeavesNoPattern(patterns: seq<Text>, text: Text, i: nat, j: nat, p: Text)
    requires NonEmpty(patterns)
    requires i <= j <= |Scan(patterns, text)|
    requires AllLit(Scan(patterns, text)[i..j])
    requires p in patterns
    ensures !Occurs(p, Render(Scan(patterns, text)[i..j], map[]))
  {
    hide Scan, Render;
    var run := Render(Scan(patterns, text)[i..j], map[]);
    LiteralRunLength(Scan(patterns, text)[i..j]);
    forall k | 0 <= k < |run| ensures !(p <= run[k..]) {
      NoPatternInLiteralRun(patterns, text, i, j, k, p);
    }
  }

  // --------------------------------------------------------- str.replace

  /** Python's `text.replace(a, v)` for a non-empty `a`. */
  function Replace(text: Text, a: Text, v: Text): Text
    requires a != ""
    decreases |text|
  {
    if text == "" then ""
    else if a <= text then v + Replace(text[|a|..], a, v)
    else [text[0]] + Replace(text[1..], a, v)
  }

  /** Replacement walks over a stretch in which no occurrence starts. */
  lemma {:induction false} ReplaceSkips(x: Text, rest: Text, a: Text, v: Text)
    requires a != ""
    requires forall j | 0 <= j < |x| :: !(a <= (x + rest)[j..])
    ensures Replace(x + rest, a, v) == x + Replace(rest, a, v)
  {
    if x == "" {
      assert x + rest == rest;
    } else {
      assert (x + rest)[0..] == x + rest;
      assert (x + rest)[1..] == x[1..] + rest;
      forall j | 0 <= j < |x[1..]|
        ensures !(a <= (x[1..] + rest)[j..])
      {
        assert (x[1..] + rest)[j..] == (x + rest)[j + 1..];
      }
      ReplaceSkips(x[1..], rest, a, v);
    }
  }

  /** The replacements of a dictionary, one after another in the listed order. */
  function ReplaceEach(bs: seq<Binding>, text: Text): Text
    requires forall b | b in bs :: b.alias != ""
  {
    if bs == [] then text
    else ReplaceEach(bs[1..], Replace(text, bs[0].alias, bs[0].value))
  }

  // -------------------------------------------------- when names cannot collide

  predicate Comparable(x: Text, y: Text) {
    x <= y || y <= x
  }

  /**
   No alias lies inside another, and no non-empty proper suffix of one is a prefix of one:
   two different placements of aliases in a text never share a character.
   */
  ghost predicate CrossFree(aliases: seq<Text>) {
    && NonEmpty(aliases)
    && forall a, b, k: nat | a in aliases && b in aliases && k < |a| && (k > 0 || a != b) :: !Comparable(a[k..], b)
  }

  /** Where a text that the pieces start with first meets a name. */
  lemma {:induction false} MeetsName(ps: seq<Piece>, u: Text, m: map<Text, Text>)
    requires u <= Render(ps, map[])
    ensures u <= Render(ps, m)
         || exists k: nat :: k < |u| && k < |ps| && ps[k].Name? && Comparable(u[k..], ps[k].key)
  {
    if u == "" || ps == [] {
    } else if ps[0].Name? {
      assert u[0..] == u;
      assert Comparable(u[0..], ps[0].key);
    } else {
      assert u[1..] <= Render(ps[1..], map[]);
      MeetsName(ps[1..], u[1..], m);
      if u[1..] <= Render(ps[1..], m) {
        assert u == [u[0]] + u[1..];
      } else {
        var k: nat :| k < |u[1..]| && k < |ps[1..]| && ps[1..][k].Name? && Comparable(u[1..][k..], ps[1..][k].key);
        assert u[1..][k..] == u[k + 1..];
        assert ps[k + 1].Name? && Comparable(u[k + 1..], ps[k + 1].key);
      }
    }
  }

  /** The pieces after the name `a` has been replaced by the characters of `v`. */
  function Expand(ps: seq<Piece>, a: Text, v: Text): (qs: seq<Piece>)
    ensures forall q | q in qs && q.Name? :: q in ps && q.key != a
  {
    if ps == [] then []
    else (if ps[0] == Name(a) then Lits(v) else [ps[0]]) + Expand(ps[1..], a, v)
  }

  lemma RenderExpand(ps: seq<Piece>, a: Text, v: Text, m: map<Text, Text>)
    requires a in m && m[a] == v
    ensures Render(Expand(ps, a, v), m) == Render(ps, m)
  {
    if ps != [] {
      var head := if ps[0] == Name(a) then Lits(v) else [ps[0]];
      RenderConcat(head, Expand(ps[1..], a, v), m);
      RenderLits(v, m);
    }
  }

  ghost predicate NamesIn(ps: seq<Piece>, aliases: seq<Text>) {
    forall p | p in ps && p.Name? :: p.key in aliases
  }

  /** Occurrences in a later part are occurrences in the whole. */
  lemma OccursInTail(a: Text, x: Text, y: Text)
    requires Occurs(a, y)
    ensures Occurs(a, x + y)
  {
    var i :| 0 <= i <= |y| && a <= y[i..];
    assert (x + y)[|x| + i..] == y[i..];
  }

  lemma OccursInHead(a: Text, x: Text, y: Text)
    requires Occurs(a, x)
    ensures Occurs(a, x + y)
  {
    var i :| 0 <= i <= |x| && a <= x[i..];
    assert (x + y)[i..] == x[i..] + y;
  }

  /**
   One `str.replace` step hits exactly the occurrences of `a` that are names, provided the
   fully rendered text does not contain `a`.
   */
  lemma {:induction false} ReplaceIsExpand(ps: seq<Piece>, a: Text, v: Text, aliases: seq<Text>, m: map<Text, Text>)
    requires CrossFree(aliases) && a in aliases && NamesIn(ps, aliases)
    requires !Occurs(a, Render(ps, m))
    ensures Replace(Render(ps, map[]), a, v) == Render(Expand(ps, a, v), map[])
  {
    if ps != [] {
      var rest := Render(ps[1..], map[]);
      var image := Render(ps[..1], m);
      assert ps == ps[..1] + ps[1..];
      RenderConcat(ps[..1], ps[1..], m);
      if Occurs(a, Render(ps[1..], m)) { OccursInTail(a, image, Render(ps[1..], m)); }
      ReplaceIsExpand(ps[1..], a, v, aliases, m);
      match ps[0]
      case Lit(c) =>
        NotAtLiteral(ps, a, aliases, m);
        RenderConcat([ps[0]], Expand(ps[1..], a, v), map[]);
      case Name(b) =>
        if b == a {
          RenderConcat(Lits(v), Expand(ps[1..], a, v), map[]);
          RenderLits(v, map[]);
        } else {
          NotInOtherName(b, rest, a, aliases);
          ReplaceSkips(b, rest, a, v);
          RenderConcat([ps[0]], Expand(ps[1..], a, v), map[]);
        }
    }
  }

  lemma NotAtLiteral(ps: seq<Piece>, a: Text, aliases: seq<Text>, m: map<Text, Text>)
    requires CrossFree(aliases) && a in aliases && NamesIn(ps, aliases)
    requires ps != [] && ps[0].Lit?
    requires !Occurs(a, Render(ps, m))
    ensures !(a <= Render(ps, map[]))
  {
    assert Render(ps, m)[0..] == Render(ps, m);
    assert !(a <= Render(ps, m));
    forall k: nat | k < |a| && k < |ps| && ps[k].Name?
      ensures !Comparable(a[k..], ps[k].key)
    {
      assert ps[k] in ps;
    }
    if a <= Render(ps, map[]) {
      MeetsName(ps, a, m);
      assert false;
    }
  }

  lemma NotInOtherName(b: Text, rest: Text, a: Text, aliases: seq<Text>)
    requires CrossFree(aliases) && a in aliases && b in aliases && a != b
    ensures forall j | 0 <= j < |b| :: !(a <= (b + rest)[j..])
  {
    forall j | 0 <= j < |b|
      ensures !(a <= (b + rest)[j..])
    {
      assert (b + rest)[j..] == b[j..] + rest;
      assert !Comparable(b[j..], a);
    }
  }

  ghost predicate DistinctAliases(bs: seq<Binding>) {
    forall i, j | 0 <= i < j < |bs| :: bs[i].alias != bs[j].alias
  }

  /** The aliases of a dictionary, in its order: its keys. */
  function AliasesOf(bs: seq<Binding>): (r: seq<Text>)
    ensures |r| == |bs|
    ensures forall i | 0 <= i < |bs| :: r[i] == bs[i].alias
  {
    seq(|bs|, i requires 0 <= i < |bs| => bs[i].alias)
  }

  /** The dictionary as a map; a later entry for the same alias wins. */
  function MapOf(bs: seq<Binding>): (m: map<Text, Text>)
    ensures forall b | b in bs :: b.alias in m
    ensures forall a | a in m :: exists b :: b in bs && b.alias == a
    ensures DistinctAliases(bs) ==> forall b | b in bs :: m[b.alias] == b.value
  {
    if bs == [] then map[]
    else
      var last := bs[|bs| - 1];
      assert forall b | b in bs :: b in bs[..|bs| - 1] || b == last;
      MapOf(bs[..|bs| - 1])[last.alias := last.value]
  }

  /**
   Replacing the aliases one after another equals replacing them all at once, whenever the
   aliases are cross-free and the text that comes out contains no alias.
   */
  lemma {:induction false} SequentialIsSimultaneous(
      ps: seq<Piece>, bs: seq<Binding>, aliases: seq<Text>, m: map<Text, Text>)
    requires CrossFree(aliases)
    requires forall b | b in bs :: b.alias in aliases && b.alias in m && m[b.alias] == b.value
    requires NamesIn(ps, AliasesOf(bs))
    requires forall a | a in aliases :: !Occurs(a, Render(ps, m))
    ensures ReplaceEach(bs, Render(ps, map[])) == Render(ps, m)
    decreases |bs|
  {
    if bs == [] {
      assert AllLit(ps);
      RenderAllLit(ps, m);
    } else {
      var b := bs[0];
      assert b in bs;
      forall p | p in ps && p.Name?
        ensures p.key in aliases
      {
        var i :| 0 <= i < |bs| && AliasesOf(bs)[i] == p.key;
        assert bs[i] in bs;
      }
      ReplaceIsExpand(ps, b.alias, b.value, aliases, m);
      RenderExpand(ps, b.alias, b.value, m);
      var qs := Expand(ps, b.alias, b.value);
      forall q | q in qs && q.Name?
        ensures q.key in AliasesOf(bs[1..])
      {
        var i :| 0 <= i < |bs| && AliasesOf(bs)[i] == q.key;
        assert AliasesOf(bs[1..])[i - 1] == q.key;
      }
      forall c | c in bs[1..]
        ensures c in bs
      {}
      SequentialIsSimultaneous(qs, bs[1..], aliases, m);
    }
  }
}
