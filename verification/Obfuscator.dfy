/**
 `ConversationNameObfuscator` and `AliasStreamRestorer`: the stateful alias dictionary, the
 substitution that extends it while it scans, and the streaming restorer.
 */
module Obfuscator {
  import opened Aliases
  import opened Faithfulness
  import opened Restoring
  import opened Substitution
  import opened Wrappers

  const MAX_ALIASES: nat := 2000

  datatype Entry = Entry(alias: Text, kind: Kind)

  /** A row of the alias table; `None` is a value that could not be decrypted. */
  datatype Row = Row(alias: Text, value: Option<Text>, kind: Kind)

  datatype Error = TooManyAliases | CannotEncrypt | CannotDecrypt

  datatype Result<+T> = Ok(value: T) | Err(error: Error)

  // ------------------------------------------------------------ a fresh alias exists

  function SuffixDigit(d: nat): (c: char)
    requires d < 36
    ensures SuffixChar(c)
  {
    if d < 26 then 'A' + d as char else '0' + (d - 26) as char
  }

  function Power36(k: nat): (n: nat)
    ensures n > 0
  {
    if k == 0 then 1 else 36 * Power36(k - 1)
  }

  /** The digits of `n`, the lowest first. */
  function Digits(n: nat, k: nat): (tail: Text)
    ensures |tail| == k && forall i | 0 <= i < k :: SuffixChar(tail[i])
  {
    if k == 0 then "" else [SuffixDigit(n % 36)] + Digits(n / 36, k - 1)
  }

  /** The number of different tails: 36 to the power of 8. */
  const TAILS: nat := 2821109907456

  lemma TailsAreCounted()
    ensures Power36(8) == TAILS
  {
    assert Power36(2) == 1296;
    assert Power36(4) == 36 * (36 * Power36(2)) == 1679616;
    assert Power36(6) == 36 * (36 * Power36(4));
    assert Power36(8) == 36 * (36 * Power36(6));
  }

  function NthTail(n: nat): (tail: Text)
    ensures IsTail(tail)
  {
    Digits(n, 8)
  }

  lemma SuffixDigitIsInjective(d: nat, e: nat)
    requires d < 36 && e < 36 && SuffixDigit(d) == SuffixDigit(e)
    ensures d == e
  {}

  lemma {:induction false} DigitsAreInjective(m: nat, n: nat, k: nat)
    requires m < Power36(k) && n < Power36(k) && Digits(m, k) == Digits(n, k)
    ensures m == n
  {
    if k > 0 {
      assert Digits(m, k)[0] == Digits(n, k)[0] && Digits(m, k)[1..] == Digits(n, k)[1..];
      SuffixDigitIsInjective(m % 36, n % 36);
      DigitsAreInjective(m / 36, n / 36, k - 1);
    }
  }

  lemma NthTailIsInjective(m: nat, n: nat)
    requires m < TAILS && n < TAILS && NthTail(m) == NthTail(n)
    ensures m == n
  {
    TailsAreCounted();
    DigitsAreInjective(m, n, 8);
  }

  lemma AliasTextIsInjective(kind: Kind, s: Text, t: Text)
    requires AliasText(kind, s) == AliasText(kind, t)
    ensures s == t
  {
    var n := |Label(kind)| + 1;
    assert AliasText(kind, s)[n..] == s && AliasText(kind, t)[n..] == t;
  }

  /** The first `n` candidate aliases of a kind are `n` different texts. */
  function FirstAliases(kind: Kind, n: nat): (s: set<Text>)
    requires n <= TAILS
    ensures |s| == n
    ensures forall a | a in s :: exists i: nat :: i < n && a == AliasText(kind, NthTail(i))
  {
    if n == 0 then {}
    else
      var rest := FirstAliases(kind, n - 1);
      var a := AliasText(kind, NthTail(n - 1));
      assert a !in rest by {
        if a in rest {
          var i: nat :| i < n - 1 && a == AliasText(kind, NthTail(i));
          AliasTextIsInjective(kind, NthTail(i), NthTail(n - 1));
          NthTailIsInjective(i, n - 1);
        }
      }
      rest + {a}
  }

  function ToSet(xs: seq<Text>): (s: set<Text>)
    ensures |s| <= |xs|
    ensures forall x :: x in s <==> x in xs
  {
    if xs == [] then {}
    else
      assert xs == [xs[0]] + xs[1..];
      {xs[0]} + ToSet(xs[1..])
  }

  /** By pigeonhole, fewer aliases than tails leave an unused alias of every kind. */
  lemma FreshAliasExists(kind: Kind, used: seq<Text>)
    requires |used| < TAILS
    ensures exists tail :: IsTail(tail) && AliasText(kind, tail) !in used
  {
    var first, taken := FirstAliases(kind, |used| + 1), ToSet(used);
    if first <= taken {
      SubsetCardinality(first, taken);
      assert false;
    }
    var a :| a in first && a !in taken;
    var i: nat :| i < |used| + 1 && a == AliasText(kind, NthTail(i));
    assert IsTail(NthTail(i));
  }

  lemma SubsetCardinality<T>(x: set<T>, y: set<T>)
    requires x <= y
    ensures |x| <= |y|
  {
    if x != {} {
      var e :| e in x;
      SubsetCardinality(x - {e}, y - {e});
    }
  }

  // ------------------------------------------------------------ the stored dictionary

  /** The value-to-alias dictionary together with the order its keys were first set in. */
  datatype Loaded = Loaded(byValue: map<Text, Entry>, order: seq<Text>)

  function SetEntry(d: Loaded, value: Text, entry: Entry): Loaded {
    Loaded(d.byValue[value := entry], if value in d.byValue then d.order else d.order + [value])
  }

  /** The dictionary the stored rows stand for: a later row for the same value wins. */
  function LoadRows(rows: seq<Row>): (r: Result<Loaded>)
  {
    if rows == [] then Ok(Loaded(map[], []))
    else
      var last := rows[|rows| - 1];
      var d := LoadRows(rows[..|rows| - 1]);
      if d.Err? then d
      else if last.value.None? || last.value.value == "" then Err(CannotDecrypt)
      else Ok(SetEntry(d.value, last.value.value, Entry(last.alias, last.kind)))
  }

  /** The order lists the keys of the dictionary, each once. */
  ghost predicate ListsKeys(d: Loaded) {
    && (forall v :: v in d.order <==> v in d.byValue)
    && |d.order| == |d.byValue|
    && (forall i, j | 0 <= i < j < |d.order| :: d.order[i] != d.order[j])
  }

  ghost predicate FromRow(rows: seq<Row>, value: Text, alias: Text) {
    exists row :: row in rows && row.alias == alias && row.value == Some(value)
  }

  /** What was loaded: every row has a value, and every entry comes from a row. */
  lemma {:induction false} LoadRowsShape(rows: seq<Row>)
    ensures LoadRows(rows).Ok? <==> forall row | row in rows :: row.value.Some? && row.value.value != ""
    ensures LoadRows(rows).Ok? ==>
      var d := LoadRows(rows).value;
      ListsKeys(d) && forall v | v in d.byValue :: v != "" && FromRow(rows, v, d.byValue[v].alias)
  {
    if rows != [] {
      var front, last := rows[..|rows| - 1], rows[|rows| - 1];
      assert rows == front + [last];
      LoadRowsShape(front);
      if LoadRows(rows).Ok? {
        var d := LoadRows(rows).value;
        forall v | v in d.byValue
          ensures v != "" && FromRow(rows, v, d.byValue[v].alias)
        {
          if v == last.value.value {
            assert last in rows;
          } else {
            assert FromRow(front, v, d.byValue[v].alias);
          }
        }
      }
    }
  }

  /** `{entry.alias: value for value, entry in aliases_by_value.items()}` */
  function Bindings(byValue: map<Text, Entry>, order: seq<Text>): (bs: seq<Binding>)
    requires forall v | v in order :: v in byValue
    ensures |bs| == |order|
    ensures forall i | 0 <= i < |order| :: bs[i] == Binding(byValue[order[i]].alias, order[i])
  {
    seq(|order|, i requires 0 <= i < |order| => Binding(byValue[order[i]].alias, order[i]))
  }

  /** The stored rows of one conversation and epoch: distinct, generated aliases. */
  ghost predicate StoredRows(rows: seq<Row>) {
    && (forall i, j | 0 <= i < j < |rows| :: rows[i].alias != rows[j].alias)
    && (forall row | row in rows :: Generated(row.alias))
  }

  /** The two dictionaries are mutual inverses. */
  ghost predicate Mutual(byValue: map<Text, Entry>, bs: seq<Binding>) {
    && OneToOne(bs)
    && |byValue| == |bs|
    && (forall b | b in bs :: b.value != "" && b.value in byValue && byValue[b.value].alias == b.alias)
    && (forall v | v in byValue :: Binding(byValue[v].alias, v) in bs)
  }

  lemma LoadedIsDistinct(rows: seq<Row>)
    requires StoredRows(rows) && LoadRows(rows).Ok? && ListsKeys(LoadRows(rows).value)
    ensures DistinctAliases(Bindings(LoadRows(rows).value.byValue, LoadRows(rows).value.order))
  {
    hide LoadRows;
    LoadRowsShape(rows);
    var d := LoadRows(rows).value;
    var bs := Bindings(d.byValue, d.order);
    forall i, j | 0 <= i < j < |bs|
      ensures bs[i].alias != bs[j].alias
    {
      var v, w := d.order[i], d.order[j];
      assert FromRow(rows, v, d.byValue[v].alias) && FromRow(rows, w, d.byValue[w].alias);
    }
  }

  /** The two dictionaries list the same entries. */
  lemma LoadedEntries(d: Loaded)
    requires ListsKeys(d) && forall v | v in d.byValue :: v != ""
    ensures var bs := Bindings(d.byValue, d.order);
            && |d.byValue| == |bs|
            && (forall b | b in bs :: b.value != "" && b.value in d.byValue && d.byValue[b.value].alias == b.alias)
            && (forall v | v in d.byValue :: Binding(d.byValue[v].alias, v) in bs)
  {
    var bs := Bindings(d.byValue, d.order);
    forall v | v in d.byValue
      ensures Binding(d.byValue[v].alias, v) in bs
    {
      var i :| 0 <= i < |d.order| && d.order[i] == v;
      assert bs[i] == Binding(d.byValue[v].alias, v);
    }
  }

  lemma LoadedIsOneToOne(d: Loaded)
    requires ListsKeys(d) && DistinctAliases(Bindings(d.byValue, d.order))
    ensures OneToOne(Bindings(d.byValue, d.order))
  {}

  lemma LoadedIsGenerated(rows: seq<Row>)
    requires StoredRows(rows) && LoadRows(rows).Ok? && ListsKeys(LoadRows(rows).value)
    ensures AllGenerated(AliasesOf(Bindings(LoadRows(rows).value.byValue, LoadRows(rows).value.order)))
  {
    hide LoadRows, Generated;
    LoadRowsShape(rows);
    var d := LoadRows(rows).value;
    forall v | v in d.byValue ensures Generated(d.byValue[v].alias) {
      assert FromRow(rows, v, d.byValue[v].alias);
    }
    var aliases := AliasesOf(Bindings(d.byValue, d.order));
    forall a | a in aliases ensures Generated(a) {
      var i :| 0 <= i < |aliases| && aliases[i] == a;
      assert a == d.byValue[d.order[i]].alias;
    }
  }

  /** Different loaded values come from different rows, so they have different aliases. */
  lemma LoadedIsMutual(rows: seq<Row>)
    requires StoredRows(rows) && LoadRows(rows).Ok?
    ensures ListsKeys(LoadRows(rows).value)
    ensures var d := LoadRows(rows).value;
            Mutual(d.byValue, Bindings(d.byValue, d.order)) && AllGenerated(AliasesOf(Bindings(d.byValue, d.order)))
  {
    hide LoadRows, FromRow, AllGenerated, OneToOne, DistinctAliases;
    LoadRowsShape(rows);
    LoadedIsDistinct(rows);
    LoadedIsGenerated(rows);
    LoadedIsOneToOne(LoadRows(rows).value);
    LoadedEntries(LoadRows(rows).value);
  }

  // ------------------------------------------------------------ a growing dictionary

  lemma GrownName(bs: seq<Binding>, more: seq<Binding>, v: Text)
    requires OneToOne(bs) && OneToOne(more) && bs <= more && v in AliasesOf(Inverse(bs))
    ensures v in AliasesOf(Inverse(more)) && v in MapOf(Inverse(bs)) && v in MapOf(Inverse(more))
    ensures MapOf(Inverse(more))[v] == MapOf(Inverse(bs))[v]
  {
    var i :| 0 <= i < |bs| && AliasesOf(Inverse(bs))[i] == v;
    assert AliasesOf(Inverse(more))[i] == v;
    assert Inverse(bs)[i] in Inverse(bs) && Inverse(more)[i] in Inverse(more);
  }

  /** A dictionary that grew renders the names it knew as before. */
  lemma {:induction false} GrownRenders(bs: seq<Binding>, more: seq<Binding>, ps: seq<Piece>)
    requires OneToOne(bs) && OneToOne(more) && bs <= more
    requires NamesIn(ps, AliasesOf(Inverse(bs)))
    ensures NamesIn(ps, AliasesOf(Inverse(more)))
    ensures Render(ps, MapOf(Inverse(more))) == Render(ps, MapOf(Inverse(bs)))
  {
    hide OneToOne, Inverse, AliasesOf, MapOf;
    if ps != [] {
      assert ps == [ps[0]] + ps[1..];
      assert ps[0] in ps;
      forall p | p in ps[1..] ensures p in ps {}
      GrownRenders(bs, more, ps[1..]);
      if ps[0].Name? { GrownName(bs, more, ps[0].key); }
    }
  }

  /** Whatever is added to the dictionary later, an obfuscated text stays restorable. */
  lemma LaterRoundTrip(bs: seq<Binding>, more: seq<Binding>, names: seq<Text>, text: Text)
    requires NonEmpty(names) && OneToOne(bs) && NamesBound(bs, names, text)
    requires bs <= more && OneToOne(more) && CrossFree(AliasesOf(more)) && AliasFree(more, text)
    ensures RestoreText(more, Obfuscated(bs, names, text)) == text
  {
    GrownRenders(bs, more, Scan(names, text));
    RoundTrip(more, names, text);
  }

  lemma BoundName(bs: seq<Binding>, name: Text, alias: Text)
    requires OneToOne(bs) && Binding(alias, name) in bs
    ensures name in AliasesOf(Inverse(bs)) && name in MapOf(Inverse(bs)) && MapOf(Inverse(bs))[name] == alias
  {
    var i :| 0 <= i < |bs| && bs[i] == Binding(alias, name);
    assert Inverse(bs)[i] in Inverse(bs) && AliasesOf(Inverse(bs))[i] == name;
  }

  /** Rendering one more name, after the dictionary may have grown to hold it. */
  lemma PieceRendered(bs: seq<Binding>, more: seq<Binding>, done: seq<Piece>, name: Text, alias: Text)
    requires OneToOne(bs) && OneToOne(more) && bs <= more
    requires NamesIn(done, AliasesOf(Inverse(bs)))
    requires Binding(alias, name) in more
    ensures NamesIn(done + [Name(name)], AliasesOf(Inverse(more)))
    ensures Render(done + [Name(name)], MapOf(Inverse(more))) == Render(done, MapOf(Inverse(bs))) + alias
  {
    hide OneToOne, Inverse, AliasesOf, MapOf;
    GrownRenders(bs, more, done);
    RenderConcat(done, [Name(name)], MapOf(Inverse(more)));
    BoundName(more, name, alias);
  }

  lemma ReplaceEachStep(order: seq<Binding>, i: nat, text: Text)
    requires forall b | b in order :: b.alias != ""
    requires i < |order|
    ensures order[i].alias != ""
    ensures ReplaceEach(order[i..], text) == ReplaceEach(order[i + 1..], Replace(text, order[i].alias, order[i].value))
  {
    assert order[i..][1..] == order[i + 1..];
    assert order[i] in order;
  }

  // ------------------------------------------------------------ the protected names

  /** The non-empty values, longest first; equal lengths may stand in any order. */
  ghost predicate ProtectedOrder(names: seq<Text>, values: set<Text>) {
    && (forall x :: x in names <==> x in values && x != "")
    && Descending(names, Length)
  }

  lemma FirstMatchIsLongest(names: seq<Text>, text: Text, p: Text)
    requires Descending(names, Length) && p in names && p <= text
    ensures FirstMatch(names, text).Some? && |p| <= |FirstMatch(names, text).value|
  {
    var i :| 0 <= i < |names| && names[i] == p;
    if i > 0 && !(names[0] <= text) {
      assert names[1..][i - 1] == p;
      FirstMatchIsLongest(names[1..], text, p);
    }
  }

  /** The scan does not depend on the order in which the set of names was enumerated. */
  lemma {:induction false} ScanOrderIrrelevant(names: seq<Text>, other: seq<Text>, values: set<Text>, text: Text)
    requires ProtectedOrder(names, values) && ProtectedOrder(other, values)
    ensures Scan(names, text) == Scan(other, text)
    decreases |text|
  {
    if text != "" {
      var m, n := FirstMatch(names, text), FirstMatch(other, text);
      if m.Some? { FirstMatchIsLongest(other, text, m.value); }
      if n.Some? { FirstMatchIsLongest(names, text, n.value); }
      assert m.Some? ==> m.value == text[..|m.value|] && n.value == text[..|m.value|];
      var k := if m.Some? then |m.value| else 1;
      ScanOrderIrrelevant(names, other, values, text[k..]);
    }
  }

  /** Mutually inverse dictionaries of generated aliases, which the stored rows reproduce. */
  ghost predicate Consistent(byValue: map<Text, Entry>, bs: seq<Binding>, rows: seq<Row>) {
    && Mutual(byValue, bs)
    && AllGenerated(AliasesOf(bs))
    && LoadRows(rows) == Ok(Loaded(byValue, AliasesOf(Inverse(bs))))
  }

  lemma ConsistentIsOneToOne(byValue: map<Text, Entry>, bs: seq<Binding>, rows: seq<Row>)
    requires Consistent(byValue, bs, rows)
    ensures OneToOne(bs)
  {}

  lemma LoadedIsConsistent(rows: seq<Row>)
    requires StoredRows(rows) && LoadRows(rows).Ok?
    ensures ListsKeys(LoadRows(rows).value)
    ensures var d := LoadRows(rows).value;
            Consistent(d.byValue, Bindings(d.byValue, d.order), rows)
            && AliasesOf(Inverse(Bindings(d.byValue, d.order))) == d.order
  {
    var d := LoadRows(rows).value;
    LoadedIsMutual(rows);
    assert AliasesOf(Inverse(Bindings(d.byValue, d.order))) == d.order;
  }

  lemma AddedIsOneToOne(bs: seq<Binding>, b: Binding)
    requires OneToOne(bs) && b.alias !in AliasesOf(bs)
    requires forall i | 0 <= i < |bs| :: bs[i].value != b.value
    ensures OneToOne(bs + [b])
  {
    var more := bs + [b];
    forall i, j | 0 <= i < j < |more|
      ensures more[i].alias != more[j].alias && more[i].value != more[j].value
    {
      if j == |bs| {
        assert AliasesOf(bs)[i] == bs[i].alias;
      } else {
        assert Inverse(bs)[i].alias != Inverse(bs)[j].alias;
      }
    }
  }

  lemma AddedIsMutual(byValue: map<Text, Entry>, bs: seq<Binding>, value: Text, entry: Entry)
    requires Mutual(byValue, bs)
    requires value != "" && value !in byValue && entry.alias !in AliasesOf(bs)
    ensures Mutual(byValue[value := entry], bs + [Binding(entry.alias, value)])
  {
    hide OneToOne, AliasesOf;
    var more := bs + [Binding(entry.alias, value)];
    assert forall i | 0 <= i < |bs| :: bs[i] in bs;
    AddedIsOneToOne(bs, Binding(entry.alias, value));
    assert more[|bs|] == Binding(entry.alias, value);
    forall v | v in byValue
      ensures Binding(byValue[v].alias, v) in more
    {
      assert Binding(byValue[v].alias, v) in bs;
    }
  }

  lemma LoadAppended(rows: seq<Row>, value: Text, entry: Entry)
    requires LoadRows(rows).Ok? && value != ""
    ensures LoadRows(rows + [Row(entry.alias, Some(value), entry.kind)])
        == Ok(SetEntry(LoadRows(rows).value, value, entry))
  {
    var more := rows + [Row(entry.alias, Some(value), entry.kind)];
    assert more[..|more| - 1] == rows;
  }

  lemma AddedIsLoaded(byValue: map<Text, Entry>, bs: seq<Binding>, rows: seq<Row>, value: Text, entry: Entry)
    requires LoadRows(rows) == Ok(Loaded(byValue, AliasesOf(Inverse(bs))))
    requires value != "" && value !in byValue
    ensures LoadRows(rows + [Row(entry.alias, Some(value), entry.kind)])
         == Ok(Loaded(byValue[value := entry], AliasesOf(Inverse(bs + [Binding(entry.alias, value)]))))
  {
    LoadAppended(rows, value, entry);
    assert AliasesOf(Inverse(bs + [Binding(entry.alias, value)])) == AliasesOf(Inverse(bs)) + [value];
  }

  lemma AddedIsGenerated(bs: seq<Binding>, value: Text, entry: Entry)
    requires AllGenerated(AliasesOf(bs)) && Generated(entry.alias)
    ensures AllGenerated(AliasesOf(bs + [Binding(entry.alias, value)]))
  {
    assert AliasesOf(bs + [Binding(entry.alias, value)]) == AliasesOf(bs) + [entry.alias];
  }

  /** One new alias keeps the dictionaries and the stored rows consistent. */
  lemma AddedIsConsistent(byValue: map<Text, Entry>, bs: seq<Binding>, rows: seq<Row>, value: Text, entry: Entry)
    requires Consistent(byValue, bs, rows)
    requires value != "" && value !in byValue && entry.alias !in AliasesOf(bs) && Generated(entry.alias)
    ensures Consistent(byValue[value := entry], bs + [Binding(entry.alias, value)],
                       rows + [Row(entry.alias, Some(value), entry.kind)])
  {
    AddedIsMutual(byValue, bs, value, entry);
    AddedIsLoaded(byValue, bs, rows, value, entry);
    AddedIsGenerated(bs, value, entry);
  }

  /** The kind an alias of `value` may carry: its only candidate kind, else the ambiguous one. */
  predicate KindFor(candidates: map<Text, set<Kind>>, value: Text, kind: Kind) {
    if value in candidates && |candidates[value]| == 1 then kind in candidates[value] else kind == Ambiguous
  }

  /** A later dictionary that can still be told apart and does not meet the text by chance. */
  ghost predicate Extends(bs: seq<Binding>, later: seq<Binding>, text: Text) {
    bs <= later && OneToOne(later) && CrossFree(AliasesOf(later)) && AliasFree(later, text)
  }

  /** A dictionary only grows, and not beyond the limit. */
  ghost predicate Grown(bs: seq<Binding>, more: seq<Binding>) {
    bs <= more && (bs == more || |more| <= MAX_ALIASES)
  }

  /** Where a scan into the pieces `all` stands when `done` has been rendered to `out`. */
  ghost predicate ScannedSoFar(bs: seq<Binding>, names: seq<Text>, all: seq<Piece>, done: seq<Piece>, rest: Text,
                               out: Text) {
    && NonEmpty(names)
    && all == done + Scan(names, rest)
    && NamesIn(done, AliasesOf(Inverse(bs)))
    && out == Render(done, MapOf(Inverse(bs)))
  }

  lemma Reassociate(xs: seq<Piece>, ys: seq<Piece>, zs: seq<Piece>)
    ensures xs + (ys + zs) == xs + ys + zs
  {}

  lemma ScannedName(bs: seq<Binding>, more: seq<Binding>, names: seq<Text>, all: seq<Piece>, done: seq<Piece>,
                    rest: Text, out: Text, name: Text, alias: Text)
    requires ScannedSoFar(bs, names, all, done, rest, out)
    requires OneToOne(bs) && OneToOne(more) && bs <= more && Binding(alias, name) in more
    requires rest != "" && FirstMatch(names, rest) == Some(name)
    ensures ScannedSoFar(more, names, all, done + [Name(name)], rest[|name|..], out + alias)
  {
    PieceRendered(bs, more, done, name, alias);
    Reassociate(done, [Name(name)], Scan(names, rest[|name|..]));
  }

  lemma ScannedShape(bs: seq<Binding>, names: seq<Text>, all: seq<Piece>, done: seq<Piece>, rest: Text, out: Text,
                     name: Text)
    requires ScannedSoFar(bs, names, all, done, rest, out)
    requires rest != "" && FirstMatch(names, rest) == Some(name)
    ensures NonEmpty(names) && 0 < |name| <= |rest| && all == done + ([Name(name)] + Scan(names, rest[|name|..]))
  {}

  lemma ScannedCharacter(bs: seq<Binding>, names: seq<Text>, all: seq<Piece>, done: seq<Piece>, rest: Text, out: Text)
    requires ScannedSoFar(bs, names, all, done, rest, out)
    requires rest != "" && FirstMatch(names, rest) == None
    ensures ScannedSoFar(bs, names, all, done + [Lit(rest[0])], rest[1..], out + [rest[0]])
  {
    RenderConcat(done, [Lit(rest[0])], MapOf(Inverse(bs)));
    assert Render([Lit(rest[0])], MapOf(Inverse(bs))) == [rest[0]];
    Reassociate(done, [Lit(rest[0])], Scan(names, rest[1..]));
  }

  /**
   `out` is the obfuscation of `text` under the protected values, however their set is
   enumerated, and it is undone by every later dictionary that can be told apart.
   */
  ghost predicate ObfuscationOf(bs: seq<Binding>, values: set<Text>, text: Text, out: Text) {
    && (forall names | ProtectedOrder(names, values) ::
          NonEmpty(names) && NamesBound(bs, names, text) && out == Obfuscated(bs, names, text))
    && (forall later | Extends(bs, later, text) :: NonEmpty(AliasesOf(later)) && RestoreText(later, out) == text)
  }

  lemma ScannedAll(bs: seq<Binding>, values: set<Text>, names: seq<Text>, text: Text, done: seq<Piece>, out: Text)
    requires OneToOne(bs) && ProtectedOrder(names, values)
    requires ScannedSoFar(bs, names, Scan(names, text), done, "", out)
    ensures ObfuscationOf(bs, values, text, out)
  {
    assert done + Scan(names, "") == done;
    forall other | ProtectedOrder(other, values)
      ensures NonEmpty(other) && NamesBound(bs, other, text) && out == Obfuscated(bs, other, text)
    {
      ScanOrderIrrelevant(names, other, values, text);
    }
    forall later | Extends(bs, later, text)
      ensures NonEmpty(AliasesOf(later)) && RestoreText(later, out) == text
    {
      LaterRoundTrip(bs, later, names, text);
    }
  }

  // ------------------------------------------------------------ when obfuscating succeeds

  function NamesOf(ps: seq<Piece>): set<Text> {
    set p | p in ps && p.Name? :: p.key
  }

  /** The protected values a scan of the text meets, in whichever order equally long ones are listed. */
  ghost function NamesMet(values: set<Text>, text: Text): set<Text> {
    set n | n in values && exists names :: ProtectedOrder(names, values) && NonEmpty(names)
                                           && Name(n) in Scan(names, text)
  }

  lemma MetAreScanned(values: set<Text>, names: seq<Text>, text: Text)
    requires ProtectedOrder(names, values) && NonEmpty(names)
    ensures NamesMet(values, text) == NamesOf(Scan(names, text))
  {
    ScanIsNamed(names, text);
    forall n, other | ProtectedOrder(other, values) && NonEmpty(other) && Name(n) in Scan(other, text)
      ensures Name(n) in Scan(names, text)
    {
      ScanOrderIrrelevant(names, other, values, text);
    }
    forall n | Name(n) in Scan(names, text)
      ensures n in values
    {
      assert n in names;
    }
  }

  lemma {:induction false} ScanIsNamed(names: seq<Text>, text: Text)
    requires NonEmpty(names)
    ensures forall n | Name(n) in Scan(names, text) :: n in names
    decreases |text|
  {
    if text != "" {
      var m := FirstMatch(names, text);
      if m.Some? { ScanIsNamed(names, text[|m.value|..]); } else { ScanIsNamed(names, text[1..]); }
    }
  }

  /** New values can get their aliases: each can be encrypted, and the limit is kept if there is any. */
  ghost predicate Fits(known: set<Text>, met: set<Text>, encrypts: Text -> bool) {
    && (forall n | n in met && n !in known :: encrypts(n))
    && (met <= known || |known + met| <= 2000)
  }

  lemma MoreIsLarger(x: set<Text>, y: set<Text>)
    requires x <= y
    ensures |x| <= |y|
  {
    assert y == x + (y - x);
  }

  /** Two parts fit one after the other exactly when they fit together. */
  lemma FitsInParts(known: set<Text>, a: set<Text>, b: set<Text>, encrypts: Text -> bool)
    ensures Fits(known, a + b, encrypts) <==> Fits(known, a, encrypts) && Fits(known + a, b, encrypts)
  {
    assert known + a + b == known + (a + b);
    MoreIsLarger(known + a, known + (a + b));
    if a <= known { assert known + a == known; }
    if b <= known + a { assert known + (a + b) == known + a; }
  }

  /** One more name that gets no alias spoils every scan that meets it. */
  lemma OneDoesNotFit(known: set<Text>, done: set<Text>, name: Text, met: set<Text>, encrypts: Text -> bool)
    requires done <= met && name in met && name !in known + done
    requires |known + done| >= MAX_ALIASES || !encrypts(name)
    ensures !Fits(known, met, encrypts)
  {
    if encrypts(name) {
      var more := known + done + {name};
      assert more <= known + met;
      MoreIsLarger(more, known + met);
    }
  }

  lemma OneMoreFits(known: set<Text>, done: set<Text>, name: Text, encrypts: Text -> bool)
    requires Fits(known, done, encrypts)
    requires name in known + done || (|known + done| < MAX_ALIASES && encrypts(name))
    ensures Fits(known, done + {name}, encrypts)
  {
    assert known + (done + {name}) == known + done + {name};
    if name in known + done { assert known + done + {name} == known + done; }
  }

  /** The keys after the pieces `done`, all of which fitted. */
  ghost predicate FittedSoFar(known: set<Text>, keys: set<Text>, done: seq<Piece>, encrypts: Text -> bool) {
    keys == known + NamesOf(done) && Fits(known, NamesOf(done), encrypts)
  }

  /** The keys afterwards, and whether everything met fitted. */
  ghost predicate Extended(known: set<Text>, keys: set<Text>, met: set<Text>, encrypts: Text -> bool, ok: bool) {
    && (ok <==> Fits(known, met, encrypts))
    && (ok ==> keys == known + met) && keys <= known + met
  }

  lemma FittedNothing(known: set<Text>, encrypts: Text -> bool)
    ensures FittedSoFar(known, known, [], encrypts) && Extended(known, known, {}, encrypts, true)
  {
    assert NamesOf([]) == {};
  }

  lemma FittedAll(known: set<Text>, keys: set<Text>, bs: seq<Binding>, names: seq<Text>, all: seq<Piece>,
                  done: seq<Piece>, out: Text, encrypts: Text -> bool)
    requires FittedSoFar(known, keys, done, encrypts) && ScannedSoFar(bs, names, all, done, "", out)
    ensures Extended(known, keys, NamesOf(all), encrypts, true)
  {
    assert done + [] == done == all;
  }

  lemma FittedCharacter(known: set<Text>, keys: set<Text>, done: seq<Piece>, c: char, encrypts: Text -> bool)
    requires FittedSoFar(known, keys, done, encrypts)
    ensures FittedSoFar(known, keys, done + [Lit(c)], encrypts)
  {
    NamesAppend(done, Lit(c));
  }

  lemma FittedName(known: set<Text>, keys: set<Text>, all: seq<Piece>, done: seq<Piece>, name: Text,
                   later: seq<Piece>, encrypts: Text -> bool)
    requires FittedSoFar(known, keys, done, encrypts) && all == done + ([Name(name)] + later)
    ensures if name in keys || (|keys| < MAX_ALIASES && encrypts(name))
            then FittedSoFar(known, keys + {name}, done + [Name(name)], encrypts)
            else Extended(known, keys, NamesOf(all), encrypts, false)
  {
    hide Fits, NamesOf;
    ScanMeets(all, done, name, later);
    NamesAppend(done, Name(name));
    if name in keys || (|keys| < MAX_ALIASES && encrypts(name)) {
      OneMoreFits(known, NamesOf(done), name, encrypts);
      assert keys + {name} == known + (NamesOf(done) + {name});
    } else {
      OneDoesNotFit(known, NamesOf(done), name, NamesOf(all), encrypts);
    }
  }

  lemma FirstPartFails(known: set<Text>, keys: set<Text>, a: set<Text>, b: set<Text>, encrypts: Text -> bool)
    requires Extended(known, keys, a, encrypts, false)
    ensures Extended(known, keys, a + b, encrypts, false)
  {
    hide Fits;
    FitsInParts(known, a, b, encrypts);
  }

  lemma SecondPart(known: set<Text>, mid: set<Text>, keys: set<Text>, a: set<Text>, b: set<Text>,
                   encrypts: Text -> bool, ok: bool)
    requires Extended(known, mid, a, encrypts, true) && Extended(mid, keys, b, encrypts, ok)
    ensures Extended(known, keys, a + b, encrypts, ok)
  {
    hide Fits;
    FitsInParts(known, a, b, encrypts);
    assert known + a + b == known + (a + b);
  }

  lemma ScanMeets(all: seq<Piece>, done: seq<Piece>, name: Text, later: seq<Piece>)
    requires all == done + ([Name(name)] + later)
    ensures name in NamesOf(all) && NamesOf(done) <= NamesOf(all)
  {
    assert all[|done|] == Name(name);
    assert forall p | p in done :: p in all;
  }

  lemma NamesAppend(done: seq<Piece>, p: Piece)
    ensures NamesOf(done + [p]) == NamesOf(done) + if p.Name? then {p.key} else {}
  {
    assert forall q :: q in done + [p] <==> q in done || q == p;
  }

  /** The loop of `prepare_name_obfuscator` over the stored rows. */
  method LoadAliases(rows: seq<Row>) returns (r: Result<Loaded>)
    ensures r == LoadRows(rows)
  {
    var d := Loaded(map[], []);
    for i := 0 to |rows|
      invariant LoadRows(rows[..i]) == Ok(d)
    {
      assert rows[..i + 1][..i] == rows[..i];
      var row := rows[i];
      if row.value.None? || row.value.value == "" {
        LoadFails(rows, i);
        return Err(CannotDecrypt);
      }
      d := SetEntry(d, row.value.value, Entry(row.alias, row.kind));
    }
    assert rows[..|rows|] == rows;
    r := Ok(d);
  }

  lemma LoadFails(rows: seq<Row>, i: nat)
    requires i < |rows| && (rows[i].value.None? || rows[i].value.value == "")
    ensures LoadRows(rows) == Err(CannotDecrypt)
  {
    LoadRowsShape(rows);
    assert rows[i] in rows;
    LoadErrorIsDecryption(rows);
  }

  lemma LoadErrorIsDecryption(rows: seq<Row>)
    ensures LoadRows(rows).Err? ==> LoadRows(rows).error == CannotDecrypt
  {}

  /** Enumerates and sorts the protected values. */
  method SortedNames(values: set<Text>) returns (names: seq<Text>)
    ensures ProtectedOrder(names, values) && NonEmpty(names)
  {
    var left, listed := values, [];
    while left != {}
      invariant left <= values
      invariant forall x :: x in listed <==> x in values - left && x != ""
    {
      var v :| v in left;
      left := left - {v};
      if v != "" { listed := listed + [v]; }
    }
    names := LongestFirst(listed, Length);
    SameElements(names, listed);
  }

  class ConversationNameObfuscator {
    const candidates: map<Text, set<Kind>>
    const encrypts: Text -> bool
    var aliasesByValue: map<Text, Entry>
    var valuesByAlias: seq<Binding>
    var rows: seq<Row>

    ghost predicate Valid()
      reads this
    {
      Consistent(aliasesByValue, valuesByAlias, rows)
    }

    constructor (candidates: map<Text, set<Kind>>, encrypts: Text -> bool, loaded: Loaded, rows: seq<Row>)
      requires StoredRows(rows) && LoadRows(rows) == Ok(loaded)
      ensures Valid()
      ensures this.candidates == candidates && this.encrypts == encrypts && this.rows == rows
      ensures Loaded(aliasesByValue, AliasesOf(Inverse(valuesByAlias))) == loaded
    {
      LoadedIsConsistent(rows);
      this.candidates := candidates;
      this.encrypts := encrypts;
      this.rows := rows;
      aliasesByValue := loaded.byValue;
      valuesByAlias := Bindings(loaded.byValue, loaded.order);
    }

    ghost function Protected(): set<Text>
      reads this
    {
      candidates.Keys + aliasesByValue.Keys
    }

    /** A random alias that is not in use; the choice of the tail is arbitrary. */
    method NewAlias(kind: Kind) returns (alias: Text)
      requires |valuesByAlias| < TAILS
      ensures (exists tail :: MadeFrom(alias, kind, tail)) && Generated(alias) && alias !in AliasesOf(valuesByAlias)
    {
      FreshAliasExists(kind, AliasesOf(valuesByAlias));
      var tail :| IsTail(tail) && AliasText(kind, tail) !in AliasesOf(valuesByAlias);
      alias := AliasText(kind, tail);
      assert MadeFrom(alias, kind, tail);
    }

    /** The alias of a value, made and stored on first use. */
    method AliasFor(value: Text) returns (r: Result<Text>)
      requires Valid() && value != ""
      modifies this
      ensures Valid() && Grown(old(valuesByAlias), valuesByAlias)
      ensures r.Ok? ==> Binding(r.value, value) in valuesByAlias
      ensures r.Err? <==> value !in old(aliasesByValue) && (|old(aliasesByValue)| >= MAX_ALIASES || !encrypts(value))
      ensures r.Err? ==> r.error == if |old(aliasesByValue)| >= MAX_ALIASES then TooManyAliases else CannotEncrypt
      ensures value in old(aliasesByValue) ==> r == Ok(old(aliasesByValue)[value].alias)
      ensures r.Err? || value in old(aliasesByValue) ==>
                aliasesByValue == old(aliasesByValue) && valuesByAlias == old(valuesByAlias) && rows == old(rows)
      ensures r.Ok? && value !in old(aliasesByValue) ==>
                && r.value !in AliasesOf(old(valuesByAlias))
                && valuesByAlias == old(valuesByAlias) + [Binding(r.value, value)]
                && value in aliasesByValue && KindFor(candidates, value, aliasesByValue[value].kind)
                && (exists tail :: MadeFrom(r.value, aliasesByValue[value].kind, tail))
                && aliasesByValue == old(aliasesByValue)[value := Entry(r.value, aliasesByValue[value].kind)]
                && rows == old(rows) + [Row(r.value, Some(value), aliasesByValue[value].kind)]
    {
      if value in aliasesByValue {
        return Ok(aliasesByValue[value].alias);
      }
      if |aliasesByValue| >= MAX_ALIASES {
        return Err(TooManyAliases);
      }
      var kinds := if value in candidates then candidates[value] else {};
      var kind := Ambiguous;
      if |kinds| == 1 {
        kind :| kind in kinds;
      }
      var alias := NewAlias(kind);
      if !encrypts(value) {
        return Err(CannotEncrypt);
      }
      AddedIsConsistent(aliasesByValue, valuesByAlias, rows, value, Entry(alias, kind));
      rows := rows + [Row(alias, Some(value), kind)];
      aliasesByValue := aliasesByValue[value := Entry(alias, kind)];
      valuesByAlias := valuesByAlias + [Binding(alias, value)];
      return Ok(alias);
    }

    /** `AliasFor`, for a caller that only needs the dictionary to know the name afterwards. */
    method Bind(name: Text) returns (r: Result<Text>)
      requires Valid() && name != "" && name in Protected()
      modifies this
      ensures Valid() && Protected() == old(Protected()) && Grown(old(valuesByAlias), valuesByAlias)
      ensures r.Ok? ==> Binding(r.value, name) in valuesByAlias
      ensures r.Err? <==> name !in old(aliasesByValue) && (|old(aliasesByValue)| >= MAX_ALIASES || !encrypts(name))
      ensures aliasesByValue.Keys == old(aliasesByValue).Keys + if r.Ok? then {name} else {}
    {
      hide Consistent;
      r := AliasFor(name);
    }

    /** One match of the scan: the alias of the name, made if need be, goes to the output. */
    method ReplaceName(names: seq<Text>, name: Text, rest: Text, out: Text, ghost all: seq<Piece>,
                       ghost done: seq<Piece>, ghost known: set<Text>)
      returns (r: Result<Text>)
      requires Valid() && name in Protected() && FittedSoFar(known, aliasesByValue.Keys, done, encrypts)
      requires ScannedSoFar(valuesByAlias, names, all, done, rest, out)
      requires rest != "" && FirstMatch(names, rest) == Some(name)
      modifies this
      ensures 0 < |name| <= |rest|
      ensures Valid() && Protected() == old(Protected()) && Grown(old(valuesByAlias), valuesByAlias)
      ensures r.Ok? ==> ScannedSoFar(valuesByAlias, names, all, done + [Name(name)], rest[|name|..], r.value)
      ensures r.Ok? ==> FittedSoFar(known, aliasesByValue.Keys, done + [Name(name)], encrypts)
      ensures r.Err? ==> Extended(known, aliasesByValue.Keys, NamesOf(all), encrypts, false)
    {
      hide Fits, NamesOf, Consistent, OneToOne, ScannedSoFar, Scan, FittedSoFar, FirstMatch;
      ghost var before, keys := valuesByAlias, aliasesByValue.Keys;
      ScannedShape(before, names, all, done, rest, out, name);
      ConsistentIsOneToOne(aliasesByValue, before, rows);
      FittedName(known, keys, all, done, name, Scan(names, rest[|name|..]), encrypts);
      assert |keys| == |aliasesByValue|;
      var alias := Bind(name);
      if alias.Err? {
        assert aliasesByValue.Keys == keys;
        return alias;
      }
      ConsistentIsOneToOne(aliasesByValue, valuesByAlias, rows);
      ScannedName(before, valuesByAlias, names, all, done, rest, out, name, alias.value);
      r := Ok(out + alias.value);
    }

    /** `pattern.sub`: the left-to-right scan, one name or character at a time. */
    method Substitute(names: seq<Text>, text: Text) returns (r: Result<Text>, ghost done: seq<Piece>)
      requires Valid() && ProtectedOrder(names, Protected()) && NonEmpty(names)
      modifies this
      ensures Valid() && Protected() == old(Protected()) && Grown(old(valuesByAlias), valuesByAlias)
      ensures r.Ok? ==> ScannedSoFar(valuesByAlias, names, Scan(names, text), done, "", r.value)
      ensures Extended(old(aliasesByValue).Keys, aliasesByValue.Keys, NamesOf(Scan(names, text)), encrypts, r.Ok?)
    {
      hide Fits, NamesOf, Consistent, OneToOne, FittedSoFar, Extended;
      var out, rest := "", text;
      ghost var all, known := Scan(names, text), aliasesByValue.Keys;
      done := [];
      FittedNothing(known, encrypts);
      while rest != ""
        invariant FittedSoFar(known, aliasesByValue.Keys, done, encrypts)
        invariant Valid() && Protected() == old(Protected()) && Grown(old(valuesByAlias), valuesByAlias)
        invariant ScannedSoFar(valuesByAlias, names, all, done, rest, out)
        decreases |rest|
      {
        var m := FirstMatch(names, rest);
        if m.Some? {
          r := ReplaceName(names, m.value, rest, out, all, done, known);
          if r.Err? {
            return;
          }
          done, out, rest := done + [Name(m.value)], r.value, rest[|m.value|..];
        } else {
          ScannedCharacter(valuesByAlias, names, all, done, rest, out);
          assert |rest[1..]| < |rest|;
          FittedCharacter(known, aliasesByValue.Keys, done, rest[0], encrypts);
          done, out, rest := done + [Lit(rest[0])], out + [rest[0]], rest[1..];
        }
      }
      FittedAll(known, aliasesByValue.Keys, valuesByAlias, names, all, done, out, encrypts);
      r := Ok(out);
    }

    /** Replaces every protected name, longest first, with aliases made on the way. */
    method ObfuscateText(text: Text) returns (r: Result<Text>)
      requires Valid()
      modifies this
      ensures Valid() && Protected() == old(Protected()) && Grown(old(valuesByAlias), valuesByAlias)
      ensures r.Ok? ==> ObfuscationOf(valuesByAlias, Protected(), text, r.value)
      ensures Extended(old(aliasesByValue).Keys, aliasesByValue.Keys, NamesMet(old(Protected()), text), encrypts, r.Ok?)
    {
      hide Consistent, OneToOne, Extended, NamesMet, ObfuscationOf, ScannedSoFar;
      var names := SortedNames(candidates.Keys + aliasesByValue.Keys);
      ghost var done;
      MetAreScanned(Protected(), names, text);
      r, done := Substitute(names, text);
      if r.Ok? {
        ConsistentIsOneToOne(aliasesByValue, valuesByAlias, rows);
        ScannedAll(valuesByAlias, Protected(), names, text, done, r.value);
      }
    }

    /** `restore_text`: one replacement per alias, longest alias first. */
    method Restore(text: Text) returns (result: Text)
      requires NonEmpty(AliasesOf(valuesByAlias))
      ensures result == RestoreText(valuesByAlias, text)
    {
      AliasIn(valuesByAlias);
      var order := RestoringOrder(valuesByAlias);
      assert forall b | b in order :: b.alias != "";
      ghost var whole := RestoreText(valuesByAlias, text);
      result := text;
      assert order[0..] == order;
      for i := 0 to |order|
        invariant ReplaceEach(order[i..], result) == whole
      {
        ReplaceEachStep(order, i, result);
        result := Replace(result, order[i].alias, order[i].value);
      }
    }

    /** `obfuscate_value`: every text inside a value, in order, with one growing dictionary. */
    method ObfuscateValue(v: Json) returns (r: Result<Json>)
      requires Valid()
      modifies this
      ensures Valid() && Protected() == old(Protected()) && Grown(old(valuesByAlias), valuesByAlias)
      ensures r.Ok? ==> ValueObfuscation(valuesByAlias, Protected(), v, r.value)
      ensures Extended(old(aliasesByValue).Keys, aliasesByValue.Keys, ValueMet(old(Protected()), v), encrypts, r.Ok?)
      decreases v, 0
    {
      hide Consistent, OneToOne, Extended, NamesMet, ValuesMet, ObfuscationOf;
      FittedNothing(aliasesByValue.Keys, encrypts);
      match v
      case Scalar(_) => r := Ok(v);
      case Str(text) =>
        var t := ObfuscateText(text);
        r := if t.Ok? then Ok(Str(t.value)) else Err(t.error);
      case Arr(items) =>
        var t := ObfuscateValues(items);
        r := if t.Ok? then Ok(Arr(t.value)) else Err(t.error);
      case Obj(keys, values) =>
        var t := ObfuscateValues(values);
        r := if t.Ok? then Ok(Obj(keys, t.value)) else Err(t.error);
    }

    method ObfuscateValues(vs: seq<Json>) returns (r: Result<seq<Json>>)
      requires Valid()
      modifies this
      ensures Valid() && Protected() == old(Protected()) && Grown(old(valuesByAlias), valuesByAlias)
      ensures r.Ok? ==> ValueObfuscations(valuesByAlias, Protected(), vs, r.value)
      ensures Extended(old(aliasesByValue).Keys, aliasesByValue.Keys, ValuesMet(old(Protected()), vs), encrypts, r.Ok?)
      decreases vs, 1
    {
      hide Extended, ValueMet, ValueObfuscation, Consistent, OneToOne;
      FittedNothing(aliasesByValue.Keys, encrypts);
      if vs == [] {
        return Ok([]);
      }
      ghost var known, a, b := aliasesByValue.Keys, ValueMet(Protected(), vs[0]), ValuesMet(Protected(), vs[1..]);
      var first := ObfuscateValue(vs[0]);
      ghost var mid := aliasesByValue.Keys;
      if first.Err? {
        FirstPartFails(known, mid, a, b, encrypts);
        return Err(first.error);
      }
      ghost var before := valuesByAlias;
      ConsistentIsOneToOne(aliasesByValue, before, rows);
      var rest := ObfuscateValues(vs[1..]);
      SecondPart(known, mid, aliasesByValue.Keys, a, b, encrypts, rest.Ok?);
      if rest.Err? {
        return rest;
      }
      ConsistentIsOneToOne(aliasesByValue, valuesByAlias, rows);
      OneMoreValue(before, valuesByAlias, Protected(), vs, first.value, rest.value);
      r := Ok([first.value] + rest.value);
    }
  }

  // ------------------------------------------------------------ structured values

  /** The structured messages and tool arguments that are obfuscated; keys are left alone. */
  datatype Json =
    | Scalar(token: string)
    | Str(text: Text)
    | Arr(items: seq<Json>)
    | Obj(keys: seq<string>, values: seq<Json>)

  /** `restore_value` */
  function RestoreValue(bs: seq<Binding>, v: Json): Json
    requires NonEmpty(AliasesOf(bs))
    decreases v
  {
    match v
    case Scalar(_) => v
    case Str(text) => Str(RestoreText(bs, text))
    case Arr(items) => Arr(seq(|items|, i requires 0 <= i < |items| => RestoreValue(bs, items[i])))
    case Obj(keys, values) => Obj(keys, seq(|values|, i requires 0 <= i < |values| => RestoreValue(bs, values[i])))
  }

  /** `w` is `v` with every text obfuscated. */
  ghost predicate ValueObfuscation(bs: seq<Binding>, values: set<Text>, v: Json, w: Json)
    decreases v, 0
  {
    match v
    case Scalar(_) => w == v
    case Str(text) => w.Str? && ObfuscationOf(bs, values, text, w.text)
    case Arr(items) => w.Arr? && ValueObfuscations(bs, values, items, w.items)
    case Obj(keys, vs) => w.Obj? && w.keys == keys && ValueObfuscations(bs, values, vs, w.values)
  }

  ghost predicate ValueObfuscations(bs: seq<Binding>, values: set<Text>, vs: seq<Json>, ws: seq<Json>)
    decreases vs, 1
  {
    |vs| == |ws| && forall i | 0 <= i < |vs| :: ValueObfuscation(bs, values, vs[i], ws[i])
  }

  /** The protected values met anywhere in a value. */
  ghost function ValueMet(values: set<Text>, v: Json): set<Text>
    decreases v, 0
  {
    match v
    case Scalar(_) => {}
    case Str(text) => NamesMet(values, text)
    case Arr(items) => ValuesMet(values, items)
    case Obj(_, vs) => ValuesMet(values, vs)
  }

  ghost function ValuesMet(values: set<Text>, vs: seq<Json>): set<Text>
    decreases vs, 1
  {
    if vs == [] then {} else ValueMet(values, vs[0]) + ValuesMet(values, vs[1..])
  }

  lemma ObfuscationGrows(bs: seq<Binding>, more: seq<Binding>, values: set<Text>, text: Text, out: Text)
    requires OneToOne(bs) && OneToOne(more) && bs <= more
    requires ObfuscationOf(bs, values, text, out)
    ensures ObfuscationOf(more, values, text, out)
  {
    forall names | ProtectedOrder(names, values)
      ensures NonEmpty(names) && NamesBound(more, names, text) && out == Obfuscated(more, names, text)
    {
      GrownRenders(bs, more, Scan(names, text));
    }
    forall later | Extends(more, later, text)
      ensures NonEmpty(AliasesOf(later)) && RestoreText(later, out) == text
    {
      assert Extends(bs, later, text);
    }
  }

  lemma ValueObfuscationGrows(bs: seq<Binding>, more: seq<Binding>, values: set<Text>, v: Json, w: Json)
    requires OneToOne(bs) && OneToOne(more) && bs <= more
    requires ValueObfuscation(bs, values, v, w)
    ensures ValueObfuscation(more, values, v, w)
    decreases v, 0
  {
    match v
    case Scalar(_) =>
    case Str(text) => ObfuscationGrows(bs, more, values, text, w.text);
    case Arr(items) => ObfuscationsGrow(bs, more, values, items, w.items);
    case Obj(keys, vs) => ObfuscationsGrow(bs, more, values, vs, w.values);
  }

  lemma ObfuscationsGrow(bs: seq<Binding>, more: seq<Binding>, values: set<Text>, vs: seq<Json>, ws: seq<Json>)
    requires OneToOne(bs) && OneToOne(more) && bs <= more
    requires ValueObfuscations(bs, values, vs, ws)
    ensures ValueObfuscations(more, values, vs, ws)
    decreases vs, 1
  {
    forall i | 0 <= i < |vs|
      ensures ValueObfuscation(more, values, vs[i], ws[i])
    {
      ValueObfuscationGrows(bs, more, values, vs[i], ws[i]);
    }
  }

  lemma OneMoreValue(bs: seq<Binding>, more: seq<Binding>, values: set<Text>, vs: seq<Json>, w: Json, ws: seq<Json>)
    requires OneToOne(bs) && OneToOne(more) && bs <= more && vs != []
    requires ValueObfuscation(bs, values, vs[0], w) && ValueObfuscations(more, values, vs[1..], ws)
    ensures ValueObfuscations(more, values, vs, [w] + ws)
  {
    ValueObfuscationGrows(bs, more, values, vs[0], w);
    forall i | 0 <= i < |vs|
      ensures ValueObfuscation(more, values, vs[i], ([w] + ws)[i])
    {
      if i > 0 { assert vs[i] == vs[1..][i - 1]; }
    }
  }

  /** No text inside the value contains an alias. */
  ghost predicate ValueAliasFree(bs: seq<Binding>, v: Json)
    decreases v
  {
    match v
    case Scalar(_) => true
    case Str(text) => AliasFree(bs, text)
    case Arr(items) => forall i | 0 <= i < |items| :: ValueAliasFree(bs, items[i])
    case Obj(_, vs) => forall i | 0 <= i < |vs| :: ValueAliasFree(bs, vs[i])
  }

  /** Restoring an obfuscated structured value gives it back, also with a later dictionary. */
  lemma {:induction false} ValueRoundTrip(bs: seq<Binding>, later: seq<Binding>, values: set<Text>, v: Json, w: Json)
    requires ValueObfuscation(bs, values, v, w)
    requires bs <= later && OneToOne(later) && CrossFree(AliasesOf(later)) && ValueAliasFree(later, v)
    ensures RestoreValue(later, w) == v
    decreases v
  {
    match v
    case Scalar(_) =>
    case Str(text) => assert Extends(bs, later, text);
    case Arr(items) =>
      forall i | 0 <= i < |items|
        ensures RestoreValue(later, w.items[i]) == items[i]
      {
        ValueRoundTrip(bs, later, values, items[i], w.items[i]);
      }
    case Obj(keys, vs) =>
      forall i | 0 <= i < |vs|
        ensures RestoreValue(later, w.values[i]) == vs[i]
      {
        ValueRoundTrip(bs, later, values, vs[i], w.values[i]);
      }
  }

  // ------------------------------------------------------------ runs of obfuscations

  /** Every result of a run that is no error is the obfuscation of its value. */
  ghost predicate RunObfuscations(bs: seq<Binding>, values: set<Text>, vs: seq<Json>, rs: seq<Result<Json>>) {
    |rs| <= |vs| && forall i | 0 <= i < |rs| && rs[i].Ok? :: ValueObfuscation(bs, values, vs[i], rs[i].value)
  }

  lemma OneMoreResult(bs: seq<Binding>, more: seq<Binding>, values: set<Text>, vs: seq<Json>, rs: seq<Result<Json>>,
                      r: Result<Json>)
    requires OneToOne(bs) && OneToOne(more) && bs <= more
    requires RunObfuscations(bs, values, vs, rs) && |rs| < |vs|
    requires r.Ok? ==> ValueObfuscation(more, values, vs[|rs|], r.value)
    ensures RunObfuscations(more, values, vs, rs + [r])
  {
    forall i | 0 <= i < |rs| && rs[i].Ok? ensures ValueObfuscation(more, values, vs[i], rs[i].value) {
      ValueObfuscationGrows(bs, more, values, vs[i], rs[i].value);
    }
  }

  /**
   The messages and tool results of a turn, one call after another, those that fail included: the
   dictionary stays a pair of inverse maps, only grows, and never grows beyond the cap.
   */
  method ObfuscateRun(obfuscator: ConversationNameObfuscator, vs: seq<Json>) returns (rs: seq<Result<Json>>)
    requires obfuscator.Valid()
    modifies obfuscator
    ensures obfuscator.Valid() && obfuscator.Protected() == old(obfuscator.Protected())
    ensures old(obfuscator.valuesByAlias) <= obfuscator.valuesByAlias
    ensures obfuscator.valuesByAlias == old(obfuscator.valuesByAlias) || |obfuscator.valuesByAlias| <= MAX_ALIASES
    ensures |rs| == |vs| && RunObfuscations(obfuscator.valuesByAlias, obfuscator.Protected(), vs, rs)
  {
    hide RunObfuscations, ValueObfuscation, Consistent, OneToOne, Extended, ValueMet, Grown;
    rs := [];
    NoResults(obfuscator.valuesByAlias, obfuscator.Protected(), vs);
    for i := 0 to |vs|
      invariant obfuscator.Valid() && obfuscator.Protected() == old(obfuscator.Protected())
      invariant Grown(old(obfuscator.valuesByAlias), obfuscator.valuesByAlias)
      invariant |rs| == i && RunObfuscations(obfuscator.valuesByAlias, obfuscator.Protected(), vs, rs)
    {
      ghost var before := obfuscator.valuesByAlias;
      ConsistentIsOneToOne(obfuscator.aliasesByValue, before, obfuscator.rows);
      var r := obfuscator.ObfuscateValue(vs[i]);
      GrownTwice(old(obfuscator.valuesByAlias), before, obfuscator.valuesByAlias);
      ConsistentIsOneToOne(obfuscator.aliasesByValue, obfuscator.valuesByAlias, obfuscator.rows);
      OneMoreResult(before, obfuscator.valuesByAlias, obfuscator.Protected(), vs, rs, r);
      rs := rs + [r];
    }
    GrownIs(old(obfuscator.valuesByAlias), obfuscator.valuesByAlias);
  }

  lemma NoResults(bs: seq<Binding>, values: set<Text>, vs: seq<Json>)
    ensures RunObfuscations(bs, values, vs, []) && Grown(bs, bs)
  {}

  lemma GrownTwice(bs: seq<Binding>, mid: seq<Binding>, more: seq<Binding>)
    requires Grown(bs, mid) && Grown(mid, more)
    ensures Grown(bs, more) && mid <= more
  {}

  lemma GrownIs(bs: seq<Binding>, more: seq<Binding>)
    requires Grown(bs, more)
    ensures bs <= more && (more == bs || |more| <= MAX_ALIASES)
  {}

  // ------------------------------------------------------------ the streaming restorer

  class AliasStreamRestorer {
    const obfuscator: ConversationNameObfuscator
    var buffer: Text

    constructor (obfuscator: ConversationNameObfuscator)
      ensures this.obfuscator == obfuscator && buffer == ""
    {
      this.obfuscator := obfuscator;
      buffer := "";
    }

    /** The length of the longest suffix of the buffer that may still become an alias. */
    method PossibleAliasPrefixLength() returns (length: nat)
      requires NonEmpty(AliasesOf(obfuscator.valuesByAlias))
      ensures length == HoldLength(AliasesOf(obfuscator.valuesByAlias), buffer)
    {
      var aliases := AliasesOf(obfuscator.valuesByAlias);
      length := Min(MaxPartial(aliases), |buffer|);
      while length > 0 && !StartsAnAlias(aliases, Suffix(buffer, length))
        invariant length <= |buffer|
        invariant LongestHeld(aliases, buffer, length) == HoldLength(aliases, buffer)
      {
        length := length - 1;
      }
    }

    method Feed(chunk: Text) returns (out: Text)
      requires NonEmpty(AliasesOf(obfuscator.valuesByAlias))
      modifies this
      ensures var aliases := AliasesOf(obfuscator.valuesByAlias);
              && out == RestoreText(obfuscator.valuesByAlias, Safe(aliases, old(buffer) + chunk))
              && buffer == Held(aliases, old(buffer) + chunk)
    {
      hide RestoreText, HoldLength, AliasesOf;
      buffer := buffer + chunk;
      var hold := PossibleAliasPrefixLength();
      var safe := buffer[..|buffer| - hold];
      buffer := buffer[|buffer| - hold..];
      out := obfuscator.Restore(safe);
    }

    method Flush() returns (out: Text)
      requires NonEmpty(AliasesOf(obfuscator.valuesByAlias))
      modifies this
      ensures out == RestoreText(obfuscator.valuesByAlias, old(buffer)) && buffer == ""
    {
      var text := buffer;
      buffer := "";
      out := obfuscator.Restore(text);
    }
  }

  /**
   The streaming loop of a turn: feed every delta, then flush. What the user sees is the
   whole-text restoration, whatever the chunking, unless the two kinds of Q meet.
   */
  method StreamReply(obfuscator: ConversationNameObfuscator, chunks: seq<Text>) returns (shown: Text)
    requires obfuscator.Valid()
    ensures NonEmpty(AliasesOf(obfuscator.valuesByAlias))
    ensures shown == StreamOutput(obfuscator.valuesByAlias, chunks, "")
    ensures (!QHazard(AliasesOf(obfuscator.valuesByAlias))
             && RestoresCleanly(obfuscator.valuesByAlias, Concat(chunks))) ==>
              shown == RestoreText(obfuscator.valuesByAlias, Concat(chunks))
  {
    hide Consistent, OnCourse, RestoreText;
    ghost var bs := obfuscator.valuesByAlias;
    StreamIsFaithful(obfuscator.aliasesByValue, bs, obfuscator.rows, chunks);
    StreamStarts(bs, chunks);
    var restorer := new AliasStreamRestorer(obfuscator);
    shown := "";
    for i := 0 to |chunks|
      invariant obfuscator.valuesByAlias == bs && restorer.obfuscator == obfuscator
      invariant OnCourse(bs, chunks, i, shown, restorer.buffer)
    {
      StreamGoesOn(bs, chunks, i, shown, restorer.buffer);
      var out := restorer.Feed(chunks[i]);
      shown := shown + out;
    }
    StreamEnds(bs, chunks, shown, restorer.buffer);
    var out := restorer.Flush();
    shown := shown + out;
  }

  /** What is shown after `i` chunks and what will follow are the whole output. */
  ghost predicate OnCourse(bs: seq<Binding>, chunks: seq<Text>, i: nat, shown: Text, buffer: Text)
    requires NonEmpty(AliasesOf(bs)) && i <= |chunks|
  {
    shown + StreamOutput(bs, chunks[i..], buffer) == StreamOutput(bs, chunks, "")
  }

  lemma StreamStarts(bs: seq<Binding>, chunks: seq<Text>)
    requires NonEmpty(AliasesOf(bs))
    ensures OnCourse(bs, chunks, 0, "", "")
  {
    assert chunks[0..] == chunks;
  }

  lemma StreamGoesOn(bs: seq<Binding>, chunks: seq<Text>, i: nat, shown: Text, buffer: Text)
    requires NonEmpty(AliasesOf(bs)) && i < |chunks| && OnCourse(bs, chunks, i, shown, buffer)
    ensures var b := buffer + chunks[i];
            OnCourse(bs, chunks, i + 1, shown + RestoreText(bs, Safe(AliasesOf(bs), b)), Held(AliasesOf(bs), b))
  {
    hide RestoreText, Safe, Held, AliasesOf;
    assert chunks[i..][1..] == chunks[i + 1..];
  }

  lemma StreamEnds(bs: seq<Binding>, chunks: seq<Text>, shown: Text, buffer: Text)
    requires NonEmpty(AliasesOf(bs)) && OnCourse(bs, chunks, |chunks|, shown, buffer)
    ensures shown + RestoreText(bs, buffer) == StreamOutput(bs, chunks, "")
  {}

  lemma StreamIsFaithful(byValue: map<Text, Entry>, bs: seq<Binding>, rows: seq<Row>, chunks: seq<Text>)
    requires Consistent(byValue, bs, rows)
    ensures NonEmpty(AliasesOf(bs))
    ensures !QHazard(AliasesOf(bs)) && RestoresCleanly(bs, Concat(chunks)) ==>
              StreamOutput(bs, chunks, "") == RestoreText(bs, Concat(chunks))
  {
    hide RestoreText, StreamOutput, LoadRows;
    GeneratedAreNonEmpty(AliasesOf(bs));
    CrossFreeIff(AliasesOf(bs));
    if !QHazard(AliasesOf(bs)) && RestoresCleanly(bs, Concat(chunks)) { StreamEqualsWhole(bs, chunks); }
  }
}
