/**
 Who may see a reply: the visibility lattice, how it is stored and read back from an audit, and
 how it accumulates over the turns of a conversation.
 */
module Visibility {

  import opened Wrappers

  /** What a reply is known to depend on, or that this is not known. */
  datatype Scope = Unknown | Known(projects: set<int>, superAdmin: bool)

  const GLOBAL := Known({}, false)

  function Combine(left: Scope, right: Scope): Scope {
    if left.Unknown? || right.Unknown? then Unknown
    else Known(left.projects + right.projects, left.superAdmin || right.superAdmin)
  }

  /** The order of the lattice: `x` reveals no more than `y`. */
  predicate Below(x: Scope, y: Scope) {
    Combine(x, y) == y
  }

  lemma CombineIsSemilattice(x: Scope, y: Scope, z: Scope)
    ensures Combine(Combine(x, y), z) == Combine(x, Combine(y, z))
    ensures Combine(x, y) == Combine(y, x)
    ensures Combine(x, x) == x
    ensures Combine(GLOBAL, x) == x && Combine(Unknown, x) == Unknown
  {
    if x.Known? && y.Known? {
      assert x.projects + y.projects == y.projects + x.projects;
      if z.Known? {
        assert x.projects + y.projects + z.projects == x.projects + (y.projects + z.projects);
      }
    }
    if x.Known? {
      assert x.projects + x.projects == x.projects && {} + x.projects == x.projects;
    }
  }

  // ------------------------------------------------------------ who is allowed

  datatype Viewer = Nobody | SuperAdmin | Ordinary(projects: Option<set<int>>)

  predicate Allowed(s: Scope, viewer: Viewer) {
    match viewer
    case Nobody => false
    case SuperAdmin => true
    case Ordinary(projects) => s.Known? && !s.superAdmin && (projects.None? || s.projects <= projects.value)
  }

  /**
   Nobody sees anything, a super admin everything; anyone else a reply whose scope is known, needs no
   super admin, and names only projects of theirs, if theirs are limited at all.
   */
  lemma AllowedIff(projects: set<int>, superAdmin: bool, mine: set<int>)
    ensures Allowed(Known(projects, superAdmin), Ordinary(Some(mine))) <==>
              !superAdmin && forall p | p in projects :: p in mine
    ensures Allowed(Known(projects, superAdmin), Ordinary(None)) <==> !superAdmin
    ensures !Allowed(Unknown, Ordinary(Some(mine))) && !Allowed(Unknown, Ordinary(None))
    ensures forall s :: Allowed(s, SuperAdmin) && !Allowed(s, Nobody)
  {
    if forall p | p in projects :: p in mine {
      assert projects <= mine;
    }
  }

  /** A combination is allowed exactly when both parts are. */
  lemma AllowedCombine(x: Scope, y: Scope, viewer: Viewer)
    ensures Allowed(Combine(x, y), viewer) <==> Allowed(x, viewer) && Allowed(y, viewer)
  {}

  lemma AllowedBelow(x: Scope, y: Scope, viewer: Viewer)
    requires Below(x, y) && Allowed(y, viewer)
    ensures Allowed(x, viewer)
  {
    AllowedCombine(x, y, viewer);
  }

  // ------------------------------------------------------------ the stored marker

  /** A JSON value in the list of project identifiers. */
  datatype Item = Number(n: int) | Flag | Text(parsed: Option<int>)

  /** A stored marker: whether `known` is literally true, the list if it is one, the admin flag. */
  datatype Marker = Marker(known: bool, ids: Option<seq<Item>>, superAdmin: bool)

  function AsProjectId(item: Item): Option<int> {
    match item
    case Flag => None
    case Number(n) => if n > 0 then Some(n) else None
    case Text(parsed) => if parsed.Some? && parsed.value > 0 then parsed else None
  }

  function ProjectIds(ids: seq<Item>): Option<set<int>> {
    if ids == [] then Some({})
    else
      var first, rest := AsProjectId(ids[0]), ProjectIds(ids[1..]);
      if first.None? || rest.None? then None else Some({first.value} + rest.value)
  }

  /** `_normalise_visibility`: a marker that does not say it is known reads as no marker. */
  function Normalise(m: Option<Marker>): Option<Scope> {
    if m.None? || !m.value.known || m.value.ids.None? then None
    else
      var ids := ProjectIds(m.value.ids.value);
      if ids.None? then None else Some(Known(ids.value, m.value.superAdmin))
  }

  /** The positive integer an item stands for: a number, or a text that spells one; a flag is none. */
  predicate Names(item: Item, p: int) {
    p > 0 && (item == Number(p) || item == Text(Some(p)))
  }

  ghost predicate NamesOneOf(item: Item, projects: set<int>) {
    exists p :: p in projects && Names(item, p)
  }

  ghost predicate NamedIn(p: int, ids: seq<Item>) {
    exists i :: 0 <= i < |ids| && Names(ids[i], p)
  }

  /** Each item names one of the projects, and each project is named. */
  ghost predicate Spells(ids: seq<Item>, projects: set<int>) {
    && (forall i | 0 <= i < |ids| :: NamesOneOf(ids[i], projects))
    && (forall p | p in projects :: NamedIn(p, ids))
  }

  lemma AsProjectIdIs(item: Item, p: int)
    ensures AsProjectId(item) == Some(p) <==> Names(item, p)
  {}

  lemma OneMoreNamed(ids: seq<Item>, first: int, rest: set<int>)
    requires ids != [] && Names(ids[0], first) && forall i | 0 <= i < |ids[1..]| :: NamesOneOf(ids[1..][i], rest)
    ensures forall i | 0 <= i < |ids| :: NamesOneOf(ids[i], {first} + rest)
  {
    hide Names;
    var all := {first} + rest;
    forall i | 0 <= i < |ids| ensures NamesOneOf(ids[i], all) {
      if i == 0 {
        assert first in all;
      } else {
        assert NamesOneOf(ids[1..][i - 1], rest);
        var p :| p in rest && Names(ids[i], p);
        assert p in all;
      }
    }
  }

  lemma OneMoreProject(ids: seq<Item>, first: int, rest: set<int>)
    requires ids != [] && Names(ids[0], first) && forall p | p in rest :: NamedIn(p, ids[1..])
    ensures forall p | p in {first} + rest :: NamedIn(p, ids)
  {
    hide Names;
    forall p | p in {first} + rest ensures NamedIn(p, ids) {
      if p != first {
        assert NamedIn(p, ids[1..]);
        var i :| 0 <= i < |ids[1..]| && Names(ids[1..][i], p);
        assert Names(ids[i + 1], p);
      }
    }
  }

  lemma {:induction false} ReadIsSpelled(ids: seq<Item>)
    requires ProjectIds(ids).Some?
    ensures Spells(ids, ProjectIds(ids).value)
  {
    hide Names, NamesOneOf, NamedIn, AsProjectId;
    if ids != [] {
      var first, rest := AsProjectId(ids[0]).value, ProjectIds(ids[1..]).value;
      ReadIsSpelled(ids[1..]);
      AsProjectIdIs(ids[0], first);
      OneMoreNamed(ids, first, rest);
      OneMoreProject(ids, first, rest);
    }
  }

  lemma {:induction false} SpelledIsRead(ids: seq<Item>, projects: set<int>)
    requires forall i | 0 <= i < |ids| :: NamesOneOf(ids[i], projects)
    ensures ProjectIds(ids).Some?
  {
    if ids != [] {
      assert NamesOneOf(ids[0], projects);
      var p :| p in projects && Names(ids[0], p);
      AsProjectIdIs(ids[0], p);
      SpelledIsRead(ids[1..], projects);
    }
  }

  /** A list spells at most one set of projects. */
  lemma SpellsOnce(ids: seq<Item>, x: set<int>, y: set<int>)
    requires Spells(ids, x) && Spells(ids, y)
    ensures x <= y
  {
    hide Names;
    forall p | p in x ensures p in y {
      assert NamedIn(p, ids);
      var i :| 0 <= i < |ids| && Names(ids[i], p);
      assert NamesOneOf(ids[i], y);
      var q :| q in y && Names(ids[i], q);
      OneName(ids[i], p, q);
    }
  }

  lemma OneName(item: Item, p: int, q: int)
    requires Names(item, p) && Names(item, q)
    ensures p == q
  {}

  /** A list of identifiers is readable exactly when each item names a project, and holds just those. */
  lemma ProjectIdsIff(ids: seq<Item>, projects: set<int>)
    ensures ProjectIds(ids) == Some(projects) <==> Spells(ids, projects)
  {
    hide ProjectIds;
    if ProjectIds(ids).Some? { ReadIsSpelled(ids); }
    if Spells(ids, projects) {
      hide Names, NamesOneOf, NamedIn;
      SpelledIsRead(ids, projects);
      ReadIsSpelled(ids);
      SpellsOnce(ids, projects, ProjectIds(ids).value);
      SpellsOnce(ids, ProjectIds(ids).value, projects);
      assert ProjectIds(ids).value == projects;
    }
  }

  /** The numbers of a list of identifiers. */
  predicate Lists(ids: seq<Item>, projects: set<int>)
    decreases |ids|
  {
    if ids == [] then projects == {}
    else ids[0].Number? && ids[0].n in projects && (Lists(ids[1..], projects) || Lists(ids[1..], projects - {ids[0].n}))
  }

  /** How a scope is written into an audit. */
  predicate Stores(m: Marker, s: Scope) {
    match s
    case Unknown => !m.known
    case Known(projects, superAdmin) =>
      m.known && m.ids.Some? && Lists(m.ids.value, projects) && m.superAdmin == superAdmin
  }

  predicate Positive(s: Scope) {
    s.Known? ==> forall p | p in s.projects :: p > 0
  }

  lemma {:induction false} ListsReadsBack(ids: seq<Item>, projects: set<int>)
    requires Lists(ids, projects) && forall p | p in projects :: p > 0
    ensures ProjectIds(ids) == Some(projects)
  {
    if ids != [] {
      if Lists(ids[1..], projects) {
        ListsReadsBack(ids[1..], projects);
        assert {ids[0].n} + projects == projects;
      } else {
        ListsReadsBack(ids[1..], projects - {ids[0].n});
        assert {ids[0].n} + (projects - {ids[0].n}) == projects;
      }
    }
  }

  /** A known scope reads back as itself, an unknown one as a missing marker. */
  lemma StoredReadsBack(m: Marker, s: Scope)
    requires Stores(m, s) && Positive(s)
    ensures Normalise(Some(m)) == if s.Known? then Some(s) else None
  {
    if s.Known? { ListsReadsBack(m.ids.value, s.projects); }
  }

  // ------------------------------------------------------------ audits

  /** The result of a write tool in a trace, as far as it is read again. */
  datatype Outcome = Outcome(ok: Option<bool>, error: Option<string>)

  /** The confirmation fields an entry, or the data of its result, may carry. */
  datatype Card = Card(confirmation: Option<string>, expires: Option<int>, preview: Option<map<string, string>>)

  /** A trace entry; `None` stands for a field that is missing or has another JSON type. */
  datatype Entry =
    | Malformed
    | Entry(status: string, card: Card, decision: Option<string>, required: Option<Card>,
            result: Option<Outcome>, visibility: Option<Marker>)

  datatype Detail = NotAList | List(entries: seq<Entry>)

  datatype Audit = Audit(status: string, responseVisibility: Option<Marker>, detail: Detail)

  function EntryScope(e: Entry): Scope {
    if e.Malformed? then Unknown
    else match Normalise(e.visibility) case Some(s) => s case None => Unknown
  }

  /** The join over the trace entries. */
  function TraceScope(entries: seq<Entry>): Scope {
    if entries == [] then GLOBAL
    else Combine(TraceScope(entries[..|entries| - 1]), EntryScope(entries[|entries| - 1]))
  }

  function DetailScope(d: Detail): Scope {
    if d.NotAList? then GLOBAL else TraceScope(d.entries)
  }

  /** `_visibility_for_audit` */
  function AuditScope(a: Audit): Scope {
    match Normalise(a.responseVisibility)
    case Some(s) => Combine(s, DetailScope(a.detail))
    case None => if a.detail.List? && a.detail.entries != [] then TraceScope(a.detail.entries) else Unknown
  }

  /** `_visibility_from_trace_entries` with its loop and early exits. */
  method VisibilityFromTraceEntries(d: Detail) returns (r: Scope)
    ensures r == DetailScope(d)
  {
    if d.NotAList? {
      return GLOBAL;
    }
    r := GLOBAL;
    for i := 0 to |d.entries|
      invariant r == TraceScope(d.entries[..i]) && r.Known?
    {
      assert d.entries[..i + 1][..i] == d.entries[..i];
      var e := d.entries[i];
      if e.Malformed? || Normalise(e.visibility).None? {
        UnknownStays(d.entries, i);
        return Unknown;
      }
      r := Combine(r, Normalise(e.visibility).value);
    }
    assert d.entries[..|d.entries|] == d.entries;
  }

  lemma UnknownStays(entries: seq<Entry>, i: nat)
    requires i < |entries| && EntryScope(entries[i]).Unknown?
    ensures TraceScope(entries).Unknown?
    decreases |entries|
  {
    if i < |entries| - 1 { UnknownStays(entries[..|entries| - 1], i); }
  }

  // ------------------------------------------------------------ the turns of a conversation

  /** `_historical_visibility`: the join over the earlier turns. */
  function Historical(audits: seq<Audit>): Scope {
    if audits == [] then GLOBAL
    else Combine(Historical(audits[..|audits| - 1]), AuditScope(audits[|audits| - 1]))
  }

  /** What a finishing turn records: the history joined with its own trace. */
  predicate RecordedAfter(a: Audit, earlier: seq<Audit>) {
    && a.responseVisibility.Some?
    && Stores(a.responseVisibility.value, Combine(Historical(earlier), DetailScope(a.detail)))
  }

  /** Turns that finished one after another. */
  ghost predicate Sequential(audits: seq<Audit>) {
    forall i | 0 <= i < |audits| :: RecordedAfter(audits[i], audits[..i])
  }

  lemma TraceScopeIsPositive(entries: seq<Entry>)
    ensures Positive(TraceScope(entries))
  {
    if entries != [] { EntryScopeIsPositive(entries[|entries| - 1]); }
  }

  lemma EntryScopeIsPositive(e: Entry)
    ensures Positive(EntryScope(e))
  {
    if e.Entry? { NormalisedIsPositive(e.visibility); }
  }

  lemma NormalisedIsPositive(m: Option<Marker>)
    ensures Normalise(m).Some? ==> Positive(Normalise(m).value)
  {
    if m.Some? && m.value.ids.Some? { ProjectIdsArePositive(m.value.ids.value); }
  }

  lemma ProjectIdsArePositive(ids: seq<Item>)
    ensures ProjectIds(ids).Some? ==> forall p | p in ProjectIds(ids).value :: p > 0
  {}

  lemma AuditScopeIsPositive(a: Audit)
    ensures Positive(AuditScope(a))
  {
    NormalisedIsPositive(a.responseVisibility);
    if a.detail.List? { TraceScopeIsPositive(a.detail.entries); }
  }

  lemma HistoricalIsPositive(audits: seq<Audit>)
    ensures Positive(Historical(audits))
  {
    if audits != [] { AuditScopeIsPositive(audits[|audits| - 1]); }
  }

  /** What a finished turn reads back as: the history is only kept when everything is known. */
  lemma RecordedScope(a: Audit, earlier: seq<Audit>)
    requires RecordedAfter(a, earlier)
    ensures AuditScope(a) ==
            if Historical(earlier).Known? && DetailScope(a.detail).Known?
            then Combine(Historical(earlier), DetailScope(a.detail))
            else if a.detail.List? && a.detail.entries != [] then TraceScope(a.detail.entries) else Unknown
  {
    HistoricalIsPositive(earlier);
    if a.detail.List? { TraceScopeIsPositive(a.detail.entries); }
    var hist, own := Historical(earlier), DetailScope(a.detail);
    StoredReadsBack(a.responseVisibility.value, Combine(hist, own));
    CombineIsSemilattice(hist, own, own);
  }

  lemma {:induction false} EarlierBelowHistorical(audits: seq<Audit>, j: nat)
    requires j < |audits|
    ensures Below(AuditScope(audits[j]), Historical(audits))
  {
    var front, last := Historical(audits[..|audits| - 1]), AuditScope(audits[|audits| - 1]);
    CombineIsSemilattice(front, last, last);
    if j < |audits| - 1 {
      EarlierBelowHistorical(audits[..|audits| - 1], j);
      CombineIsSemilattice(AuditScope(audits[j]), front, last);
    } else {
      CombineIsSemilattice(last, front, last);
      CombineIsSemilattice(last, last, front);
    }
  }

  lemma UnknownHistoryHasUnknownTurn(audits: seq<Audit>) returns (j: nat)
    requires Historical(audits).Unknown?
    ensures j < |audits| && AuditScope(audits[j]).Unknown?
  {
    if AuditScope(audits[|audits| - 1]).Unknown? {
      j := |audits| - 1;
    } else {
      j := UnknownHistoryHasUnknownTurn(audits[..|audits| - 1]);
    }
  }

  lemma {:induction false} KnownTurnsKnownHistory(audits: seq<Audit>)
    requires forall k | 0 <= k < |audits| :: AuditScope(audits[k]).Known?
    ensures Historical(audits).Known?
  {
    if audits != [] { KnownTurnsKnownHistory(audits[..|audits| - 1]); }
  }

  /** An ordinary viewer who may see the last turn may see every earlier one. */
  ghost predicate LaterImpliesEarlier(earlier: seq<Audit>, a: Audit) {
    forall projects: set<int>, j | 0 <= j < |earlier| && Allowed(AuditScope(a), Ordinary(Some(projects))) ::
      Allowed(AuditScope(earlier[j]), Ordinary(Some(projects)))
  }

  /** The turn can be shown to some ordinary viewer on the strength of its own trace. */
  predicate OwnTraceOpens(d: Detail) {
    d.List? && d.entries != [] && TraceScope(d.entries).Known? && !TraceScope(d.entries).superAdmin
  }

  /**
   Being allowed a later reply implies being allowed every earlier one exactly when the history
   was known, or the turn's own trace shows it to no ordinary viewer.
   */
  lemma LaterImpliesEarlierIff(earlier: seq<Audit>, a: Audit)
    requires RecordedAfter(a, earlier)
    ensures LaterImpliesEarlier(earlier, a) <==> Historical(earlier).Known? || !OwnTraceOpens(a.detail)
  {
    RecordedScope(a, earlier);
    if Historical(earlier).Known? && DetailScope(a.detail).Known? {
      forall projects: set<int>, j | 0 <= j < |earlier| && Allowed(AuditScope(a), Ordinary(Some(projects)))
        ensures Allowed(AuditScope(earlier[j]), Ordinary(Some(projects)))
      {
        AllowedCombine(Historical(earlier), DetailScope(a.detail), Ordinary(Some(projects)));
        EarlierBelowHistorical(earlier, j);
        AllowedBelow(AuditScope(earlier[j]), Historical(earlier), Ordinary(Some(projects)));
      }
    } else if OwnTraceOpens(a.detail) && Historical(earlier).Unknown? {
      var j := UnknownHistoryHasUnknownTurn(earlier);
      var projects := TraceScope(a.detail.entries).projects;
      assert Allowed(AuditScope(a), Ordinary(Some(projects)));
      assert !Allowed(AuditScope(earlier[j]), Ordinary(Some(projects)));
    }
  }

  /** For whole conversations whose recorded scopes are all known, for every viewer. */
  lemma ConversationIsMonotone(audits: seq<Audit>, j: nat, i: nat, viewer: Viewer)
    requires Sequential(audits) && j < i < |audits|
    requires forall k | 0 <= k < |audits| :: AuditScope(audits[k]).Known?
    requires Allowed(AuditScope(audits[i]), viewer)
    ensures Allowed(AuditScope(audits[j]), viewer)
  {
    var earlier := audits[..i];
    assert RecordedAfter(audits[i], earlier);
    RecordedScope(audits[i], earlier);
    forall k | 0 <= k < |earlier| ensures AuditScope(earlier[k]).Known? {
      assert earlier[k] == audits[k];
    }
    KnownTurnsKnownHistory(earlier);
    AllowedCombine(Historical(earlier), DetailScope(audits[i].detail), viewer);
    EarlierBelowHistorical(earlier, j);
    AllowedBelow(AuditScope(earlier[j]), Historical(earlier), viewer);
  }

  /** A legacy turn without a marker, then a turn whose only tool saw project 1. */
  lemma LaterCanRevealMore()
    ensures exists earlier, a :: RecordedAfter(a, earlier) && !LaterImpliesEarlier(earlier, a)
  {
    var legacy := Audit("succeeded", None, List([]));
    var entry := Entry("succeeded", Card(None, None, None), None, None, None,
        Some(Marker(true, Some([Number(1)]), false)));
    var a := Audit("succeeded", Some(Marker(false, Some([]), false)), List([entry]));
    assert ProjectIds([Number(1)]) == Some({1}) by {
      assert [Number(1)][1..] == [] && ProjectIds([]) == Some({});
      assert {1} + {} == {1};
    }
    assert [legacy][..0] == [] && [entry][..0] == [];
    assert AuditScope(legacy).Unknown?;
    assert Historical([legacy]).Unknown?;
    assert TraceScope([entry]) == Combine(GLOBAL, Known({1}, false));
    LaterImpliesEarlierIff([legacy], a);
  }
}
