/** Which observations share an incident: the correlation key read back, over every run. */
module IncidentIdentity {
  import opened IncidentClustering
  import opened IncidentInvariants
  import opened Incidents
  import opened Wrappers

  // ------------------------------------------------------------ the key and its four fields

  predicate Plain(s: string) {
    forall i | 0 <= i < |s| :: s[i] != ':'
  }

  lemma FirstField(x: string, r: string, y: string, s: string)
    requires Plain(x) && Plain(y) && x + ":" + r == y + ":" + s
    ensures x == y && r == s
  {
    var t := x + ":" + r;
    assert t[|x|] == ':' && t[|y|] == ':';
    assert x == t[..|x|] && y == t[..|y|] && r == t[|x| + 1..] && s == t[|y| + 1..];
  }

  lemma LastField(r: string, x: string, s: string, y: string)
    requires Plain(x) && Plain(y) && r + ":" + x == s + ":" + y
    ensures x == y && r == s
  {
    var t := r + ":" + x;
    assert t[|r|] == ':' && t[|s|] == ':';
    assert r == t[..|r|] && s == t[..|s|] && x == t[|r| + 1..] && y == t[|s| + 1..];
  }

  lemma CategoriesArePlain(category: string)
    requires category in CATEGORIES
    ensures Plain(category)
  {
    assert Plain("capacity_pressure") && Plain("device_fault");
    assert Plain("performance_contention") && Plain("telemetry_blindspot");
    var i :| 0 <= i < 4 && CATEGORIES[i] == category;
    assert i == 0 || i == 1 || i == 2 || i == 3;
  }

  /** Cluster numbers and asset types hold no colon; asset identifiers may. */
  predicate PlainAsset(a: Asset) {
    Plain(a.cluster) && Plain(a.assetType)
  }

  /** Two observations have the same key exactly when they name the same asset and category. */
  lemma KeyIff(a: Asset, category: string, b: Asset, category': string)
    requires PlainAsset(a) && PlainAsset(b) && category in CATEGORIES && category' in CATEGORIES
    ensures CorrelationKey(a, category) == CorrelationKey(b, category') <==> a == b && category == category'
  {
    if CorrelationKey(a, category) == CorrelationKey(b, category') {
      CategoriesArePlain(category);
      CategoriesArePlain(category');
      LastField(a.cluster + ":" + a.assetType + ":" + a.assetId, category,
                b.cluster + ":" + b.assetType + ":" + b.assetId, category');
      Regroup(a);
      Regroup(b);
      FirstField(a.cluster, a.assetType + ":" + a.assetId, b.cluster, b.assetType + ":" + b.assetId);
      FirstField(a.assetType, a.assetId, b.assetType, b.assetId);
    }
  }

  lemma Regroup(a: Asset)
    ensures a.cluster + ":" + a.assetType + ":" + a.assetId == a.cluster + ":" + (a.assetType + ":" + a.assetId)
  {}

  // ------------------------------------------------------------ the rows of every run

  ghost predicate LabelledRow(inc: Incident) {
    && PlainAsset(AssetOf(inc)) && inc.category in CATEGORIES
    && inc.key == CorrelationKey(AssetOf(inc), inc.category)
  }

  /** Every incident carries the key of its own asset and category. */
  ghost predicate Labelled(w: World) {
    forall i | 0 <= i < |w.incidents| :: LabelledRow(w.incidents[i])
  }

  ghost predicate PlainSteps(steps: seq<Step>) {
    forall i | 0 <= i < |steps| && steps[i].Observe? :: PlainAsset(steps[i].env.asset)
  }

  lemma ApplyKeepsLabels(w: World, window: int, s: Step)
    requires Labelled(w) && PlainSteps([s])
    ensures Labelled(Apply(w, window, s))
  {
    hide CorrelationKey, PlainAsset;
    if s.Observe? {
      assert [s][0] == s;
    } else {
      OtherStepsSameCorrelation(w, window, s);
      forall i | 0 <= i < |w.incidents|
        ensures LabelledRow(Apply(w, window, s).incidents[i])
      {
        assert LabelledRow(w.incidents[i]);
      }
    }
  }

  lemma {:induction false} RunKeepsLabels(w: World, window: int, steps: seq<Step>)
    requires Labelled(w) && PlainSteps(steps)
    ensures Labelled(RunAll(w, window, steps))
    decreases |steps|
  {
    hide Labelled;
    if steps != [] {
      ApplyKeepsLabels(w, window, steps[0]);
      RunKeepsLabels(Apply(w, window, steps[0]), window, steps[1..]);
    }
  }

  predicate About(inc: Incident, asset: Asset, category: string) {
    AssetOf(inc) == asset && inc.category == category
  }

  /** The rows and the evidence of every incident about something else are what they were. */
  ghost predicate OthersUntouched(w: World, v: World, asset: Asset, category: string) {
    && |w.incidents| <= |v.incidents|
    && (forall i | 0 <= i < |w.incidents| && !About(w.incidents[i], asset, category) ::
          v.incidents[i] == w.incidents[i])
    && (forall n | |w.evidence| <= n < |v.evidence| ::
          v.evidence[n].incident < |v.incidents| && About(v.incidents[v.evidence[n].incident], asset, category))
  }

  lemma TargetIsAbout(w: World, window: int, env: Envelope, category: string)
    requires Inv(w) && Labelled(w) && PlainAsset(env.asset) && category in CATEGORIES
    ensures var target := Target(w, window, CorrelationKey(env.asset, category), env.observedAt);
            target.Some? ==> About(w.incidents[target.value], env.asset, category)
  {
    hide CorrelationKey, PlainAsset;
    var key := CorrelationKey(env.asset, category);
    var target := Target(w, window, key, env.observedAt);
    if target.Some? {
      var inc := w.incidents[target.value];
      assert CursorSet(w, key) || CursorUnset(w, key);
      assert LabelledRow(inc);
      KeyIff(AssetOf(inc), inc.category, env.asset, category);
    }
  }

  lemma CorrelationStaysWithItsAsset(w: World, window: int, env: Envelope, category: string, maintenance: bool)
    requires Inv(w) && Labelled(w) && PlainAsset(env.asset)
    ensures var o := Correlate(w, window, env, category, maintenance);
            o.Done? ==>
              && w.evidence <= o.world.evidence && OthersUntouched(w, o.world, env.asset, category)
              && (FindEvidence(w.evidence, env.source, env.ref).None? && o.result.incident.Some? ==>
                    o.result.incident.value < |o.world.incidents|
                    && About(o.world.incidents[o.result.incident.value], env.asset, category))
  {
    if category in CATEGORIES { TargetIsAbout(w, window, env, category); }
    hide CorrelationKey, PlainAsset, Inv, Labelled, Target, FindEvidence, BucketIsTaken, Escalates, Advance;
  }

  /**
   After any run, an observation joins, touches or reopens no incident opened for another asset or
   category: all it changes are incidents about its own.
   */
  lemma ObservationStaysWithItsAsset(window: int, steps: seq<Step>, env: Envelope, category: string,
                                     maintenance: bool)
    requires PlainSteps(steps) && PlainAsset(env.asset)
    ensures var w := RunAll(EMPTY, window, steps);
            var o := Correlate(w, window, env, category, maintenance);
            o.Done? ==>
              && w.evidence <= o.world.evidence && OthersUntouched(w, o.world, env.asset, category)
              && (FindEvidence(w.evidence, env.source, env.ref).None? && o.result.incident.Some? ==>
                    o.result.incident.value < |o.world.incidents|
                    && About(o.world.incidents[o.result.incident.value], env.asset, category))
  {
    hide RunAll, Correlate, FindEvidence, OthersUntouched, About;
    RunKeepsLabels(EMPTY, window, steps);
    RunKeepsInv(EMPTY, window, steps);
    CorrelationStaysWithItsAsset(RunAll(EMPTY, window, steps), window, env, category, maintenance);
  }
}
