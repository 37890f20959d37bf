/** Reruns of the units that failed for infrastructure reasons: the forced child unit list. */
module InfraRerun {
  import opened Sql
  import opened Manifests
  import opened RunAggregate
  import opened TaskStates
  import opened Sets
  import Json = CanonicalJson

  predicate IsFailed(u: Unit) { u.state.lifecycle == Closed && u.state.quality == InfraError }

  function Failed(units: map<int, Unit>): set<int> {
    set u | u in units && IsFailed(units[u])
  }

  function FailedKeys(units: map<int, Unit>): set<string> {
    set u | u in units && IsFailed(units[u]) :: units[u].binding.unitKey
  }

  /** Unit keys are unique within a run. */
  predicate UniqueKeys(units: map<int, Unit>) {
    forall u, v :: u in units && v in units && units[u].binding.unitKey == units[v].binding.unitKey ==> u == v
  }

  ghost function BindingOf(units: map<int, Unit>, key: string): (b: Binding)
    requires key in FailedKeys(units)
    ensures b.unitKey == key && exists u :: u in Failed(units) && units[u].binding == b
  {
    var u :| u in units && IsFailed(units[u]) && units[u].binding.unitKey == key;
    units[u].binding
  }

  /** `row_number() over (order by unit_key)` over the failed units of the parent. */
  ghost function SortedKeys(units: map<int, Unit>): (ks: seq<string>)
    ensures forall k :: k in ks <==> k in FailedKeys(units)
    ensures Json.Ascending(ks)
  {
    var rows := Json.Rows(FailedKeys(units));
    Json.SortEnumerates(rows);
    Json.SortAscending(rows);
    Json.InsertionSort(rows)
  }

  /** The unit list the rerun guard compares the child manifest with. */
  ghost function Expected(units: map<int, Unit>): (es: seq<Entry>)
    ensures |es| == |SortedKeys(units)|
    ensures forall i :: 0 <= i < |es| ==>
      && es[i].ordinal == i + 1 && SortedKeys(units)[i] in FailedKeys(units)
      && es[i].binding == BindingOf(units, SortedKeys(units)[i])
  {
    var ks := SortedKeys(units);
    assert forall i :: 0 <= i < |ks| ==> ks[i] in ks;
    seq(|ks|, i requires 0 <= i < |ks| => Entry(i + 1, BindingOf(units, ks[i])))
  }

  /** Frozen columns a rerun takes over from its parent's manifest. */
  datatype Configuration = Configuration(
    planVersion: int, schemaVersion: string, iterationId: Option<string>,
    policyDigests: map<string, string>, retryPolicy: Option<string>, compilerVersion: string)

  datatype Parent = Parent(sealed: bool, lifecycle: Lifecycle, configuration: Configuration, units: map<int, Unit>)

  datatype Child = Child(
    selectionMode: Option<string>, rerunOf: Option<int>, triggerSource: string, triggerFingerprint: string,
    materializing: bool, lifecycle: Lifecycle, quality: Quality, configuration: Configuration)

  predicate IsRerun(c: Child) {
    && c.selectionMode == Some("INFRA_FAILURES") && c.rerunOf.Some?
    && c.triggerSource == "API" && "api:infra-rerun:" <= c.triggerFingerprint
    && c.materializing && c.lifecycle == Queued && c.quality == Quality.Pending
  }

  predicate IsParentOf(parents: map<int, Parent>, c: Child) {
    && c.rerunOf.Some? && c.rerunOf.value in parents
    && var p := parents[c.rerunOf.value];
    p.sealed && p.lifecycle == Closed && c.configuration == p.configuration
  }

  /** The rerun guard on a child manifest; it leaves runs without a selection mode alone. */
  ghost predicate AcceptsChild(parents: map<int, Parent>, c: Child, units: seq<Entry>) {
    c.selectionMode.Some? ==>
      && IsRerun(c) && IsParentOf(parents, c)
      && Expected(parents[c.rerunOf.value].units) != [] && units == Expected(parents[c.rerunOf.value].units)
  }

  // -------------------------------------------------------------- exact selection

  predicate HasBinding(entries: seq<Entry>, b: Binding) {
    exists i :: 0 <= i < |entries| && entries[i].binding == b
  }

  /** Every and only the failed units, numbered in key order, each as it is stored. */
  predicate SelectsFailed(units: map<int, Unit>, child: seq<Entry>) {
    && (forall u :: u in units ==> (IsFailed(units[u]) <==> HasBinding(child, units[u].binding)))
    && (forall i :: 0 <= i < |child| ==> child[i].ordinal == i + 1 && child[i].binding.unitKey in FailedKeys(units))
    && Json.Ascending(Keys(child))
  }

  predicate Distinct(ks: seq<string>) {
    forall i, j :: 0 <= i < |ks| && 0 <= j < |ks| && ks[i] == ks[j] ==> i == j
  }

  lemma AscendingIsDistinct(ks: seq<string>)
    requires Json.Ascending(ks)
    ensures Distinct(ks)
  {
    forall i, j | 0 <= i < j < |ks| ensures ks[i] != ks[j] {
      assert Json.Less(ks[i], ks[j]);
      Json.LessIsStrictOrder(ks[i], ks[j], "");
    }
  }

  lemma FailedBinding(units: map<int, Unit>, u: int)
    requires UniqueKeys(units) && u in units
    ensures IsFailed(units[u]) <==> units[u].binding.unitKey in FailedKeys(units)
    ensures IsFailed(units[u]) ==> BindingOf(units, units[u].binding.unitKey) == units[u].binding
  {
  }

  lemma ExpectedHas(units: map<int, Unit>, u: int)
    requires UniqueKeys(units) && u in units
    ensures IsFailed(units[u]) <==> HasBinding(Expected(units), units[u].binding)
  {
    FailedBinding(units, u);
    var child, k := Expected(units), units[u].binding.unitKey;
    if IsFailed(units[u]) {
      var i :| 0 <= i < |child| && SortedKeys(units)[i] == k;
      assert child[i].binding == units[u].binding;
    }
  }

  lemma ExpectedIsExact(units: map<int, Unit>)
    requires UniqueKeys(units)
    ensures SelectsFailed(units, Expected(units))
    ensures Keys(Expected(units)) == SortedKeys(units)
  {
    assert Keys(Expected(units)) == SortedKeys(units);
    forall u | u in units ensures IsFailed(units[u]) <==> HasBinding(Expected(units), units[u].binding) {
      ExpectedHas(units, u);
    }
  }

  lemma ExactKeys(units: map<int, Unit>, child: seq<Entry>)
    requires UniqueKeys(units) && SelectsFailed(units, child)
    ensures Keys(child) == SortedKeys(units)
  {
    forall k ensures k in Keys(child) <==> k in SortedKeys(units) {
      if k in FailedKeys(units) {
        var u :| u in units && IsFailed(units[u]) && units[u].binding.unitKey == k;
        var i :| 0 <= i < |child| && child[i].binding == units[u].binding;
        assert Keys(child)[i] == k;
      }
    }
    Json.AscendingIsUnique(Keys(child), SortedKeys(units));
  }

  lemma ExactEntry(units: map<int, Unit>, child: seq<Entry>, i: nat)
    requires UniqueKeys(units) && SelectsFailed(units, child) && Distinct(Keys(child)) && i < |child|
    ensures child[i].binding.unitKey in FailedKeys(units)
    ensures child[i].binding == BindingOf(units, child[i].binding.unitKey)
  {
    var k := child[i].binding.unitKey;
    var u :| u in Failed(units) && units[u].binding == BindingOf(units, k);
    var j :| 0 <= j < |child| && child[j].binding == units[u].binding;
    assert child[j].binding.unitKey == BindingOf(units, k).unitKey == k;
    assert Keys(child)[j] == k == Keys(child)[i];
  }

  /** The binding of some unit that closed with an infrastructure error. */
  predicate IsLost(units: map<int, Unit>, b: Binding) {
    exists u :: u in units && units[u].binding == b
      && units[u].state.lifecycle == Closed && units[u].state.quality == InfraError
  }

  /** Exact selection, told from the columns: the bindings of the lost units and no other,
      numbered from 1 in code point order of their keys. */
  ghost predicate ExactSelection(units: map<int, Unit>, child: seq<Entry>) {
    && (forall b :: HasBinding(child, b) <==> IsLost(units, b))
    && (forall i :: 0 <= i < |child| ==> child[i].ordinal == i + 1)
    && KeysInOrder(child)
  }

  lemma SelectedAreLost(units: map<int, Unit>, child: seq<Entry>, b: Binding)
    requires UniqueKeys(units) && SelectsFailed(units, child) && Distinct(Keys(child))
    ensures HasBinding(child, b) <==> IsLost(units, b)
  {
    if i: nat :| i < |child| && child[i].binding == b {
      ExactEntry(units, child, i);
    }
  }

  lemma SelectionMeans(units: map<int, Unit>, child: seq<Entry>)
    requires UniqueKeys(units)
    ensures ExactSelection(units, child) <==> SelectsFailed(units, child)
  {
    KeysAscend(child);
    if SelectsFailed(units, child) {
      AscendingIsDistinct(Keys(child));
      forall b ensures HasBinding(child, b) <==> IsLost(units, b) { SelectedAreLost(units, child, b); }
    }
    if ExactSelection(units, child) { LostAreSelected(units, child); }
  }

  lemma LostAreSelected(units: map<int, Unit>, child: seq<Entry>)
    requires UniqueKeys(units) && ExactSelection(units, child) && Json.Ascending(Keys(child))
    ensures SelectsFailed(units, child)
  {
    forall i | 0 <= i < |child| ensures child[i].binding.unitKey in FailedKeys(units) {
      assert HasBinding(child, child[i].binding);
    }
    forall u | u in units ensures IsFailed(units[u]) <==> HasBinding(child, units[u].binding) {
      assert HasBinding(child, units[u].binding) <==> IsLost(units, units[u].binding);
    }
  }

  /** The guard leaves no choice: a child list selects exactly the lost units, in key order,
      if and only if it is the expected one. */
  lemma SelectionIsForced(units: map<int, Unit>, child: seq<Entry>)
    requires UniqueKeys(units)
    ensures ExactSelection(units, child) <==> child == Expected(units)
  {
    SelectionMeans(units, child);
    SelectionIsExpected(units, child);
  }

  lemma SelectionIsExpected(units: map<int, Unit>, child: seq<Entry>)
    requires UniqueKeys(units)
    ensures SelectsFailed(units, child) <==> child == Expected(units)
  {
    ExpectedIsExact(units);
    if SelectsFailed(units, child) {
      ExactKeys(units, child);
      AscendingIsDistinct(Keys(child));
      forall i | 0 <= i < |child| ensures child[i] == Expected(units)[i] {
        ExactEntry(units, child, i);
        assert Keys(child)[i] == SortedKeys(units)[i];
      }
    }
  }

  /** A run without a selection mode is left alone; with one, its manifest is accepted exactly if
      the run is an API-triggered infrastructure rerun, still queued and materializing, of a
      stored, sealed and closed run with the same frozen configuration, and the list is the
      non-empty exact selection. */
  lemma ChildIsForced(parents: map<int, Parent>, c: Child, units: seq<Entry>)
    requires forall p :: p in parents ==> UniqueKeys(parents[p].units)
    ensures AcceptsChild(parents, c, units) <==>
      || c.selectionMode.None?
      || (&& c.selectionMode.value == "INFRA_FAILURES" && c.triggerSource == "API"
          && |c.triggerFingerprint| >= 16 && c.triggerFingerprint[..16] == "api:infra-rerun:"
          && c.materializing && c.lifecycle == Queued && c.quality == Quality.Pending
          && c.rerunOf.Some? && c.rerunOf.value in parents
          && var p := parents[c.rerunOf.value];
          && p.sealed && p.lifecycle == Closed && p.configuration == c.configuration
          && units != [] && ExactSelection(p.units, units))
  {
    assert "api:infra-rerun:" <= c.triggerFingerprint <==>
      |c.triggerFingerprint| >= 16 && c.triggerFingerprint[..16] == "api:infra-rerun:";
    if c.rerunOf.Some? && c.rerunOf.value in parents {
      var p := c.rerunOf.value;
      assert UniqueKeys(parents[p].units);
      SelectionIsForced(parents[p].units, units);
    }
  }

  // ------------------------------------------------------------ reruns are valid

  function KeySet(units: seq<Entry>): set<string> {
    set k | k in Keys(units)
  }

  lemma {:induction false} DistinctSize(ks: seq<string>)
    requires Distinct(ks)
    ensures |set k | k in ks| == |ks|
  {
    if ks != [] {
      var init, last := ks[..|ks| - 1], ks[|ks| - 1];
      assert ks == init + [last];
      assert forall i :: 0 <= i < |init| ==> init[i] == ks[i];
      DistinctSize(init);
      assert (set k | k in ks) == (set k | k in init) + {last};
    }
  }

  /** The units of a sealed run have unique keys, and theirs are the manifest's. */
  lemma MaterializedKeys(units: map<int, Unit>, manifest: seq<Entry>)
    requires Distinct(Keys(manifest)) && Materializes(units, manifest)
    ensures UniqueKeys(units)
    ensures FailedKeys(units) <= KeySet(manifest)
  {
    forall u | u in units ensures units[u].binding.unitKey == Keys(manifest)[units[u].ordinal - 1] {
    }
  }

  lemma ExpectedKeys(units: map<int, Unit>)
    requires UniqueKeys(units)
    ensures KeySet(Expected(units)) == FailedKeys(units)
    ensures |Expected(units)| == |FailedKeys(units)|
  {
    ExpectedIsExact(units);
    var ks := SortedKeys(units);
    AscendingIsDistinct(ks);
    DistinctSize(ks);
    assert (set k | k in ks) == FailedKeys(units);
  }

  /** The child's keys are exactly those of the failed units, so a subset of the parent's. */
  lemma ChildKeys(units: map<int, Unit>, manifest: seq<Entry>)
    requires Distinct(Keys(manifest)) && Materializes(units, manifest)
    ensures UniqueKeys(units)
    ensures forall k :: k in KeySet(Expected(units)) <==>
      exists u ::
        && u in units && units[u].binding.unitKey == k
        && units[u].state.lifecycle == Closed && units[u].state.quality == InfraError
    ensures KeySet(Expected(units)) == FailedKeys(units) <= KeySet(manifest)
    ensures |Expected(units)| == |FailedKeys(units)| && |KeySet(manifest)| == |manifest|
  {
    MaterializedKeys(units, manifest);
    ExpectedKeys(units);
    DistinctSize(Keys(manifest));
  }

  /** Whatever holds of every binding of the parent's manifest holds of the child's. */
  lemma BindingsCarryOver(good: Binding -> bool, units: map<int, Unit>, manifest: seq<Entry>)
    requires Materializes(units, manifest)
    requires forall x :: 0 <= x < |manifest| ==> good(manifest[x].binding)
    ensures forall y :: 0 <= y < |Expected(units)| ==> good(Expected(units)[y].binding)
  {
    forall y | 0 <= y < |Expected(units)| ensures good(Expected(units)[y].binding) {
      var u :| u in Failed(units) && units[u].binding == Expected(units)[y].binding;
      assert manifest[units[u].ordinal - 1].binding == units[u].binding;
    }
  }

  /** A bounded, numbered, strictly ascending list of bindings that pass a check. */
  ghost predicate Passes(good: Binding -> bool, es: seq<Entry>) {
    && 1 <= |es| <= MAX_UNITS
    && (forall i :: 0 <= i < |es| ==> es[i].ordinal == i + 1)
    && (forall i :: 0 <= i < |es| ==> good(es[i].binding))
    && Json.Ascending(Keys(es))
  }

  /** What the manifest guard checks of one unit, apart from its place in the list. */
  ghost predicate GoodBinding(sha256: string -> string, plan: Plan, b: Binding) {
    WellFormed(b) && FromPlan(plan, b) && CanonicalDigests(sha256, b)
  }

  ghost function Check(sha256: string -> string, plan: Plan): Binding -> bool {
    b => GoodBinding(sha256, plan, b)
  }

  lemma AdmissibleMeans(sha256: string -> string, plan: Plan, es: seq<Entry>)
    ensures Admissible(sha256, plan, es) <==> Passes(Check(sha256, plan), es)
  {
    KeysAscend(es);
    if Admissible(sha256, plan, es) {
      forall i | 0 <= i < |es| ensures es[i].ordinal == i + 1 && GoodBinding(sha256, plan, es[i].binding) {
        assert InPlace(es[i], i + 1);
      }
    }
    if Passes(Check(sha256, plan), es) {
      forall i | 0 <= i < |es|
        ensures InPlace(es[i], i + 1) && FromPlan(plan, es[i].binding) && CanonicalDigests(sha256, es[i].binding)
      {
        assert Check(sha256, plan)(es[i].binding);
      }
    }
  }

  /** A non-empty forced list passes every check its parent passed. */
  lemma RerunPasses(good: Binding -> bool, units: map<int, Unit>, manifest: seq<Entry>)
    requires Passes(good, manifest) && Materializes(units, manifest) && |Expected(units)| > 0
    ensures Passes(good, Expected(units))
  {
    AscendingIsDistinct(Keys(manifest));
    ChildShrinks(units, manifest);
    MaterializedKeys(units, manifest);
    ExpectedIsExact(units);
    BindingsCarryOver(good, units, manifest);
  }

  /** In particular the ordinary manifest guard: shape, plan provenance and unit digests. */
  lemma RerunIsAdmissible(sha256: string -> string, plan: Plan, units: map<int, Unit>, manifest: seq<Entry>)
    requires Admissible(sha256, plan, manifest) && Materializes(units, manifest) && |Expected(units)| > 0
    ensures Admissible(sha256, plan, Expected(units))
  {
    AdmissibleMeans(sha256, plan, manifest);
    RerunPasses(Check(sha256, plan), units, manifest);
    AdmissibleMeans(sha256, plan, Expected(units));
  }

  /** So for every reachable sealed run with a failed unit the forced child list is valid. */
  lemma SealedRunCanBeRerun(sha256: string -> string, plan: Plan, w: World)
    requires Valid(w) && w.sealed && w.manifest.Some? && Admissible(sha256, plan, w.manifest.value)
    ensures (exists b :: IsLost(w.units, b)) ==> Admissible(sha256, plan, Expected(w.units))
    ensures !(exists b :: IsLost(w.units, b)) ==>
      forall parents: map<int, Parent>, c: Child, units {:trigger AcceptsChild(parents, c, units)} ::
        IsParentOf(parents, c) && parents[c.rerunOf.value].units == w.units && c.selectionMode.Some? ==>
          !AcceptsChild(parents, c, units)
  {
    assert Materializes(w.units, w.manifest.value) by { SealedIsExact(w); }
    SealedUnits(sha256, plan, w.units, w.manifest.value);
    if b :| IsLost(w.units, b) { assert b.unitKey in FailedKeys(w.units); }
    if |FailedKeys(w.units)| > 0 {
      var k := Member(FailedKeys(w.units));
      assert IsLost(w.units, BindingOf(w.units, k));
    }
  }

  lemma SealedUnits(sha256: string -> string, plan: Plan, units: map<int, Unit>, manifest: seq<Entry>)
    requires Admissible(sha256, plan, manifest) && Materializes(units, manifest)
    ensures |Expected(units)| == |FailedKeys(units)|
    ensures |FailedKeys(units)| > 0 ==> Admissible(sha256, plan, Expected(units))
  {
    assert Distinct(Keys(manifest)) by {
      AdmissibleMeans(sha256, plan, manifest);
      AscendingIsDistinct(Keys(manifest));
    }
    ChildKeys(units, manifest);
    if |FailedKeys(units)| > 0 { RerunIsAdmissible(sha256, plan, units, manifest); }
  }

  // ------------------------------------------------------------------------ chains

  /** Manifest and closed units of one run of a chain. */
  datatype Link = Link(manifest: seq<Entry>, units: map<int, Unit>)

  ghost predicate Follows(l: Link, m: Link) { |m.manifest| > 0 && m.manifest == Expected(l.units) }

  ghost predicate Chain(good: Binding -> bool, c: seq<Link>) {
    && (c != [] ==> Passes(good, c[0].manifest))
    && forall i :: 0 < i < |c| ==> FollowsAt(c, i)
  }

  ghost predicate FollowsAt(c: seq<Link>, i: nat)
    requires 0 < i < |c|
  {
    Materializes(c[i - 1].units, c[i - 1].manifest) && Follows(c[i - 1], c[i])
  }

  lemma LinkPasses(good: Binding -> bool, c: seq<Link>, i: nat)
    requires 0 < i < |c| && FollowsAt(c, i) && Passes(good, c[i - 1].manifest)
    ensures Passes(good, c[i].manifest)
  {
    RerunPasses(good, c[i - 1].units, c[i - 1].manifest);
  }

  /** Reruns compose: every run of a chain has a manifest that passes. */
  lemma {:induction false} ChainPasses(good: Binding -> bool, c: seq<Link>, i: nat)
    requires Chain(good, c) && i < |c|
    ensures Passes(good, c[i].manifest)
  {
    if i > 0 {
      ChainPasses(good, c, i - 1);
      ChainLinks(good, c, i);
      LinkPasses(good, c, i);
    }
  }

  predicate AllFailed(l: Link) { KeySet(l.manifest) <= FailedKeys(l.units) }

  /** What one rerun does to the list: a subset of the keys, with their bindings, strictly
      smaller unless every unit failed. */
  ghost predicate Shrinks(l: Link, m: Link) {
    && KeySet(m.manifest) <= KeySet(l.manifest)
    && (forall y :: 0 <= y < |m.manifest| ==> HasBinding(l.manifest, m.manifest[y].binding))
    && |m.manifest| <= |l.manifest|
    && (|m.manifest| == |l.manifest| <==> AllFailed(l))
  }

  lemma ChildSize(units: map<int, Unit>, manifest: seq<Entry>)
    requires KeySet(Expected(units)) == FailedKeys(units) <= KeySet(manifest)
    requires |Expected(units)| == |FailedKeys(units)| && |KeySet(manifest)| == |manifest|
    ensures |Expected(units)| <= |manifest|
    ensures |Expected(units)| == |manifest| <==> KeySet(manifest) <= FailedKeys(units)
  {
    var child, parent := FailedKeys(units), KeySet(manifest);
    SubsetSize(child, parent);
  }

  lemma ChildShrinks(units: map<int, Unit>, manifest: seq<Entry>)
    requires Distinct(Keys(manifest)) && Materializes(units, manifest)
    ensures KeySet(Expected(units)) <= KeySet(manifest) && |Expected(units)| <= |manifest|
    ensures |Expected(units)| == |manifest| <==> KeySet(manifest) <= FailedKeys(units)
  {
    ChildKeys(units, manifest);
    ChildSize(units, manifest);
  }

  lemma ChildBindings(units: map<int, Unit>, manifest: seq<Entry>)
    requires Materializes(units, manifest)
    ensures forall y :: 0 <= y < |Expected(units)| ==> HasBinding(manifest, Expected(units)[y].binding)
  {
    BindingsCarryOver(b => HasBinding(manifest, b), units, manifest);
  }

  ghost predicate Shrinking(c: seq<Link>) {
    forall i :: 0 < i < |c| ==> ShrinksAt(c, i)
  }

  ghost predicate ShrinksAt(c: seq<Link>, i: nat)
    requires 0 < i < |c|
  {
    Shrinks(c[i - 1], c[i])
  }

  lemma LinkShrinks(c: seq<Link>, i: nat)
    requires 0 < i < |c| && FollowsAt(c, i) && Distinct(Keys(c[i - 1].manifest))
    ensures ShrinksAt(c, i)
  {
    ChildShrinks(c[i - 1].units, c[i - 1].manifest);
    ChildBindings(c[i - 1].units, c[i - 1].manifest);
  }

  lemma ChainIsDistinct(good: Binding -> bool, c: seq<Link>, i: nat)
    requires Chain(good, c) && i < |c|
    ensures Distinct(Keys(c[i].manifest)) && 1 <= |c[i].manifest| <= MAX_UNITS
  {
    ChainPasses(good, c, i);
    AscendingIsDistinct(Keys(c[i].manifest));
  }

  lemma ChainLinks(good: Binding -> bool, c: seq<Link>, i: nat)
    requires Chain(good, c) && 0 < i < |c|
    ensures FollowsAt(c, i)
  {
  }

  lemma ChainShrinksAt(good: Binding -> bool, c: seq<Link>, i: nat)
    requires Chain(good, c) && 0 < i < |c|
    ensures ShrinksAt(c, i)
  {
    assert Distinct(Keys(c[i - 1].manifest)) by { ChainIsDistinct(good, c, i - 1); }
    assert FollowsAt(c, i) by { ChainLinks(good, c, i); }
    LinkShrinks(c, i);
  }

  lemma ChainShrinks(good: Binding -> bool, c: seq<Link>)
    requires Chain(good, c)
    ensures Shrinking(c)
  {
    forall i: nat | 0 < i < |c| ensures ShrinksAt(c, i) { ChainShrinksAt(good, c, i); }
  }

  lemma {:induction false} ShrinkingComposes(c: seq<Link>, i: nat, j: nat)
    requires Shrinking(c) && i <= j < |c|
    ensures KeySet(c[j].manifest) <= KeySet(c[i].manifest) && |c[j].manifest| <= |c[i].manifest|
    ensures forall y :: 0 <= y < |c[j].manifest| ==> HasBinding(c[i].manifest, c[j].manifest[y].binding)
    decreases j
  {
    if i < j {
      ShrinkingComposes(c, i, j - 1);
      assert ShrinksAt(c, j);
    }
  }

  /** Unit keys only shrink along a chain, and a key keeps its binding. */
  lemma KeysShrink(good: Binding -> bool, c: seq<Link>, i: nat, j: nat)
    requires Chain(good, c) && i <= j < |c|
    ensures KeySet(c[j].manifest) <= KeySet(c[i].manifest) && |c[j].manifest| <= |c[i].manifest|
    ensures forall y :: 0 <= y < |c[j].manifest| ==> HasBinding(c[i].manifest, c[j].manifest[y].binding)
  {
    ChainShrinks(good, c);
    ShrinkingComposes(c, i, j);
  }

  lemma {:induction false} StrictlyShorter(c: seq<Link>, k: nat)
    requires Shrinking(c) && k < |c| && NeverAllFailed(c, k)
    ensures k + |c[k].manifest| <= |c[0].manifest|
  {
    if k > 0 {
      StrictlyShorter(c, k - 1);
      assert ShrinksAt(c, k);
    }
  }

  predicate NeverAllFailed(c: seq<Link>, k: nat)
    requires k <= |c|
  {
    forall i :: 0 <= i < k ==> !AllFailed(c[i])
  }

  /** If in each run but the last some unit did not fail, the chain ends after at most 64
      runs. */
  lemma ChainIsShort(good: Binding -> bool, c: seq<Link>)
    requires Chain(good, c) && c != [] && NeverAllFailed(c, |c| - 1)
    ensures |c| <= MAX_UNITS
  {
    ChainIsDistinct(good, c, 0);
    ChainIsDistinct(good, c, |c| - 1);
    ChainShrinks(good, c);
    StrictlyShorter(c, |c| - 1);
  }

  // -------------------------------------------------------- chains of reachable runs

  /** A run by its inserted row and the steps it took until its rerun's manifest was stored,
      with the columns the rerun guard reads. */
  datatype Record = Record(inserted: State, steps: seq<Event>, child: Child)

  function WorldOf(r: Record): World { After(Fresh(r.inserted), r.steps) }

  function AsParent(r: Record): Parent {
    Parent(WorldOf(r).sealed, WorldOf(r).run.lifecycle, r.child.configuration, WorldOf(r).units)
  }

  /** The rerun guard accepted the manifest of `child` with `parent` as its parent. */
  ghost predicate RerunOf(parent: Record, child: Record) {
    && child.child.selectionMode.Some? && child.child.rerunOf.Some? && WorldOf(child).manifest.Some?
    && AcceptsChild(map[child.child.rerunOf.value := AsParent(parent)], child.child, WorldOf(child).manifest.value)
  }

  ghost predicate RerunAt(rs: seq<Record>, i: nat)
    requires 0 < i < |rs|
  {
    RerunOf(rs[i - 1], rs[i])
  }

  predicate Started(rs: seq<Record>, i: nat)
    requires i < |rs|
  {
    Initial(rs[i].inserted) && WorldOf(rs[i]).manifest.Some?
  }

  /** Runs inserted by the guards, the first with a manifest that passes, each the rerun of the
      one before. */
  ghost predicate Reruns(good: Binding -> bool, rs: seq<Record>) {
    && (forall i: nat {:trigger Started(rs, i)} :: i < |rs| ==> Started(rs, i))
    && (rs != [] && WorldOf(rs[0]).manifest.Some? ==> Passes(good, WorldOf(rs[0]).manifest.value))
    && forall i: nat {:trigger RerunAt(rs, i)} :: 0 < i < |rs| ==> RerunAt(rs, i)
  }

  function LinkOf(r: Record): Link {
    Link(if WorldOf(r).manifest.Some? then WorldOf(r).manifest.value else [], WorldOf(r).units)
  }

  function Links(rs: seq<Record>): (c: seq<Link>)
    ensures |c| == |rs| && forall i :: 0 <= i < |rs| ==> c[i] == LinkOf(rs[i])
  {
    seq(|rs|, i requires 0 <= i < |rs| => LinkOf(rs[i]))
  }

  /** A closed sealed run materialized its manifest, so a rerun link is a chain link. */
  lemma RerunFollows(parent: Record, child: Record)
    requires Initial(parent.inserted) && RerunOf(parent, child)
    ensures WorldOf(parent).manifest.Some? && Materializes(WorldOf(parent).units, WorldOf(parent).manifest.value)
    ensures WorldOf(child).manifest.value != [] && WorldOf(child).manifest.value == Expected(WorldOf(parent).units)
  {
    var w := WorldOf(parent);
    assert Valid(w) by { ReachableIsValid(parent.inserted, parent.steps); }
    assert w.sealed;
    SealedIsExact(w);
  }

  lemma RerunsFollow(rs: seq<Record>, i: nat)
    requires 0 < i < |rs| && Started(rs, i - 1) && RerunAt(rs, i)
    ensures FollowsAt(Links(rs), i)
  {
    RerunFollows(rs[i - 1], rs[i]);
  }

  lemma RerunsAreChains(good: Binding -> bool, rs: seq<Record>)
    requires Reruns(good, rs)
    ensures Chain(good, Links(rs))
  {
    assert rs != [] ==> Started(rs, 0);
    forall i: nat | 0 < i < |rs| ensures FollowsAt(Links(rs), i) {
      assert Started(rs, i - 1) && RerunAt(rs, i);
      RerunsFollow(rs, i);
    }
  }

  /** Reruns compose, for every chain of reachable runs: each manifest passes what the first one
      passed, keys only shrink, and a key keeps its binding. */
  lemma RerunsCompose(good: Binding -> bool, rs: seq<Record>, i: nat, j: nat)
    requires Reruns(good, rs) && i <= j < |rs|
    ensures var a, b := LinkOf(rs[i]).manifest, LinkOf(rs[j]).manifest;
      && Passes(good, b) && KeySet(b) <= KeySet(a) && |b| <= |a|
      && forall y :: 0 <= y < |b| ==> HasBinding(a, b[y].binding)
  {
    RerunsAreChains(good, rs);
    ChainPasses(good, Links(rs), j);
    KeysShrink(good, Links(rs), i, j);
  }

  /** In particular they all pass the ordinary manifest guard under the first one's plan. */
  lemma RerunsAreAdmissible(sha256: string -> string, plan: Plan, rs: seq<Record>, j: nat)
    requires Reruns(Check(sha256, plan), rs) && j < |rs|
    ensures Admissible(sha256, plan, LinkOf(rs[j]).manifest)
  {
    RerunsCompose(Check(sha256, plan), rs, j, j);
    AdmissibleMeans(sha256, plan, LinkOf(rs[j]).manifest);
  }
}
