/** One debug run: its lifecycle guard, contract binding, evidence and result. */
module DebugRun {
  import opened Sql
  import opened Sets

  datatype Lifecycle = Created | Binding | Ready | Running | Finalizing | Terminated
  datatype Outcome = NotSet | Passed | Failed | Blocked | Inconclusive | InfraError | Canceled
  datatype Completeness = Complete | Partial | Missing

  /** Compiled snapshot and other frozen columns. */
  datatype Frozen = Frozen(testIrDigest: string, planDigest: string, requestedAt: int, createdAt: int, deadline: int)

  datatype Run = Run(
    frozen: Frozen,
    lifecycle: Lifecycle, outcome: Outcome,
    contract: Option<(int, string)>,  // execution contract id and digest
    manifest: Option<(int, string)>,  // evidence manifest id and digest
    failure: Option<(string, string)>,
    startedAt: Option<int>, completedAt: Option<int>,
    cancel: Option<(int, int)>,       // requested when and by whom
    outdatedAt: Option<int>,
    revision: int)

  /** An execution contract with its actor slots and the window of its evidence. */
  datatype Contract = Contract(digest: string, actors: seq<string>, createdAt: int, deadline: int)

  datatype Manifest = Manifest(
    digest: string, contract: (int, string), testIrDigest: string, planDigest: string,
    outcome: Outcome, completeness: Completeness, verified: bool)

  // -------------------------------------------------------------- CHECKs and triggers

  predicate Shape(r: Run) {
    && r.revision > 0
    && (r.lifecycle == Terminated <==> r.outcome != NotSet) && (r.lifecycle == Terminated <==> r.completedAt.Some?)
    && (r.lifecycle == Created <==> r.startedAt.None?)
    && (r.manifest.Some? ==> r.lifecycle == Terminated)
    && (r.outcome == Passed ==> r.manifest.Some? && r.contract.Some? && r.failure.None?)
    && (r.failure.Some? ==> r.lifecycle in {Finalizing, Terminated})
    && (r.lifecycle == Created ==> r.contract.None?)
    && (r.lifecycle in {Binding, Ready, Running} ==> r.contract.Some?)
    && r.frozen.requestedAt < r.frozen.deadline && r.frozen.requestedAt <= r.frozen.createdAt
    && (r.startedAt.Some? ==> r.startedAt.value >= r.frozen.requestedAt)
    && (r.completedAt.Some? ==> r.startedAt.Some? && r.completedAt.value >= r.startedAt.value)
    && (r.cancel.Some? ==> r.cancel.value.0 >= r.frozen.requestedAt)
    && (r.outdatedAt.Some? ==> r.outdatedAt.value >= r.frozen.requestedAt)
  }

  predicate LifecycleStep(a: Lifecycle, b: Lifecycle) {
    match a
    case Created => b in {Created, Binding, Finalizing}
    case Binding => b in {Binding, Ready, Finalizing}
    case Ready => b in {Ready, Running, Finalizing}
    case Running => b in {Running, Finalizing}
    case Finalizing => b in {Finalizing, Terminated}
    case Terminated => b == Terminated
  }

  predicate Kept<T(==)>(a: Option<T>, b: Option<T>) { a.Some? ==> b == a }

  predicate LifecycleGuard(a: Run, b: Run) {
    && b.frozen == a.frozen && Kept(a.outdatedAt, b.outdatedAt)
    && Kept(a.cancel, b.cancel) && Kept(a.startedAt, b.startedAt)
    && LifecycleStep(a.lifecycle, b.lifecycle)
    && (a.lifecycle == Terminated ==>
          && b.outcome == a.outcome && b.manifest == a.manifest && b.failure == a.failure
          && b.startedAt == a.startedAt && b.completedAt == a.completedAt && b.cancel == a.cancel)
    && b.revision == a.revision + 1
  }

  /** Tables the runtime guard reads. */
  datatype Facts = Facts(
    contracts: map<int, Contract>,
    bound: set<(int, string)>,  // contract, actor slot
    manifests: map<int, Manifest>)

  function Bound(f: Facts, contract: int): set<string> {
    set b | b in f.bound && b.0 == contract :: b.1
  }

  predicate Exact(f: Facts, r: Run) {
    && r.manifest.Some? && r.contract.Some? && r.manifest.value.0 in f.manifests
    && var m := f.manifests[r.manifest.value.0];
    && m.digest == r.manifest.value.1 && m.contract == r.contract.value
    && m.testIrDigest == r.frozen.testIrDigest && m.planDigest == r.frozen.planDigest && m.outcome == r.outcome
  }

  /** The binding check made between CREATED and BINDING counts the bound actors. */
  predicate BindsExactly(f: Facts, r: Run) {
    && r.contract.Some? && r.contract.value.0 in f.contracts
    && f.contracts[r.contract.value.0].digest == r.contract.value.1
    && |Bound(f, r.contract.value.0)| == |f.contracts[r.contract.value.0].actors|
  }

  predicate RuntimeGuard(f: Facts, a: Run, b: Run) {
    && Kept(a.contract, b.contract) && (a.lifecycle != Created ==> b.contract == a.contract)
    && Kept(a.manifest, b.manifest)
    && (a.lifecycle == Created && b.lifecycle == Binding ==> BindsExactly(f, b))
    && (b.manifest.Some? ==> Exact(f, b))
    && (b.outcome == Passed ==>
          && Exact(f, b)
          && f.manifests[b.manifest.value.0].completeness == Complete && f.manifests[b.manifest.value.0].verified)
  }

  predicate Accepted(f: Facts, a: Run, b: Run) { LifecycleGuard(a, b) && RuntimeGuard(f, a, b) && Shape(b) }

  predicate Distinct(s: seq<string>) { forall i, j :: 0 <= i < j < |s| ==> s[i] != s[j] }

  // ----------------------------------------------------------------------- transactions

  /** `past` is every state of the run so far; `storedAt` how long it was at each manifest. */
  datatype World = World(run: Run, facts: Facts, past: seq<Run>, storedAt: map<int, int>)

  /** A row just inserted, in any lifecycle the CHECKs allow.  It is bound to no contract and
      no manifest: both are inserted after the run they name. */
  predicate Insertable(r: Run) { Shape(r) && r.contract.None? && r.manifest.None? }

  /** Which rows that is, exactly: CREATED, or already FINALIZING or TERMINATED with any outcome
      but PASSED. */
  lemma InsertableMeans(r: Run)
    ensures Insertable(r) <==>
      && r.contract.None? && r.manifest.None? && r.revision >= 1
      && r.outcome != Passed && (r.outcome == NotSet <==> r.completedAt.None?)
      && (if r.lifecycle == Created then r.outcome == NotSet && r.startedAt.None? && r.failure.None?
          else if r.lifecycle == Finalizing then r.outcome == NotSet && r.startedAt.Some?
          else r.lifecycle == Terminated && r.outcome != NotSet && r.startedAt.Some?)
      && r.frozen.requestedAt < r.frozen.deadline && r.frozen.requestedAt <= r.frozen.createdAt
      && (r.startedAt.Some? ==> r.frozen.requestedAt <= r.startedAt.value)
      && (r.completedAt.Some? ==> r.startedAt.value <= r.completedAt.value)
      && (r.cancel.Some? ==> r.frozen.requestedAt <= r.cancel.value.0)
      && (r.outdatedAt.Some? ==> r.frozen.requestedAt <= r.outdatedAt.value)
  {
  }

  predicate Start(w: World) {
    && Insertable(w.run) && w.past == [w.run]
    && w.facts == Facts(map[], {}, map[]) && w.storedAt == map[]
  }

  /** `current` and `admissible` stand for checks against other tables. */
  datatype Event =
    | StoreContract(id: int, contract: Contract, current: bool)
    | BindActor(contractId: int, slot: string, current: bool)
    | StoreManifest(id: int, manifest: Manifest, admissible: bool)
    | Update(next: Run)

  predicate Admitted(w: World, e: Event) {
    match e
    case StoreContract(id, c, current) =>
      && current && w.run.lifecycle == Created && w.run.outdatedAt.None? && w.run.cancel.None?
      && w.facts.contracts == map[] && 1 <= |c.actors| <= 8 && Distinct(c.actors)
      && c.createdAt < c.deadline == w.run.frozen.deadline
    case BindActor(c, slot, current) =>
      current && c in w.facts.contracts && slot in w.facts.contracts[c].actors && (c, slot) !in w.facts.bound
    case StoreManifest(id, m, admissible) =>
      && admissible && w.run.lifecycle == Running && w.facts.manifests == map[]
      && w.run.contract == Some(m.contract) && m.contract.0 in w.facts.contracts
      && m.testIrDigest == w.run.frozen.testIrDigest && m.planDigest == w.run.frozen.planDigest
      && m.outcome in {Passed, Failed, Inconclusive}
      && (m.outcome == Passed ==> m.completeness == Complete && m.verified)
    case Update(next) => Accepted(w.facts, w.run, next)
  }

  function Next(w: World, e: Event): World {
    if !Admitted(w, e) then w
    else match e
      case StoreContract(id, c, _) => w.(facts := w.facts.(contracts := w.facts.contracts[id := c]))
      case BindActor(c, slot, _) => w.(facts := w.facts.(bound := w.facts.bound + {(c, slot)}))
      case StoreManifest(id, m, _) =>
        w.(facts := w.facts.(manifests := w.facts.manifests[id := m]), storedAt := w.storedAt[id := |w.past| - 1])
      case Update(next) => w.(run := next, past := w.past + [next])
  }

  function After(w: World, es: seq<Event>): World
    decreases |es|
  {
    if es == [] then w else Next(After(w, es[..|es| - 1]), es[|es| - 1])
  }

  // ------------------------------------------------------------------------- invariants

  predicate StepAt(past: seq<Run>, i: nat)
    requires 0 < i < |past|
  {
    && LifecycleGuard(past[i - 1], past[i])
    && Kept(past[i - 1].contract, past[i].contract) && Kept(past[i - 1].manifest, past[i].manifest)
    && (past[i - 1].lifecycle != Created ==> past[i].contract == past[i - 1].contract)
  }

  predicate PastFits(run: Run, past: seq<Run>) {
    && past != [] && past[|past| - 1] == run
    && past[0].lifecycle in {Created, Finalizing, Terminated}
    && (forall i {:trigger past[i]} :: 0 <= i < |past| ==> Shape(past[i]))
    && forall i: nat {:trigger StepAt(past, i)} :: 0 < i < |past| ==> StepAt(past, i)
  }

  function SlotSet(c: Contract): set<string> { set s | s in c.actors }

  predicate FactsFit(f: Facts) {
    && (forall c :: c in f.contracts ==> Distinct(f.contracts[c].actors))
    && (forall b :: b in f.bound ==> b.0 in f.contracts && b.1 in f.contracts[b.0].actors)
  }

  /** The contract of a run that went through BINDING is stored, and all its actors are bound. */
  predicate FullyBound(f: Facts, contract: (int, string)) {
    && contract.0 in f.contracts && f.contracts[contract.0].digest == contract.1
    && Bound(f, contract.0) == SlotSet(f.contracts[contract.0])
  }

  predicate ContractFits(w: World) {
    w.run.lifecycle in {Binding, Ready, Running} ==> w.run.contract.Some? && FullyBound(w.facts, w.run.contract.value)
  }

  predicate StoredFits(w: World) {
    && w.storedAt.Keys == w.facts.manifests.Keys
    && forall m :: m in w.facts.manifests ==>
         && 0 <= w.storedAt[m] < |w.past| && w.past[w.storedAt[m]].lifecycle == Running
         && w.past[w.storedAt[m]].contract == Some(w.facts.manifests[m].contract)
         && FullyBound(w.facts, w.facts.manifests[m].contract)
  }

  predicate ResultFits(w: World) {
    && (w.run.manifest.Some? ==> Exact(w.facts, w.run))
    && (w.run.outcome == Passed ==>
          && Exact(w.facts, w.run)
          && w.facts.manifests[w.run.manifest.value.0].completeness == Complete
          && w.facts.manifests[w.run.manifest.value.0].verified)
  }

  predicate Valid(w: World) {
    PastFits(w.run, w.past) && FactsFit(w.facts) && ContractFits(w) && StoredFits(w) && ResultFits(w)
  }

  lemma {:induction false} SlotSetSize(actors: seq<string>)
    requires Distinct(actors)
    ensures |set s | s in actors| == |actors|
  {
    if actors != [] {
      var init, last := actors[..|actors| - 1], actors[|actors| - 1];
      assert actors == init + [last];
      assert forall i :: 0 <= i < |init| ==> init[i] == actors[i];
      SlotSetSize(init);
      assert (set s | s in actors) == (set s | s in init) + {last};
    }
  }

  /** Counting suffices: the right number of bound actors means all of them. */
  lemma CountBindsAll(f: Facts, r: Run)
    requires FactsFit(f) && BindsExactly(f, r)
    ensures FullyBound(f, r.contract.value)
  {
    var c := r.contract.value.0;
    SlotSetSize(f.contracts[c].actors);
    assert Bound(f, c) <= SlotSet(f.contracts[c]);
    SubsetSize(Bound(f, c), SlotSet(f.contracts[c]));
  }

  /** Stored facts are never changed or removed. */
  predicate Grows(a: Facts, b: Facts) {
    && (forall c :: c in a.contracts ==> c in b.contracts && b.contracts[c] == a.contracts[c])
    && a.bound <= b.bound
    && (forall m :: m in a.manifests ==> m in b.manifests && b.manifests[m] == a.manifests[m])
  }

  lemma NextGrows(w: World, e: Event)
    ensures Grows(w.facts, Next(w, e).facts)
  {
  }

  lemma GrowsKeepsBound(a: Facts, b: Facts, contract: (int, string))
    requires Grows(a, b) && FactsFit(b) && FullyBound(a, contract)
    ensures FullyBound(b, contract)
  {
    assert Bound(a, contract.0) <= Bound(b, contract.0) <= SlotSet(b.contracts[contract.0]);
  }

  lemma NextKeepsPast(w: World, e: Event)
    requires PastFits(w.run, w.past)
    ensures PastFits(Next(w, e).run, Next(w, e).past)
  {
    var n := Next(w, e);
    if e.Update? && Admitted(w, e) {
      forall i: nat | 0 < i < |n.past| ensures StepAt(n.past, i) {
        if i < |w.past| { assert StepAt(w.past, i); }
      }
    }
  }

  lemma NextKeepsFacts(w: World, e: Event)
    requires FactsFit(w.facts)
    ensures FactsFit(Next(w, e).facts)
  {
  }

  lemma NextKeepsContract(w: World, e: Event)
    requires Shape(w.run) && FactsFit(w.facts) && ContractFits(w)
    ensures ContractFits(Next(w, e))
  {
    NextGrows(w, e);
    NextKeepsFacts(w, e);
    var n := Next(w, e);
    if n.run.lifecycle in {Binding, Ready, Running} {
      if w.run.lifecycle == Created {
        CountBindsAll(w.facts, n.run);
      } else {
        GrowsKeepsBound(w.facts, n.facts, w.run.contract.value);
      }
    }
  }

  lemma NextKeepsStored(w: World, e: Event)
    requires PastFits(w.run, w.past) && FactsFit(w.facts) && ContractFits(w) && StoredFits(w)
    ensures StoredFits(Next(w, e))
  {
    NextGrows(w, e);
    NextKeepsFacts(w, e);
    var n := Next(w, e);
    forall m | m in n.facts.manifests
      ensures m in n.storedAt && 0 <= n.storedAt[m] < |n.past| && n.past[n.storedAt[m]].lifecycle == Running
      ensures n.past[n.storedAt[m]].contract == Some(n.facts.manifests[m].contract)
      ensures FullyBound(n.facts, n.facts.manifests[m].contract)
    {
      GrowsKeepsBound(w.facts, n.facts, n.facts.manifests[m].contract);
    }
  }

  lemma NextKeepsResult(w: World, e: Event)
    requires ResultFits(w)
    ensures ResultFits(Next(w, e))
  {
    NextGrows(w, e);
  }

  lemma {:induction false} RunsKeepValid(w: World, es: seq<Event>)
    requires Valid(w)
    ensures Valid(After(w, es))
    decreases |es|
  {
    if es != [] {
      var v, e := After(w, es[..|es| - 1]), es[|es| - 1];
      RunsKeepValid(w, es[..|es| - 1]);
      NextKeepsValid(v, e);
    }
  }

  lemma NextKeepsValid(w: World, e: Event)
    requires Valid(w)
    ensures Valid(Next(w, e))
  {
    NextKeepsPast(w, e);
    NextKeepsFacts(w, e);
    NextKeepsContract(w, e);
    NextKeepsStored(w, e);
    NextKeepsResult(w, e);
  }

  // ------------------------------------------------------- what stays and what may follow

  /** Over any number of updates: what was requested is frozen, what is once set stays, every
      update counts, and of a terminated run only the mark that it is outdated can change. */
  lemma {:induction false} HistoryKeeps(run: Run, past: seq<Run>, i: nat, j: nat)
    requires PastFits(run, past) && i <= j < |past|
    ensures var a, b := past[i], past[j];
      && b.frozen == a.frozen && b.revision == a.revision + (j - i)
      && (a.startedAt.Some? ==> b.startedAt == a.startedAt) && (a.cancel.Some? ==> b.cancel == a.cancel)
      && (a.outdatedAt.Some? ==> b.outdatedAt == a.outdatedAt)
      && (a.contract.Some? ==> b.contract == a.contract) && (a.manifest.Some? ==> b.manifest == a.manifest)
      && (a.lifecycle == Terminated ==> b == a.(outdatedAt := b.outdatedAt, revision := b.revision))
    decreases j
  {
    if i < j {
      HistoryKeeps(run, past, i, j - 1);
      assert StepAt(past, j);
    }
  }

  /** In every state of a run: an outcome exactly at the end, started exactly when no longer
      CREATED, evidence only at the end and for PASSED always, times in order. */
  lemma StatesAreConsistent(start: World, es: seq<Event>, j: nat)
    requires Start(start) && j < |After(start, es).past|
    ensures var r := After(start, es).past[j];
      && (r.lifecycle == Terminated <==> r.outcome != NotSet) && (r.outcome != NotSet <==> r.completedAt.Some?)
      && (r.lifecycle != Created <==> r.startedAt.Some?)
      && (r.manifest.Some? ==> r.outcome != NotSet)
      && (r.outcome == Passed ==> r.manifest.Some? && r.contract.Some? && r.failure.None?)
      && (r.failure.Some? ==> r.lifecycle == Finalizing || r.lifecycle == Terminated)
      && (r.contract.None? ==> r.lifecycle == Created || r.lifecycle == Finalizing || r.lifecycle == Terminated)
      && (r.contract.Some? ==> r.lifecycle != Created)
      && (r.completedAt.Some? ==> r.frozen.requestedAt <= r.startedAt.value <= r.completedAt.value)
      && (r.startedAt.Some? ==> r.frozen.requestedAt <= r.startedAt.value)
      && (r.cancel.Some? ==> r.frozen.requestedAt <= r.cancel.value.0)
      && (r.outdatedAt.Some? ==> r.frozen.requestedAt <= r.outdatedAt.value)
      && r.frozen.requestedAt < r.frozen.deadline && r.frozen.requestedAt <= r.frozen.createdAt
  {
    StartIsValid(start);
    RunsKeepValid(start, es);
    assert Shape(After(start, es).past[j]);
  }

  /** Every slot of contract c has an actor. */
  predicate AllSlotsBound(f: Facts, c: int) {
    c in f.contracts && forall slot :: slot in f.contracts[c].actors ==> (c, slot) in f.bound
  }

  /** Which lifecycle may come next, in every reachable world: exactly these, and BINDING from
      CREATED exactly if all slots of some stored contract are bound. */
  ghost predicate MayFollow(f: Facts, a: Lifecycle, b: Lifecycle) {
    || b == a
    || (a == Created && b == Binding && exists c :: AllSlotsBound(f, c))
    || (a == Binding && b == Ready) || (a == Ready && b == Running)
    || (b == Finalizing && a != Terminated) || (a == Finalizing && b == Terminated)
  }

  /** And a failure may be recorded or withdrawn while FINALIZING or terminating, then no more. */
  ghost predicate MayRead(f: Facts, a: Run, l: Lifecycle, failure: Option<(string, string)>) {
    && MayFollow(f, a.lifecycle, l)
    && (failure.Some? ==> l == Finalizing || l == Terminated) && (a.lifecycle == Terminated ==> failure == a.failure)
  }

  lemma NextLifecycles(start: World, es: seq<Event>, l: Lifecycle, failure: Option<(string, string)>)
    requires Start(start)
    ensures var w := After(start, es);
      (exists n :: Accepted(w.facts, w.run, n) && n.lifecycle == l && n.failure == failure) <==>
        MayRead(w.facts, w.run, l, failure)
  {
    var w := After(start, es);
    StartIsValid(start);
    RunsKeepValid(start, es);
    assert Shape(w.run);
    if n :| Accepted(w.facts, w.run, n) && n.lifecycle == l && n.failure == failure { OnlyThese(w.facts, w.run, n); }
    if MayRead(w.facts, w.run, l, failure) { var n := Follower(w.facts, w.run, l, failure); }
  }

  lemma OnlyThese(f: Facts, a: Run, b: Run)
    requires FactsFit(f) && Accepted(f, a, b)
    ensures MayRead(f, a, b.lifecycle, b.failure)
  {
    if a.lifecycle == Created && b.lifecycle == Binding {
      CountBindsAll(f, b);
      var c := b.contract.value.0;
      assert AllSlotsBound(f, c) by {
        forall slot | slot in f.contracts[c].actors ensures (c, slot) in f.bound { assert slot in Bound(f, c); }
      }
    }
  }

  lemma Follower(f: Facts, a: Run, l: Lifecycle, failure: Option<(string, string)>) returns (b: Run)
    requires FactsFit(f) && Shape(a) && MayRead(f, a, l, failure)
    requires a.manifest.Some? ==> Exact(f, a)
    requires a.outcome == Passed ==>
      f.manifests[a.manifest.value.0].completeness == Complete && f.manifests[a.manifest.value.0].verified
    ensures Accepted(f, a, b) && b.lifecycle == l && b.failure == failure
  {
    b := a.(lifecycle := l, failure := failure, revision := a.revision + 1);
    if a.lifecycle == Created && l != Created {
      b := b.(startedAt := Some(a.frozen.requestedAt));
      if l == Binding {
        var c :| AllSlotsBound(f, c);
        b := b.(contract := Some((c, f.contracts[c].digest)));
        SlotSetSize(f.contracts[c].actors);
        assert Bound(f, c) == SlotSet(f.contracts[c]);
      }
    } else if l == Terminated && a.lifecycle == Finalizing {
      b := b.(outcome := Failed, completedAt := a.startedAt);
    }
  }

  // ----------------------------------------------------------------- how a run passes

  /** The states up to n: CREATED before b, then BINDING, from r on READY, from k on RUNNING. */
  predicate Phases(past: seq<Run>, b: nat, r: nat, k: nat, n: nat) {
    && 0 < b < r < k <= n < |past|
    && (forall i :: 0 <= i < b ==> past[i].lifecycle == Created)
    && (forall i :: b <= i < r ==> past[i].lifecycle == Binding)
    && (forall i :: r <= i < k ==> past[i].lifecycle == Ready)
    && (forall i :: k <= i <= n ==> past[i].lifecycle == Running)
  }

  lemma {:induction false} BeforeBinding(run: Run, past: seq<Run>, n: nat) returns (b: nat)
    requires PastFits(run, past) && n < |past| && past[n].lifecycle in {Created, Binding}
    ensures b <= n + 1 && forall i :: 0 <= i < b ==> past[i].lifecycle == Created
    ensures forall i :: b <= i <= n ==> past[i].lifecycle == Binding
    ensures past[n].lifecycle == Binding ==> 0 < b <= n
  {
    if n == 0 {
      b := 1;
    } else {
      assert StepAt(past, n);
      b := BeforeBinding(run, past, n - 1);
      if past[n].lifecycle == Created { b := n + 1; }
    }
  }

  lemma {:induction false} BeforeReady(run: Run, past: seq<Run>, n: nat) returns (b: nat, r: nat)
    requires PastFits(run, past) && n < |past| && past[n].lifecycle == Ready
    ensures 0 < b < r <= n
    ensures forall i :: 0 <= i < b ==> past[i].lifecycle == Created
    ensures forall i :: b <= i < r ==> past[i].lifecycle == Binding
    ensures forall i :: r <= i <= n ==> past[i].lifecycle == Ready
  {
    assert n > 0 && StepAt(past, n);
    if past[n - 1].lifecycle == Ready {
      b, r := BeforeReady(run, past, n - 1);
    } else {
      b := BeforeBinding(run, past, n - 1);
      r := n;
    }
  }

  /** A state RUNNING was reached through CREATED, BINDING and READY, in this order. */
  lemma {:induction false} BeforeRunning(run: Run, past: seq<Run>, n: nat) returns (b: nat, r: nat, k: nat)
    requires PastFits(run, past) && n < |past| && past[n].lifecycle == Running
    ensures Phases(past, b, r, k, n)
  {
    assert n > 0 && StepAt(past, n);
    if past[n - 1].lifecycle == Running {
      b, r, k := BeforeRunning(run, past, n - 1);
    } else {
      b, r := BeforeReady(run, past, n - 1);
      k := n;
    }
  }

  lemma {:induction false} ContractStays(run: Run, past: seq<Run>, i: nat, j: nat)
    requires PastFits(run, past) && i <= j < |past| && past[i].lifecycle != Created
    ensures past[j].lifecycle != Created && past[j].contract == past[i].contract
    decreases j
  {
    if i < j {
      ContractStays(run, past, i, j - 1);
      assert StepAt(past, j);
    }
  }

  /** Before a run was BINDING there was a moment when it was still CREATED and every actor
      of the contract it then took was already bound. */
  lemma {:induction false} BoundWhileCreated(start: World, es: seq<Event>) returns (p: nat)
    requires Start(start) && After(start, es).run.lifecycle in {Binding, Ready, Running}
    ensures p <= |es| && After(start, es[..p]).run.lifecycle == Created
    ensures After(start, es).run.contract.Some?
    ensures FullyBound(After(start, es[..p]).facts, After(start, es).run.contract.value)
    decreases |es|
  {
    var init := es[..|es| - 1];
    var v, e := After(start, init), es[|es| - 1];
    StartIsValid(start);
    RunsKeepValid(start, init);
    RunsKeepValid(start, es);
    if v.run.lifecycle == Created {
      p := |es| - 1;
      CountBindsAll(v.facts, Next(v, e).run);
    } else {
      p := BoundWhileCreated(start, init);
      assert es[..p] == init[..p];
    }
  }

  /** A stored manifest was stored while its run was RUNNING under its contract. */
  lemma {:induction false} StoredWhileRunning(start: World, es: seq<Event>, m: int) returns (q: nat)
    requires Start(start) && m in After(start, es).facts.manifests
    ensures q <= |es| && After(start, es[..q]).run.lifecycle == Running
    ensures After(start, es[..q]).run.contract == Some(After(start, es).facts.manifests[m].contract)
    decreases |es|
  {
    var init := es[..|es| - 1];
    if m in After(start, init).facts.manifests {
      q := StoredWhileRunning(start, init, m);
      NextGrows(After(start, init), es[|es| - 1]);
      assert es[..q] == init[..q];
    } else {
      q := |es| - 1;
    }
  }

  lemma {:induction false} PastStarts(start: World, es: seq<Event>)
    requires start.past != []
    ensures After(start, es).past != [] && After(start, es).past[0] == start.past[0]
    decreases |es|
  {
    if es != [] { PastStarts(start, es[..|es| - 1]); }
  }

  /** A PASSED run: it was inserted as CREATED; its evidence is stored, complete and verified, was stored while it was
      RUNNING, after CREATED, BINDING and READY in this order; it has had one contract since
      it left CREATED; and after the first p events, when it was still CREATED, every actor
      of this contract was already bound. */
  lemma PassedRunWasBound(start: World, es: seq<Event>) returns (b: nat, r: nat, k: nat, n: nat, p: nat)
    requires Start(start) && After(start, es).run.outcome == Passed
    ensures start.run.lifecycle == Created
    ensures var w := After(start, es);
      && Phases(w.past, b, r, k, n)
      && w.run.manifest.Some? && w.run.contract.Some? && w.run.manifest.value.0 in w.facts.manifests
      && w.run.manifest.value.0 in w.storedAt && n == w.storedAt[w.run.manifest.value.0]
      && var m := w.facts.manifests[w.run.manifest.value.0];
      && m.outcome == Passed && m.completeness == Complete && m.verified
      && m.digest == w.run.manifest.value.1 && m.contract == w.run.contract.value
      && m.testIrDigest == w.run.frozen.testIrDigest && m.planDigest == w.run.frozen.planDigest
      && (forall i :: 0 <= i < b ==> w.past[i].contract.None?)
      && (forall i :: b <= i < |w.past| ==> w.past[i].contract == w.run.contract)
      && p <= |es| && After(start, es[..p]).run.lifecycle == Created
      && FullyBound(After(start, es[..p]).facts, w.run.contract.value)
      && FullyBound(w.facts, w.run.contract.value) && AllSlotsBound(w.facts, w.run.contract.value.0)
  {
    var w := After(start, es);
    StartIsValid(start);
    RunsKeepValid(start, es);
    PastStarts(start, es);
    var m := w.run.manifest.value.0;
    assert m in w.facts.manifests && m in w.storedAt;
    n := w.storedAt[m];
    b, r, k := BeforeRunning(w.run, w.past, n);
    forall i | b <= i < |w.past| ensures w.past[i].contract == w.run.contract {
      ContractStays(w.run, w.past, b, i);
      ContractStays(w.run, w.past, b, |w.past| - 1);
    }
    var q := StoredWhileRunning(start, es, m);
    p := BoundWhileCreated(start, es[..q]);
    assert es[..q][..p] == es[..p];
    var c := w.run.contract.value.0;
    forall slot | slot in w.facts.contracts[c].actors ensures (c, slot) in w.facts.bound {
      assert slot in Bound(w.facts, c);
    }
  }

  lemma StartIsValid(w: World)
    requires Start(w)
    ensures Valid(w)
  {
  }

  lemma NextKeepsTerminated(w: World, e: Event)
    requires w.run.lifecycle == Terminated
    ensures var n := Next(w, e).run;
      && n.lifecycle == Terminated && n.outcome == w.run.outcome && n.manifest == w.run.manifest
      && n.contract == w.run.contract && n.failure == w.run.failure
  {
  }

  /** A terminated run keeps its contract, evidence and outcome for ever. */
  lemma {:induction false} ResultIsFinal(w: World, es: seq<Event>)
    requires w.run.lifecycle == Terminated
    ensures var n := After(w, es).run;
      && n.lifecycle == Terminated && n.outcome == w.run.outcome && n.manifest == w.run.manifest
      && n.contract == w.run.contract && n.failure == w.run.failure
    decreases |es|
  {
    if es != [] {
      ResultIsFinal(w, es[..|es| - 1]);
      NextKeepsTerminated(After(w, es[..|es| - 1]), es[|es| - 1]);
    }
  }

  // --------------------------------------------------------------------------- the rows

  class DebugRunRow {
    var run: Run
    var contracts: map<int, Contract>
    var bound: set<(int, string)>
    var manifests: map<int, Manifest>
    ghost const start: World
    ghost var events: seq<Event>

    function Stored(): Facts
      reads this
    {
      Facts(contracts, bound, manifests)
    }

    ghost predicate Invariant()
      reads this
    {
      Start(start) && run == After(start, events).run && Stored() == After(start, events).facts
    }

    constructor (r: Run)
      requires Insertable(r)
      ensures Invariant() && run == r && events == []
    {
      run, contracts, bound, manifests := r, map[], {}, map[];
      start, events := World(r, Facts(map[], {}, map[]), [r], map[]), [];
    }

    ghost method Record(e: Event)
      requires Start(start)
      requires run == Next(After(start, events), e).run && Stored() == Next(After(start, events), e).facts
      modifies this`events
      ensures Invariant() && events == old(events) + [e]
    {
      events := events + [e];
      assert events[..|events| - 1] == old(events);
    }

    method InsertContract(id: int, c: Contract, current: bool) returns (ok: bool)
      requires Invariant()
      modifies this
      ensures Invariant() && events == old(events) + [StoreContract(id, c, current)]
      ensures ok == Admitted(After(start, old(events)), StoreContract(id, c, current))
    {
      ok := current && run.lifecycle == Created && run.outdatedAt.None? && run.cancel.None?
        && contracts == map[] && 1 <= |c.actors| <= 8 && Distinct(c.actors)
        && c.createdAt < c.deadline == run.frozen.deadline;
      if ok { contracts := contracts[id := c]; }
      Record(StoreContract(id, c, current));
    }

    method InsertBinding(c: int, slot: string, current: bool) returns (ok: bool)
      requires Invariant()
      modifies this
      ensures Invariant() && events == old(events) + [BindActor(c, slot, current)]
      ensures ok == Admitted(After(start, old(events)), BindActor(c, slot, current))
    {
      ok := current && c in contracts && slot in contracts[c].actors && (c, slot) !in bound;
      if ok { bound := bound + {(c, slot)}; }
      Record(BindActor(c, slot, current));
    }

    method InsertManifest(id: int, m: Manifest, admissible: bool) returns (ok: bool)
      requires Invariant()
      modifies this
      ensures Invariant() && events == old(events) + [StoreManifest(id, m, admissible)]
      ensures ok == Admitted(After(start, old(events)), StoreManifest(id, m, admissible))
    {
      ok := admissible && run.lifecycle == Running && manifests == map[]
        && run.contract == Some(m.contract) && m.contract.0 in contracts
        && m.testIrDigest == run.frozen.testIrDigest && m.planDigest == run.frozen.planDigest
        && m.outcome in {Passed, Failed, Inconclusive}
        && (m.outcome == Passed ==> m.completeness == Complete && m.verified);
      if ok { manifests := manifests[id := m]; }
      Record(StoreManifest(id, m, admissible));
    }

    method Change(next: Run) returns (ok: bool)
      requires Invariant()
      modifies this
      ensures Invariant() && events == old(events) + [Update(next)]
      ensures ok == Accepted(old(Stored()), old(run), next)
      ensures run == if ok then next else old(run)
    {
      ok := Accepted(Stored(), run, next);
      if ok { run := next; }
      Record(Update(next));
    }
  }
}
