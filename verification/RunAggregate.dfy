/** A task run with its manifest, units, attempts, tickets and start intent.

    Inserting a unit is two steps: its guard reads the run without locking it, and the row
    becomes visible later, possibly after the run was sealed in between. */
module RunAggregate {
  import opened Sql
  import opened Manifests
  import opened TaskStates
  import opened Sets

  datatype Unit = Unit(ordinal: int, binding: Binding, state: State)
  datatype Attempt = Attempt(unit: int, number: int, state: State)
  datatype Start = Start(createdAt: int)

  datatype World = World(
    run: State,
    sealed: bool,
    unitCount: Option<int>,
    firstAttemptCount: Option<int>,
    manifest: Option<seq<Entry>>,
    guarded: map<int, Unit>,  // units past their insert guard and not yet visible, by transaction
    units: map<int, Unit>,
    attempts: map<int, Attempt>,
    tickets: set<int>,        // attempts that have an execution ticket
    starts: seq<Start>)

  function Fresh(run: State): World {
    World(run, false, None, None, None, map[], map[], map[], {}, [])
  }

  datatype Event =
    | InsertManifest(units: seq<Entry>, canonical: bool)
    | GuardUnit(tx: int, unit: Unit)
    | WriteUnit(tx: int, id: int)
    | InsertAttempt(id: int, attempt: Attempt)
    | Seal(expected: int, admissible: bool, now: int)
    | MoveRun(target: State)
    | MoveUnit(id: int, target: State)
    | MoveAttempt(id: int, target: State)
    | IssueTicket(id: int, admissible: bool)

  // --------------------------------------------------------------------- guards

  /** The unit is bound like the manifest entry its ordinal names. */
  predicate Bound(manifest: Option<seq<Entry>>, u: Unit) {
    && manifest.Some? && Lookup(manifest.value, u.ordinal - 1).Some?
    && Lookup(manifest.value, u.ordinal - 1).value.binding == u.binding
  }

  predicate Retryable(s: State) {
    s.lifecycle == Closed && s.quality in {Failed, Blocked, Inconclusive, InfraError, Quality.Canceled}
  }

  /** Attempt `number` of the unit is stored, closed, and may be followed by another. */
  predicate HasRetryable(attempts: map<int, Attempt>, unit: int, number: int) {
    exists p ::
      p in attempts && attempts[p].unit == unit && attempts[p].number == number && Retryable(attempts[p].state)
  }

  predicate HasInfraError(attempts: map<int, Attempt>, unit: int, number: int) {
    exists p :: p in attempts && attempts[p].unit == unit && attempts[p].number == number
      && attempts[p].state.lifecycle == Closed && attempts[p].state.quality == InfraError
  }

  /** `number` is coalesce(max(attempt_number), 0) + 1. */
  predicate IsNext(attempts: map<int, Attempt>, unit: int, number: int) {
    && (forall a :: a in attempts && attempts[a].unit == unit ==> attempts[a].number < number)
    && (number == 1 || exists a :: a in attempts && attempts[a].unit == unit && attempts[a].number == number - 1)
  }

  predicate Dispatchable(s: State) { s.lifecycle in {Queued, Lifecycle.Running} }

  function FirstAttempts(w: World): set<int> {
    set a | a in w.attempts && w.attempts[a].number == 1
  }

  /** What the seal checks; `admissible` stands for its digest and dependency queries. */
  predicate Sealable(w: World, expected: int, admissible: bool, now: int) {
    && w.run.revision == expected && !w.sealed && w.manifest.Some? && 1 <= |w.manifest.value| <= MAX_UNITS
    && |w.units| == |w.manifest.value| && |w.attempts| == |w.manifest.value|
    && |FirstAttempts(w)| == |w.manifest.value|
    && admissible && w.starts == [] && w.run.createdAt <= now
  }

  /** Guards, CHECKs and unique constraints of each step. */
  predicate Admitted(w: World, e: Event) {
    match e
    case InsertManifest(units, canonical) => w.manifest.None? && !w.sealed && ValidUnits(units) && canonical
    case GuardUnit(tx, unit) => tx !in w.guarded && !w.sealed && Bound(w.manifest, unit) && Initial(unit.state)
    case WriteUnit(tx, id) =>
      && tx in w.guarded && id !in w.units && w.guarded[tx].ordinal > 0
      && forall x :: x in w.units ==>
           w.units[x].ordinal != w.guarded[tx].ordinal && w.units[x].binding.unitKey != w.guarded[tx].binding.unitKey
    case InsertAttempt(id, a) =>
      && id !in w.attempts && a.unit in w.units && a.number > 0
      && IsNext(w.attempts, a.unit, a.number) && Initial(a.state)
      && (a.number > 1 ==>
            && w.sealed && Dispatchable(w.run) && Dispatchable(w.units[a.unit].state)
            && HasRetryable(w.attempts, a.unit, a.number - 1))
    case Seal(expected, admissible, now) => Sealable(w, expected, admissible, now)
    case MoveRun(target) => w.sealed && Accepted(w.run, target)
    case MoveUnit(id, target) => w.sealed && id in w.units && Accepted(w.units[id].state, target)
    case MoveAttempt(id, target) => w.sealed && id in w.attempts && Accepted(w.attempts[id].state, target)
    case IssueTicket(id, admissible) =>
      && admissible && w.sealed && Dispatchable(w.run) && id in w.attempts && id !in w.tickets
      && w.attempts[id].unit in w.units && w.attempts[id].state.lifecycle == Queued
      && if w.attempts[id].number == 1 then w.units[w.attempts[id].unit].state.lifecycle == Queued
         else && w.units[w.attempts[id].unit].state.lifecycle == Lifecycle.Running
              && HasInfraError(w.attempts, w.attempts[id].unit, w.attempts[id].number - 1)
  }

  function Effect(w: World, e: Event): World
    requires Admitted(w, e)
  {
    match e
    case InsertManifest(units, _) => w.(manifest := Some(units))
    case GuardUnit(tx, unit) => w.(guarded := w.guarded[tx := unit])
    case WriteUnit(tx, id) => w.(units := w.units[id := w.guarded[tx]], guarded := w.guarded - {tx})
    case InsertAttempt(id, a) => w.(attempts := w.attempts[id := a])
    case Seal(_, _, now) =>
      w.(sealed := true, unitCount := Some(|w.units|), firstAttemptCount := Some(|FirstAttempts(w)|),
         run := w.run.(revision := w.run.revision + 1, updatedAt := now), starts := w.starts + [Start(now)])
    case MoveRun(target) => w.(run := target)
    case MoveUnit(id, target) => w.(units := w.units[id := w.units[id].(state := target)])
    case MoveAttempt(id, target) => w.(attempts := w.attempts[id := w.attempts[id].(state := target)])
    case IssueTicket(id, _) => w.(tickets := w.tickets + {id})
  }

  /** Refused steps leave the world as it is. */
  function Step(w: World, e: Event): World {
    if Admitted(w, e) then Effect(w, e) else w
  }

  function After(w: World, es: seq<Event>): World
    decreases |es|
  {
    if es == [] then w else Step(After(w, es[..|es| - 1]), es[|es| - 1])
  }

  // ------------------------------------------------------------------ invariants

  predicate ManifestFits(manifest: Option<seq<Entry>>) { manifest.Some? ==> ValidUnits(manifest.value) }

  predicate UnitsFit(manifest: Option<seq<Entry>>, guarded: map<int, Unit>, units: map<int, Unit>) {
    && (forall tx :: tx in guarded ==> Bound(manifest, guarded[tx]) && guarded[tx].state.lifecycle == Queued)
    && (forall u :: u in units ==> Bound(manifest, units[u]) && units[u].ordinal > 0)
    && (forall u, v :: u in units && v in units && units[u].ordinal == units[v].ordinal ==> u == v)
  }

  /** Before the seal nothing has moved and only first attempts exist; the seal freezes the
      counts and creates the one start intent. */
  predicate SealFits(w: World) {
    if w.sealed then
      && w.manifest.Some? && |w.units| == |w.manifest.value|
      && w.unitCount == w.firstAttemptCount == Some(|w.manifest.value|)
      && |w.starts| == 1
    else
      && w.starts == [] && w.unitCount.None? && w.firstAttemptCount.None? && w.run.lifecycle == Queued
      && (forall u :: u in w.units ==> w.units[u].state.lifecycle == Queued)
      && (forall a :: a in w.attempts ==> w.attempts[a].state.lifecycle == Queued && w.attempts[a].number == 1)
  }

  predicate SameAttempt(a: Attempt, b: Attempt) { a.unit == b.unit && a.number == b.number }

  predicate AttemptsFit(units: set<int>, attempts: map<int, Attempt>) {
    && (forall a :: a in attempts ==> attempts[a].unit in units && attempts[a].number > 0)
    && (forall a, b :: a in attempts && b in attempts && SameAttempt(attempts[a], attempts[b]) ==> a == b)
    && (forall a :: a in attempts && attempts[a].number > 1 ==>
          HasRetryable(attempts, attempts[a].unit, attempts[a].number - 1))
  }

  predicate TicketsFit(attempts: map<int, Attempt>, tickets: set<int>) {
    forall t :: t in tickets ==>
      && t in attempts
      && (attempts[t].number > 1 ==> HasInfraError(attempts, attempts[t].unit, attempts[t].number - 1))
  }

  predicate Valid(w: World) {
    && ManifestFits(w.manifest) && UnitsFit(w.manifest, w.guarded, w.units) && SealFits(w)
    && AttemptsFit(w.units.Keys, w.attempts) && TicketsFit(w.attempts, w.tickets)
  }

  function Ordinals(units: map<int, Unit>): set<int> {
    set u | u in units :: units[u].ordinal
  }

  lemma OrdinalsInRange(manifest: Option<seq<Entry>>, u: Unit)
    requires Bound(manifest, u) && u.ordinal > 0
    ensures manifest.Some? && 1 <= u.ordinal <= |manifest.value|
    ensures manifest.value[u.ordinal - 1].binding == u.binding
  {
  }

  /** With as many units as manifest entries, every ordinal is taken by exactly one unit. */
  lemma OrdinalsAreFilled(manifest: Option<seq<Entry>>, guarded: map<int, Unit>, units: map<int, Unit>)
    requires UnitsFit(manifest, guarded, units) && manifest.Some? && |units| == |manifest.value|
    ensures Ordinals(units) == Numbers(|manifest.value|)
  {
    var f := map u | u in units :: units[u].ordinal;
    forall u | u in units ensures 1 <= f[u] <= |manifest.value| { OrdinalsInRange(manifest, units[u]); }
    assert units.Keys == f.Keys && |units.Keys| == |units|;
    Pigeonhole(units.Keys, f, |manifest.value|);
    assert Ordinals(units) == Image(units.Keys, f);
  }

  /** The race: a unit whose guard passed before the seal can never be written after it. */
  lemma NoUnitAfterSeal(w: World, tx: int, id: int)
    requires UnitsFit(w.manifest, w.guarded, w.units) && SealFits(w) && w.sealed
    ensures !Admitted(w, WriteUnit(tx, id))
  {
    OrdinalsAreFilled(w.manifest, w.guarded, w.units);
    if tx in w.guarded && w.guarded[tx].ordinal > 0 {
      OrdinalsInRange(w.manifest, w.guarded[tx]);
      assert w.guarded[tx].ordinal in Ordinals(w.units);
    }
  }

  // Each step keeps each part of the invariant.

  lemma UnitWritten(manifest: Option<seq<Entry>>, guarded: map<int, Unit>, units: map<int, Unit>, tx: int, id: int)
    requires UnitsFit(manifest, guarded, units) && tx in guarded && id !in units && guarded[tx].ordinal > 0
    requires forall x :: x in units ==> units[x].ordinal != guarded[tx].ordinal
    ensures UnitsFit(manifest, guarded - {tx}, units[id := guarded[tx]])
  {
  }

  lemma StepKeepsUnits(w: World, e: Event)
    requires UnitsFit(w.manifest, w.guarded, w.units) && Admitted(w, e)
    ensures var n := Effect(w, e); UnitsFit(n.manifest, n.guarded, n.units)
  {
    if e.WriteUnit? { UnitWritten(w.manifest, w.guarded, w.units, e.tx, e.id); }
  }

  lemma StepKeepsSeal(w: World, e: Event)
    requires UnitsFit(w.manifest, w.guarded, w.units) && SealFits(w) && Admitted(w, e)
    ensures SealFits(Effect(w, e))
  {
    if e.WriteUnit? && w.sealed {
      NoUnitAfterSeal(w, e.tx, e.id);
    } else if e.MoveUnit? {
      assert w.units[e.id := w.units[e.id].(state := e.target)].Keys == w.units.Keys;
    }
  }

  /** A closed attempt keeps its quality, so what a retry or ticket rested on stays true. */
  lemma StepKeepsClosed(w: World, e: Event, p: int)
    requires Admitted(w, e) && p in w.attempts
    ensures var n := Effect(w, e).attempts;
      && p in n && SameAttempt(n[p], w.attempts[p])
      && (w.attempts[p].state.lifecycle == Closed ==>
            n[p].state.lifecycle == Closed && n[p].state.quality == w.attempts[p].state.quality)
  {
  }

  lemma StepKeepsRetryable(w: World, e: Event, unit: int, number: int)
    requires Admitted(w, e)
    ensures HasRetryable(w.attempts, unit, number) ==> HasRetryable(Effect(w, e).attempts, unit, number)
    ensures HasInfraError(w.attempts, unit, number) ==> HasInfraError(Effect(w, e).attempts, unit, number)
  {
    forall p | p in w.attempts
      ensures var n := Effect(w, e).attempts;
        && p in n && SameAttempt(n[p], w.attempts[p])
        && (w.attempts[p].state.lifecycle == Closed ==>
              n[p].state.lifecycle == Closed && n[p].state.quality == w.attempts[p].state.quality)
    {
      StepKeepsClosed(w, e, p);
    }
  }

  /** A step adds at most one attempt and changes no attempt's unit or number. */
  ghost predicate SameAttempts(w: World, n: World, e: Event) {
    && w.units.Keys <= n.units.Keys
    && (forall a :: a in n.attempts <==> a in w.attempts || (e.InsertAttempt? && a == e.id))
    && (forall a :: a in w.attempts ==> SameAttempt(n.attempts[a], w.attempts[a]))
    && (e.InsertAttempt? ==> n.attempts[e.id] == e.attempt)
  }

  lemma StepKeepsAttempt(w: World, e: Event)
    requires Admitted(w, e)
    ensures SameAttempts(w, Effect(w, e), e)
  {
    match e
    case InsertAttempt(_, _) =>
    case MoveAttempt(_, _) =>
    case WriteUnit(_, _) =>
    case MoveUnit(_, _) =>
    case _ => assert Effect(w, e).attempts == w.attempts && Effect(w, e).units == w.units;
  }

  lemma StepKeepsIdentities(w: World, e: Event)
    requires AttemptsFit(w.units.Keys, w.attempts) && Admitted(w, e)
    ensures var n := Effect(w, e);
      && w.units.Keys <= n.units.Keys
      && (forall a :: a in n.attempts ==> n.attempts[a].unit in n.units && n.attempts[a].number > 0)
      && (forall a, b :: a in n.attempts && b in n.attempts && SameAttempt(n.attempts[a], n.attempts[b]) ==> a == b)
      && (forall a :: a in n.attempts && a !in w.attempts && n.attempts[a].number > 1 ==>
            HasRetryable(w.attempts, n.attempts[a].unit, n.attempts[a].number - 1))
  {
    StepKeepsAttempt(w, e);
    if e.InsertAttempt? { NewAttemptIsNew(w, e.id, e.attempt); }
    SameAttemptsStayApart(w, Effect(w, e), e);
  }

  lemma NewAttemptIsNew(w: World, id: int, a: Attempt)
    requires Admitted(w, InsertAttempt(id, a))
    ensures a.unit in w.units && a.number > 0 && id !in w.attempts
    ensures forall b :: b in w.attempts ==> !SameAttempt(w.attempts[b], a)
    ensures a.number > 1 ==> HasRetryable(w.attempts, a.unit, a.number - 1)
  {
  }

  lemma SameAttemptsStayApart(w: World, n: World, e: Event)
    requires AttemptsFit(w.units.Keys, w.attempts) && SameAttempts(w, n, e)
    requires e.InsertAttempt? ==>
      && e.attempt.unit in w.units && e.attempt.number > 0 && e.id !in w.attempts
      && forall b :: b in w.attempts ==> !SameAttempt(w.attempts[b], e.attempt)
    ensures forall a :: a in n.attempts ==> n.attempts[a].unit in n.units && n.attempts[a].number > 0
    ensures forall a, b :: a in n.attempts && b in n.attempts && SameAttempt(n.attempts[a], n.attempts[b]) ==> a == b
  {
    forall a, b | a in w.attempts && b in w.attempts && SameAttempt(n.attempts[a], n.attempts[b]) ensures a == b {
      assert SameAttempt(w.attempts[a], w.attempts[b]);
    }
  }

  lemma StepKeepsPrevious(w: World, e: Event, a: int)
    requires AttemptsFit(w.units.Keys, w.attempts) && Admitted(w, e) && a in Effect(w, e).attempts
    requires Effect(w, e).attempts[a].number > 1
    ensures var n := Effect(w, e).attempts; HasRetryable(n, n[a].unit, n[a].number - 1)
  {
    if a in w.attempts {
      StepKeepsClosed(w, e, a);
    } else {
      StepKeepsIdentities(w, e);
    }
    StepKeepsRetryable(w, e, Effect(w, e).attempts[a].unit, Effect(w, e).attempts[a].number - 1);
  }

  lemma StepKeepsAttempts(w: World, e: Event)
    requires AttemptsFit(w.units.Keys, w.attempts) && Admitted(w, e)
    ensures AttemptsFit(Effect(w, e).units.Keys, Effect(w, e).attempts)
  {
    StepKeepsIdentities(w, e);
    var n := Effect(w, e).attempts;
    forall a | a in n && n[a].number > 1 ensures HasRetryable(n, n[a].unit, n[a].number - 1) {
      StepKeepsPrevious(w, e, a);
    }
  }

  lemma StepKeepsTickets(w: World, e: Event)
    requires TicketsFit(w.attempts, w.tickets) && AttemptsFit(w.units.Keys, w.attempts) && Admitted(w, e)
    ensures TicketsFit(Effect(w, e).attempts, Effect(w, e).tickets)
  {
    var n := Effect(w, e);
    forall t | t in n.tickets
      ensures t in n.attempts
      ensures n.attempts[t].number > 1 ==>
        HasInfraError(n.attempts, n.attempts[t].unit, n.attempts[t].number - 1)
    {
      StepKeepsClosed(w, e, t);
      StepKeepsRetryable(w, e, n.attempts[t].unit, n.attempts[t].number - 1);
    }
  }

  lemma {:induction false} RunsKeepValid(w: World, es: seq<Event>)
    requires Valid(w)
    ensures Valid(After(w, es))
    decreases |es|
  {
    if es != [] {
      var v, e := After(w, es[..|es| - 1]), es[|es| - 1];
      RunsKeepValid(w, es[..|es| - 1]);
      if Admitted(v, e) { StepKeepsValid(v, e); }
    }
  }

  lemma StepKeepsValid(w: World, e: Event)
    requires Valid(w) && Admitted(w, e)
    ensures Valid(Effect(w, e))
  {
    StepKeepsUnits(w, e);
    StepKeepsSeal(w, e);
    StepKeepsAttempts(w, e);
    StepKeepsTickets(w, e);
  }

  /** Every world reachable from a fresh run satisfies all invariants. */
  lemma ReachableIsValid(run: State, es: seq<Event>)
    requires Initial(run)
    ensures Valid(After(Fresh(run), es))
  {
    RunsKeepValid(Fresh(run), es);
  }

  // -------------------------------------------------------------------- the seal

  /** The units are in bijection with the manifest entries, bound as these say. */
  predicate Materializes(units: map<int, Unit>, manifest: seq<Entry>) {
    && (forall u :: u in units ==>
          1 <= units[u].ordinal <= |manifest| && manifest[units[u].ordinal - 1].binding == units[u].binding)
    && (forall u, v :: u in units && v in units && units[u].ordinal == units[v].ordinal ==> u == v)
    && Ordinals(units) == Numbers(|manifest|)
  }

  /** In every reachable sealed world. */
  lemma SealedIsExact(w: World)
    requires Valid(w) && w.sealed
    ensures w.manifest.Some? && Materializes(w.units, w.manifest.value)
  {
    UnitsMaterialize(w);
  }

  lemma UnitsMaterialize(w: World)
    requires Valid(w) && w.manifest.Some? && |w.units| == |w.manifest.value|
    ensures Materializes(w.units, w.manifest.value)
  {
    OrdinalsAreFilled(w.manifest, w.guarded, w.units);
    forall u | u in w.units
      ensures 1 <= w.units[u].ordinal <= |w.manifest.value|
      ensures w.manifest.value[w.units[u].ordinal - 1].binding == w.units[u].binding
    {
      OrdinalsInRange(w.manifest, w.units[u]);
    }
  }

  function UnitsOf(attempts: map<int, Attempt>): set<int> {
    set a | a in attempts :: attempts[a].unit
  }

  /** The three counts alone force one attempt, number 1, for every unit. */
  lemma CountsForceFirstAttempts(units: set<int>, attempts: map<int, Attempt>)
    requires AttemptsFit(units, attempts)
    requires |units| == |attempts| == |set a | a in attempts && attempts[a].number == 1|
    ensures forall a :: a in attempts ==> attempts[a].number == 1
    ensures forall a, b :: a in attempts && b in attempts && attempts[a].unit == attempts[b].unit ==> a == b
    ensures UnitsOf(attempts) == units
  {
    var firsts := set a | a in attempts && attempts[a].number == 1;
    assert |attempts.Keys| == |attempts|;
    SubsetSize(firsts, attempts.Keys);
    assert forall a :: a in attempts ==> a in firsts;
    var f := map a | a in attempts :: attempts[a].unit;
    forall a, b | a in attempts && b in attempts && f[a] == f[b] ensures a == b {
      assert SameAttempt(attempts[a], attempts[b]);
    }
    ImageSize(attempts.Keys, f);
    assert UnitsOf(attempts) == Image(attempts.Keys, f);
    SubsetSize(UnitsOf(attempts), units);
  }

  /** So when the seal succeeds every unit has exactly one attempt, its first, still queued. */
  lemma SealSeesFirstAttempts(w: World, expected: int, admissible: bool, now: int)
    requires Valid(w) && Sealable(w, expected, admissible, now)
    ensures forall a :: a in w.attempts ==> w.attempts[a].number == 1 && w.attempts[a].state.lifecycle == Queued
    ensures forall a, b :: a in w.attempts && b in w.attempts && w.attempts[a].unit == w.attempts[b].unit ==> a == b
    ensures UnitsOf(w.attempts) == w.units.Keys
  {
    assert |w.units.Keys| == |w.units|;
    CountsForceFirstAttempts(w.units.Keys, w.attempts);
  }

  predicate SameMaterial(a: World, b: World) {
    && b.sealed && b.manifest == a.manifest && b.starts == a.starts
    && b.unitCount == a.unitCount && b.firstAttemptCount == a.firstAttemptCount
    && b.units.Keys == a.units.Keys
    && forall u :: u in a.units ==> b.units[u].ordinal == a.units[u].ordinal && b.units[u].binding == a.units[u].binding
  }

  lemma StepKeepsMaterial(w: World, e: Event)
    requires Valid(w) && w.sealed && Admitted(w, e)
    ensures SameMaterial(w, Effect(w, e))
  {
    if e.WriteUnit? { NoUnitAfterSeal(w, e.tx, e.id); }
  }

  /** Sealing is permanent: whatever follows, including inserts whose check was made before
      the seal, no unit is added, removed or rebound, and there is one start intent. */
  lemma {:induction false} SealIsPermanent(w: World, es: seq<Event>)
    requires Valid(w) && w.sealed
    ensures SameMaterial(w, After(w, es)) && |After(w, es).starts| == 1
    ensures forall tx, id :: !Admitted(After(w, es), WriteUnit(tx, id))
    decreases |es|
  {
    RunsKeepValid(w, es);
    if es != [] {
      var init := es[..|es| - 1];
      SealIsPermanent(w, init);
      RunsKeepValid(w, init);
      var v, e := After(w, init), es[|es| - 1];
      if Admitted(v, e) { StepKeepsMaterial(v, e); }
    }
    var n := After(w, es);
    forall tx, id ensures !Admitted(n, WriteUnit(tx, id)) { NoUnitAfterSeal(n, tx, id); }
  }

  /** In every run history a start intent exists exactly when the run is sealed, and the seal
      succeeds at most once. */
  lemma StartMeansSealed(run: State, es: seq<Event>)
    requires Initial(run)
    ensures |After(Fresh(run), es).starts| == if After(Fresh(run), es).sealed then 1 else 0
    ensures After(Fresh(run), es).sealed ==> forall e: Event :: e.Seal? ==> !Admitted(After(Fresh(run), es), e)
  {
    ReachableIsValid(run, es);
  }

  // ---------------------------------------------------------------- attempt history

  function NumbersOf(attempts: map<int, Attempt>, unit: int): set<int> {
    set a | a in attempts && attempts[a].unit == unit :: attempts[a].number
  }

  /** All earlier numbers exist, and every earlier attempt is closed and retryable. */
  lemma {:induction false} EarlierAttemptsAreClosed(units: set<int>, attempts: map<int, Attempt>, b: int, k: int)
    requires AttemptsFit(units, attempts) && b in attempts && 1 <= k < attempts[b].number
    ensures HasRetryable(attempts, attempts[b].unit, k)
    decreases attempts[b].number - k
  {
    assert HasRetryable(attempts, attempts[b].unit, attempts[b].number - 1);
    if k < attempts[b].number - 1 {
      var p :| p in attempts && attempts[p].unit == attempts[b].unit && attempts[p].number == attempts[b].number - 1;
      EarlierAttemptsAreClosed(units, attempts, p, k);
    }
  }

  lemma LaterAttemptMeansRetryable(units: set<int>, attempts: map<int, Attempt>, a: int, b: int)
    requires AttemptsFit(units, attempts) && a in attempts && b in attempts
    requires attempts[a].unit == attempts[b].unit && attempts[a].number < attempts[b].number
    ensures Retryable(attempts[a].state)
  {
    EarlierAttemptsAreClosed(units, attempts, b, attempts[a].number);
    var p :| p in attempts && attempts[p].unit == attempts[b].unit && attempts[p].number == attempts[a].number
      && Retryable(attempts[p].state);
    assert SameAttempt(attempts[a], attempts[p]);
  }

  function AttemptsOf(attempts: map<int, Attempt>, unit: int): set<int> {
    set a | a in attempts && attempts[a].unit == unit
  }

  lemma NumbersSize(units: set<int>, attempts: map<int, Attempt>, unit: int)
    requires AttemptsFit(units, attempts)
    ensures |NumbersOf(attempts, unit)| == |AttemptsOf(attempts, unit)|
  {
    var mine := AttemptsOf(attempts, unit);
    var f := map a | a in mine :: attempts[a].number;
    forall a, b | a in mine && b in mine && f[a] == f[b] ensures a == b {
      assert SameAttempt(attempts[a], attempts[b]);
    }
    ImageSize(mine, f);
    forall n ensures n in NumbersOf(attempts, unit) <==> n in Image(mine, f) {
      if n in NumbersOf(attempts, unit) {
        var a :| a in attempts && attempts[a].unit == unit && attempts[a].number == n;
        assert a in mine && f[a] == n;
      }
    }
    assert NumbersOf(attempts, unit) == Image(mine, f);
  }

  /** A unit's attempts are numbered 1 to k without gaps, k being their count. */
  lemma AttemptNumbersAreGapless(units: set<int>, attempts: map<int, Attempt>, unit: int)
    requires AttemptsFit(units, attempts)
    ensures NumbersOf(attempts, unit) == Numbers(|AttemptsOf(attempts, unit)|)
  {
    NumbersSize(units, attempts, unit);
    var mine := AttemptsOf(attempts, unit);
    if |mine| > 0 {
      var last := LastAttempt(attempts, mine);
      NumbersUpTo(units, attempts, last);
    } else {
      assert NumbersOf(attempts, unit) == {};
    }
  }

  lemma NumbersUpTo(units: set<int>, attempts: map<int, Attempt>, last: int)
    requires AttemptsFit(units, attempts) && last in attempts
    requires forall a :: a in attempts && attempts[a].unit == attempts[last].unit ==>
      attempts[a].number <= attempts[last].number
    ensures NumbersOf(attempts, attempts[last].unit) == Numbers(attempts[last].number)
  {
    var unit, k := attempts[last].unit, attempts[last].number;
    forall n | 1 <= n < k ensures n in NumbersOf(attempts, unit) {
      EarlierAttemptsAreClosed(units, attempts, last, n);
    }
    assert k in NumbersOf(attempts, unit);
    assert forall n :: n in Numbers(k) ==> n == k || n in NumbersOf(attempts, unit);
  }

  lemma {:induction false} LastAttempt(attempts: map<int, Attempt>, mine: set<int>) returns (last: int)
    requires |mine| > 0 && forall a :: a in mine ==> a in attempts
    ensures last in mine && forall a :: a in mine ==> attempts[a].number <= attempts[last].number
    decreases |mine|
  {
    var x := Member(mine);
    last := x;
    if |mine - {x}| > 0 {
      last := LastAttempt(attempts, mine - {x});
      if attempts[last].number < attempts[x].number { last := x; }
    }
    assert forall a :: a in mine ==> a == x || a in mine - {x};
  }

  /** At most one attempt of a unit is open. */
  lemma AtMostOneOpen(w: World, a: int, b: int)
    requires Valid(w) && a in w.attempts && b in w.attempts && w.attempts[a].unit == w.attempts[b].unit
    requires w.attempts[a].state.lifecycle != Closed && w.attempts[b].state.lifecycle != Closed
    ensures a == b
  {
    if w.attempts[a].number < w.attempts[b].number {
      LaterAttemptMeansRetryable(w.units.Keys, w.attempts, a, b);
    } else if w.attempts[b].number < w.attempts[a].number {
      LaterAttemptMeansRetryable(w.units.Keys, w.attempts, b, a);
    } else {
      assert SameAttempt(w.attempts[a], w.attempts[b]);
    }
  }

  lemma StepKeepsPassed(w: World, e: Event, a: int)
    requires Admitted(w, e) && a in w.attempts && w.attempts[a].state.quality == Passed
    ensures a in Effect(w, e).attempts && Effect(w, e).attempts[a].state.quality == Passed
    ensures SameAttempt(Effect(w, e).attempts[a], w.attempts[a])
  {
  }

  /** A PASSED attempt is the last of its unit for ever. */
  lemma {:induction false} PassedIsLast(w: World, a: int, es: seq<Event>)
    requires Valid(w) && a in w.attempts && w.attempts[a].state.quality == Passed
    ensures var n := After(w, es).attempts;
      && a in n && n[a].state.quality == Passed && SameAttempt(n[a], w.attempts[a])
      && forall b :: b in n && n[b].unit == n[a].unit ==> n[b].number <= n[a].number
    decreases |es|
  {
    RunsKeepValid(w, es);
    if es != [] {
      var init := es[..|es| - 1];
      PassedIsLast(w, a, init);
      var v, e := After(w, init), es[|es| - 1];
      if Admitted(v, e) { StepKeepsPassed(v, e, a); }
    }
    var u := After(w, es);
    forall b | b in u.attempts && u.attempts[b].unit == u.attempts[a].unit
      ensures u.attempts[b].number <= u.attempts[a].number
    {
      if u.attempts[a].number < u.attempts[b].number { LaterAttemptMeansRetryable(u.units.Keys, u.attempts, a, b); }
    }
  }

  /** In every run history: a ticket belongs to an attempt; number k > 1 was ticketed only after
      number k - 1 had closed with INFRA_ERROR, all earlier numbers being closed and
      retryable; and no attempt is ticketed twice. */
  lemma TicketsFollowInfraErrors(run: State, es: seq<Event>, t: int)
    requires Initial(run) && t in After(Fresh(run), es).tickets
    ensures var w := After(Fresh(run), es);
      && t in w.attempts
      && (w.attempts[t].number > 1 ==> HasInfraError(w.attempts, w.attempts[t].unit, w.attempts[t].number - 1))
      && (forall k :: 1 <= k < w.attempts[t].number ==> HasRetryable(w.attempts, w.attempts[t].unit, k))
      && forall admissible :: !Admitted(w, IssueTicket(t, admissible))
  {
    ReachableIsValid(run, es);
    TicketFacts(After(Fresh(run), es), t);
  }

  lemma TicketFacts(w: World, t: int)
    requires TicketsFit(w.attempts, w.tickets) && AttemptsFit(w.units.Keys, w.attempts) && t in w.tickets
    ensures t in w.attempts
    ensures w.attempts[t].number > 1 ==> HasInfraError(w.attempts, w.attempts[t].unit, w.attempts[t].number - 1)
    ensures forall k :: 1 <= k < w.attempts[t].number ==> HasRetryable(w.attempts, w.attempts[t].unit, k)
    ensures forall admissible :: !Admitted(w, IssueTicket(t, admissible))
  {
    forall k | 1 <= k < w.attempts[t].number ensures HasRetryable(w.attempts, w.attempts[t].unit, k) {
      EarlierAttemptsAreClosed(w.units.Keys, w.attempts, t, k);
    }
  }

  predicate OpenTicket(w: World, t: int) {
    t in w.tickets && t in w.attempts && w.attempts[t].state.lifecycle != Closed
  }

  /** At most one ticketed attempt per unit is open. */
  lemma AtMostOneOpenTicket(w: World, s: int, t: int)
    requires Valid(w) && OpenTicket(w, s) && OpenTicket(w, t) && w.attempts[s].unit == w.attempts[t].unit
    ensures s == t
  {
    AtMostOneOpen(w, s, t);
  }

  // ----------------------------------------------- exactly when a step is admitted

  /** Every unit has an attempt, and no other. */
  predicate OneAttemptEach(units: set<int>, attempts: map<int, Attempt>) {
    && (forall a :: a in attempts ==> attempts[a].unit in units)
    && (forall u :: u in units ==> exists a :: a in attempts && attempts[a].unit == u)
    && (forall a, b :: a in attempts && b in attempts && attempts[a].unit == attempts[b].unit ==> a == b)
  }

  /** The units are the manifest's, entry by entry, and each has exactly one attempt. */
  predicate SealReady(w: World, expected: int, admissible: bool, now: int) {
    && !w.sealed && w.run.revision == expected && w.run.createdAt <= now && admissible
    && w.manifest.Some? && Materializes(w.units, w.manifest.value)
    && OneAttemptEach(w.units.Keys, w.attempts)
  }

  /** The counts the seal compares say just this. */
  lemma SealsExactly(run: State, es: seq<Event>, expected: int, admissible: bool, now: int)
    requires Initial(run)
    ensures var w := After(Fresh(run), es);
      Admitted(w, Seal(expected, admissible, now)) <==> SealReady(w, expected, admissible, now)
  {
    var w := After(Fresh(run), es);
    ReachableIsValid(run, es);
    if Sealable(w, expected, admissible, now) { SealableMeans(w, expected, admissible, now); }
    if SealReady(w, expected, admissible, now) { ReadyIsSealable(w, expected, admissible, now); }
  }

  lemma ReadyIsSealable(w: World, expected: int, admissible: bool, now: int)
    requires Valid(w) && SealReady(w, expected, admissible, now)
    ensures Sealable(w, expected, admissible, now)
  {
    CountsAgree(w);
  }

  lemma SealableMeans(w: World, expected: int, admissible: bool, now: int)
    requires Valid(w) && Sealable(w, expected, admissible, now)
    ensures SealReady(w, expected, admissible, now)
  {
    UnitsMaterialize(w);
    SealSeesFirstAttempts(w, expected, admissible, now);
    forall u | u in w.units ensures exists a :: a in w.attempts && w.attempts[a].unit == u {
      assert u in UnitsOf(w.attempts);
    }
  }

  lemma CountsAgree(w: World)
    requires SealFits(w) && !w.sealed && w.manifest.Some? && Materializes(w.units, w.manifest.value)
    requires OneAttemptEach(w.units.Keys, w.attempts)
    ensures |w.units| == |w.attempts| == |FirstAttempts(w)| == |w.manifest.value|
  {
    UnitCount(w.units, w.manifest.value);
    AttemptCount(w.units.Keys, w.attempts);
    assert |w.units| == |w.units.Keys| && |w.attempts| == |w.attempts.Keys|;
    assert forall a :: a in w.attempts ==> a in FirstAttempts(w);
    assert FirstAttempts(w) == w.attempts.Keys;
  }

  lemma UnitCount(units: map<int, Unit>, manifest: seq<Entry>)
    requires Materializes(units, manifest)
    ensures |units.Keys| == |manifest|
  {
    var ordinals := map u | u in units :: units[u].ordinal;
    ImageSize(units.Keys, ordinals);
    assert Ordinals(units) == Image(units.Keys, ordinals);
  }

  lemma AttemptCount(units: set<int>, attempts: map<int, Attempt>)
    requires OneAttemptEach(units, attempts)
    ensures |attempts.Keys| == |units|
  {
    var owners := map a | a in attempts :: attempts[a].unit;
    ImageSize(attempts.Keys, owners);
    forall u ensures u in Image(attempts.Keys, owners) <==> u in units {
      if u in units {
        var a :| a in attempts && attempts[a].unit == u;
        assert owners[a] == u;
      }
    }
    assert Image(attempts.Keys, owners) == units;
  }

  /** The guard alone also admits a unit numbered from the end of the manifest, 0 for the last
      entry, which the CHECK on its number then keeps from being written. */
  lemma UnitsGuardExactly(w: World, tx: int, u: Unit)
    ensures Admitted(w, GuardUnit(tx, u)) <==>
      && tx !in w.guarded && !w.sealed && Initial(u.state) && w.manifest.Some?
      && exists i :: 0 <= i < |w.manifest.value| && w.manifest.value[i].binding == u.binding
           && (u.ordinal == i + 1 || u.ordinal == i + 1 - |w.manifest.value|)
  {
    if w.manifest.Some? && Lookup(w.manifest.value, u.ordinal - 1).Some? {
      var i := if u.ordinal > 0 then u.ordinal - 1 else |w.manifest.value| + u.ordinal - 1;
      assert Lookup(w.manifest.value, u.ordinal - 1).value == w.manifest.value[i];
    }
  }

  /** A unit whose guard and write follow each other becomes visible exactly if the run still
      materializes, the unit is new, queued and bound as the manifest entry of its number, and
      no stored unit has this number.  The unique index on keys decides nothing more. */
  lemma UnitsAppearExactly(run: State, es: seq<Event>, tx: int, id: int, u: Unit)
    requires Initial(run) && tx !in After(Fresh(run), es).guarded && id !in After(Fresh(run), es).units
    ensures var w := After(Fresh(run), es);
      id in Step(Step(w, GuardUnit(tx, u)), WriteUnit(tx, id)).units <==>
        && !w.sealed && w.manifest.Some? && 1 <= u.ordinal <= |w.manifest.value|
        && w.manifest.value[u.ordinal - 1].binding == u.binding
        && Initial(u.state)
        && forall x :: x in w.units ==> w.units[x].ordinal != u.ordinal
  {
    var w := After(Fresh(run), es);
    assert ManifestFits(w.manifest) && UnitsFit(w.manifest, w.guarded, w.units) by { ReachableIsValid(run, es); }
    GuardedThenWritten(w, tx, id, u);
    BoundMeans(w.manifest, w.guarded, w.units, u);
  }

  lemma BoundMeans(manifest: Option<seq<Entry>>, guarded: map<int, Unit>, units: map<int, Unit>, u: Unit)
    requires ManifestFits(manifest) && UnitsFit(manifest, guarded, units)
    ensures u.ordinal > 0 && Bound(manifest, u) <==>
      && manifest.Some? && 1 <= u.ordinal <= |manifest.value|
      && manifest.value[u.ordinal - 1].binding == u.binding
    ensures u.ordinal > 0 && Bound(manifest, u) ==>
      forall x :: x in units && units[x].binding.unitKey == u.binding.unitKey ==> units[x].ordinal == u.ordinal
  {
    if Bound(manifest, u) && u.ordinal > 0 { FreeNumberIsFreeKey(manifest, guarded, units, u); }
  }

  lemma GuardedThenWritten(w: World, tx: int, id: int, u: Unit)
    requires tx !in w.guarded && id !in w.units
    ensures id in Step(Step(w, GuardUnit(tx, u)), WriteUnit(tx, id)).units <==>
      && !w.sealed && Bound(w.manifest, u) && Initial(u.state) && u.ordinal > 0
      && forall x :: x in w.units ==>
           w.units[x].ordinal != u.ordinal && w.units[x].binding.unitKey != u.binding.unitKey
  {
  }

  lemma FreeNumberIsFreeKey(manifest: Option<seq<Entry>>, guarded: map<int, Unit>, units: map<int, Unit>, u: Unit)
    requires ManifestFits(manifest) && UnitsFit(manifest, guarded, units) && Bound(manifest, u) && u.ordinal > 0
    ensures forall x :: x in units && units[x].binding.unitKey == u.binding.unitKey ==> units[x].ordinal == u.ordinal
    ensures 1 <= u.ordinal <= |manifest.value| && manifest.value[u.ordinal - 1].binding == u.binding
  {
    OrdinalsInRange(manifest, u);
    forall x | x in units && units[x].binding.unitKey == u.binding.unitKey ensures units[x].ordinal == u.ordinal {
      OrdinalsInRange(manifest, units[x]);
      KeysAreDistinct(manifest.value, units[x].ordinal - 1, u.ordinal - 1);
    }
  }

  /** No attempt of the unit is open or final: each is closed, undecided and passed ones apart. */
  predicate AllRetryable(attempts: map<int, Attempt>, unit: int) {
    forall p :: p in attempts && attempts[p].unit == unit ==>
      && attempts[p].state.lifecycle == Closed
      && attempts[p].state.quality != Quality.Pending && attempts[p].state.quality != Passed
  }

  predicate MayDispatch(s: State) { s.lifecycle == Queued || s.lifecycle == Lifecycle.Running }

  /** An attempt is accepted exactly if it is initial and numbered one more than its unit has
      attempts, and, unless it is the first, all of these can be retried and run and unit are
      QUEUED or RUNNING. */
  lemma AttemptsInsertExactly(run: State, es: seq<Event>, id: int, a: Attempt)
    requires Initial(run)
    ensures var w := After(Fresh(run), es);
      Admitted(w, InsertAttempt(id, a)) <==>
        && id !in w.attempts && a.unit in w.units && a.number == |AttemptsOf(w.attempts, a.unit)| + 1
        && Initial(a.state)
        && (a.number > 1 ==>
              && w.sealed && MayDispatch(w.run) && MayDispatch(w.units[a.unit].state)
              && AllRetryable(w.attempts, a.unit))
  {
    var w := After(Fresh(run), es);
    assert AttemptsFit(w.units.Keys, w.attempts) by { ReachableIsValid(run, es); }
    if a.number > 0 { NextIsCount(w.units.Keys, w.attempts, a.unit, a.number); }
    if a.number > 1 && IsNext(w.attempts, a.unit, a.number) {
      LastIsRetryable(w.units.Keys, w.attempts, a.unit, a.number);
    }
  }

  lemma NextIsCount(units: set<int>, attempts: map<int, Attempt>, unit: int, number: int)
    requires AttemptsFit(units, attempts) && number > 0
    ensures IsNext(attempts, unit, number) <==> number == |AttemptsOf(attempts, unit)| + 1
  {
    var n := |AttemptsOf(attempts, unit)|;
    AttemptNumbersAreGapless(units, attempts, unit);
    assert n > 0 ==> n in NumbersOf(attempts, unit);
    forall a | a in attempts && attempts[a].unit == unit ensures 1 <= attempts[a].number <= n {
      assert attempts[a].number in NumbersOf(attempts, unit);
    }
  }

  lemma LastIsRetryable(units: set<int>, attempts: map<int, Attempt>, unit: int, number: int)
    requires AttemptsFit(units, attempts) && number > 1 && IsNext(attempts, unit, number)
    ensures HasRetryable(attempts, unit, number - 1) <==> AllRetryable(attempts, unit)
  {
    var last :| last in attempts && attempts[last].unit == unit && attempts[last].number == number - 1;
    forall p | p in attempts && attempts[p].unit == unit && p != last
      ensures attempts[p].number != attempts[last].number && Retryable(attempts[p].state)
    {
      assert !SameAttempt(attempts[p], attempts[last]);
      LaterAttemptMeansRetryable(units, attempts, p, last);
    }
    LastDecides(attempts, last);
  }

  lemma LastDecides(attempts: map<int, Attempt>, last: int)
    requires last in attempts
    requires forall p :: p in attempts && attempts[p].unit == attempts[last].unit && p != last ==>
      attempts[p].number != attempts[last].number && Retryable(attempts[p].state)
    ensures HasRetryable(attempts, attempts[last].unit, attempts[last].number) <==>
      AllRetryable(attempts, attempts[last].unit)
  {
    if HasRetryable(attempts, attempts[last].unit, attempts[last].number) {
      var p :| p in attempts && attempts[p].unit == attempts[last].unit
        && attempts[p].number == attempts[last].number && Retryable(attempts[p].state);
      assert p == last;
    }
  }

  /** A ticket is issued exactly for a queued attempt without one of a dispatchable sealed run:
      a first attempt while its unit is QUEUED, a later one while it is RUNNING and the attempt
      before was closed by an infrastructure error. */
  lemma TicketsIssueExactly(run: State, es: seq<Event>, id: int, admissible: bool)
    requires Initial(run)
    ensures var w := After(Fresh(run), es);
      Admitted(w, IssueTicket(id, admissible)) <==>
        && admissible && w.sealed && MayDispatch(w.run) && id in w.attempts && id !in w.tickets
        && w.attempts[id].state.lifecycle == Queued && w.attempts[id].unit in w.units
        && var t, unit := w.attempts[id], w.units[w.attempts[id].unit].state;
        if t.number == 1 then unit.lifecycle == Queued else
          && unit.lifecycle == Lifecycle.Running
          && forall p :: p in w.attempts && w.attempts[p].unit == t.unit && w.attempts[p].number == t.number - 1 ==>
               w.attempts[p].state.lifecycle == Closed && w.attempts[p].state.quality == InfraError
  {
    var w := After(Fresh(run), es);
    assert AttemptsFit(w.units.Keys, w.attempts) by { ReachableIsValid(run, es); }
    if id in w.attempts && w.attempts[id].number > 1 { PreviousAttempt(w.units.Keys, w.attempts, id); }
  }

  lemma PreviousAttempt(units: set<int>, attempts: map<int, Attempt>, id: int)
    requires AttemptsFit(units, attempts) && id in attempts && attempts[id].number > 1
    ensures HasInfraError(attempts, attempts[id].unit, attempts[id].number - 1) <==>
      forall p ::
        p in attempts && attempts[p].unit == attempts[id].unit && attempts[p].number == attempts[id].number - 1 ==>
        attempts[p].state.lifecycle == Closed && attempts[p].state.quality == InfraError
  {
    assert HasRetryable(attempts, attempts[id].unit, attempts[id].number - 1);
    var last :| last in attempts && attempts[last].unit == attempts[id].unit
      && attempts[last].number == attempts[id].number - 1;
    forall p | p in attempts && SameAttempt(attempts[p], attempts[last]) ensures p == last {}
  }

  // ---------------------------------------------------------------------- the tables

  /** The rows of one run, changed in place by the seal, the inserts and the transitions. */
  class TaskRun {
    var run: State
    var materializationSealed: bool
    var unitCount: Option<int>
    var firstAttemptCount: Option<int>
    var manifest: Option<seq<Entry>>
    var guarded: map<int, Unit>
    var units: map<int, Unit>
    var attempts: map<int, Attempt>
    var tickets: set<int>
    var starts: seq<Start>
    ghost const inserted: State
    ghost var steps: seq<Event>

    function Contents(): World
      reads this
    {
      World(
        run, materializationSealed, unitCount, firstAttemptCount, manifest, guarded, units, attempts, tickets, starts)
    }

    /** The rows are what the steps taken since the insert of the run left. */
    ghost predicate Invariant()
      reads this
    {
      Initial(inserted) && Contents() == After(Fresh(inserted), steps)
    }

    /** The step took effect, or was refused and changed nothing. */
    twostate predicate Did(e: Event, ok: bool)
      reads this
    {
      && ok == Admitted(old(Contents()), e) && steps == old(steps) + [e]
      && Contents() == Step(old(Contents()), e)
    }

    constructor (initial: State)
      requires Initial(initial)
      ensures Invariant() && Contents() == Fresh(initial)
    {
      inserted, steps := initial, [];
      run, materializationSealed, unitCount, firstAttemptCount, manifest := initial, false, None, None, None;
      guarded, units, attempts, tickets, starts := map[], map[], map[], {}, [];
    }

    /** Bookkeeping after a step. */
    ghost method Record(e: Event)
      requires Contents() == Step(After(Fresh(inserted), steps), e)
      modifies this`steps
      ensures steps == old(steps) + [e] && Contents() == After(Fresh(inserted), steps)
    {
      steps := steps + [e];
      assert steps[..|steps| - 1] == old(steps);
    }

    method StoreManifest(entries: seq<Entry>, canonical: bool) returns (ok: bool)
      requires Invariant()
      modifies this
      ensures Invariant() && Did(InsertManifest(entries, canonical), ok)
    {
      ok := false;
      if manifest.None? && !materializationSealed && canonical {
        ok := CheckUnits(entries);
        if ok {
          manifest := Some(entries);
        }
      }
      Record(InsertManifest(entries, canonical));
    }

    method CheckUnit(tx: int, unit: Unit) returns (ok: bool)
      requires Invariant()
      modifies this
      ensures Invariant() && Did(GuardUnit(tx, unit), ok)
    {
      ok := tx !in guarded && !materializationSealed && Bound(manifest, unit) && Initial(unit.state);
      if ok { guarded := guarded[tx := unit]; }
      Record(GuardUnit(tx, unit));
    }

    method CommitUnit(tx: int, id: int) returns (ok: bool)
      requires Invariant()
      modifies this
      ensures Invariant() && Did(WriteUnit(tx, id), ok)
    {
      ok := tx in guarded && id !in units && guarded[tx].ordinal > 0
        && forall x :: x in units ==>
             units[x].ordinal != guarded[tx].ordinal && units[x].binding.unitKey != guarded[tx].binding.unitKey;
      if ok { units, guarded := units[id := guarded[tx]], guarded - {tx}; }
      Record(WriteUnit(tx, id));
    }

    method StoreAttempt(id: int, attempt: Attempt) returns (ok: bool)
      requires Invariant()
      modifies this
      ensures Invariant() && Did(Event.InsertAttempt(id, attempt), ok)
    {
      ok := id !in attempts && attempt.unit in units && attempt.number > 0
        && IsNext(attempts, attempt.unit, attempt.number) && Initial(attempt.state);
      if ok && attempt.number > 1 {
        ok := materializationSealed && Dispatchable(run) && Dispatchable(units[attempt.unit].state)
          && HasRetryable(attempts, attempt.unit, attempt.number - 1);
      }
      if ok { attempts := attempts[id := attempt]; }
      Record(Event.InsertAttempt(id, attempt));
    }

    /** Counting is enough: when the seal may go ahead every unit has exactly one attempt, its
        first, still queued. */
    method CountForSeal(expected: int, admissible: bool, now: int)
      returns (ok: bool, storedUnits: int, storedFirst: int)
      requires Invariant()
      ensures ok == Sealable(Contents(), expected, admissible, now)
      ensures ok ==> UnitsOf(attempts) == units.Keys
      ensures ok ==> forall a :: a in attempts ==> attempts[a].number == 1 && attempts[a].state.lifecycle == Queued
      ensures storedUnits == |units| && storedFirst == |FirstAttempts(Contents())|
    {
      storedUnits, storedFirst := |units|, |set a | a in attempts && attempts[a].number == 1|;
      ok := run.revision == expected && !materializationSealed && manifest.Some?
        && 1 <= |manifest.value| <= MAX_UNITS
        && storedUnits == |manifest.value| && |attempts| == |manifest.value| && storedFirst == |manifest.value|
        && admissible && starts == [] && run.createdAt <= now;
      if ok {
        ReachableIsValid(inserted, steps);
        SealSeesFirstAttempts(Contents(), expected, admissible, now);
      }
    }

    method SealMaterialization(expected: int, admissible: bool, now: int) returns (ok: bool)
      requires Invariant()
      modifies this
      ensures Invariant() && Did(Seal(expected, admissible, now), ok)
    {
      var storedUnits, storedFirst;
      ok, storedUnits, storedFirst := CountForSeal(expected, admissible, now);
      if ok {
        materializationSealed, unitCount, firstAttemptCount := true, Some(storedUnits), Some(storedFirst);
        run := run.(revision := run.revision + 1, updatedAt := now);
        starts := starts + [Start(now)];
      }
      Record(Seal(expected, admissible, now));
    }

    method StoreTicket(id: int, admissible: bool) returns (ok: bool)
      requires Invariant()
      modifies this
      ensures Invariant() && Did(IssueTicket(id, admissible), ok)
    {
      ok := admissible && materializationSealed && Dispatchable(run) && id in attempts && id !in tickets
        && attempts[id].unit in units && attempts[id].state.lifecycle == Queued;
      if ok {
        var attempt, unit := attempts[id], units[attempts[id].unit];
        ok := if attempt.number == 1 then unit.state.lifecycle == Queued
          else unit.state.lifecycle == Lifecycle.Running && HasInfraError(attempts, attempt.unit, attempt.number - 1);
      }
      if ok { tickets := tickets + {id}; }
      Record(IssueTicket(id, admissible));
    }

    method TransitionAttempt(id: int, target: State) returns (ok: bool)
      requires Invariant()
      modifies this
      ensures Invariant() && Did(MoveAttempt(id, target), ok)
    {
      ok := materializationSealed && id in attempts && Accepted(attempts[id].state, target);
      if ok { attempts := attempts[id := attempts[id].(state := target)]; }
      Record(MoveAttempt(id, target));
    }

    method TransitionUnit(id: int, target: State) returns (ok: bool)
      requires Invariant()
      modifies this
      ensures Invariant() && Did(MoveUnit(id, target), ok)
    {
      ok := materializationSealed && id in units && Accepted(units[id].state, target);
      if ok { units := units[id := units[id].(state := target)]; }
      Record(MoveUnit(id, target));
    }

    method TransitionRun(target: State) returns (ok: bool)
      requires Invariant()
      modifies this
      ensures Invariant() && Did(MoveRun(target), ok)
    {
      ok := materializationSealed && Accepted(run, target);
      if ok { run := target; }
      Record(MoveRun(target));
    }
  }
}
