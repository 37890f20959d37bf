/** The state columns shared by task runs, execution units and unit attempts, the guard on
    their updates, and the revision compare-and-swap of the transition procedures. */
module TaskStates {
  import opened Sql

  datatype Lifecycle = Queued | Running | PauseRequested | Paused | Canceling | Finalizing | Closed
  datatype Quality = Pending | Passed | Failed | Blocked | Inconclusive | InfraError | Canceled
  datatype Hygiene = NotRequired | Pending | Running | Cleaned | CleanupFailed | Leaked

  datatype State = State(
    lifecycle: Lifecycle, quality: Quality, hygiene: Hygiene,
    createdAt: int, updatedAt: int,
    startedAt: Option<int>, finalizedAt: Option<int>, cleanupResolvedAt: Option<int>, closedAt: Option<int>,
    revision: int)

  predicate LifecycleStep(a: Lifecycle, b: Lifecycle) {
    || a == b
    || (a == Queued && b in {Lifecycle.Running, Canceling, Finalizing})
    || (a == Lifecycle.Running && b in {PauseRequested, Canceling, Finalizing})
    || (a == PauseRequested && b in {Lifecycle.Running, Paused, Canceling, Finalizing})
    || (a == Paused && b in {Lifecycle.Running, Canceling, Finalizing})
    || (a == Canceling && b == Finalizing)
    || (a == Finalizing && b == Closed)
  }

  predicate HygieneStep(a: Hygiene, b: Hygiene) {
    || a == b
    || (a == Hygiene.Pending && b == Hygiene.Running)
    || (a == Hygiene.Running && b in {Cleaned, CleanupFailed, Leaked})
    || (a == CleanupFailed && b in {Hygiene.Running, Leaked})
  }

  predicate From(t: Option<int>, floor: Option<int>) {
    t.Some? && floor.Some? ==> floor.value <= t.value
  }

  /** The state-shape CHECK. */
  predicate Shape(s: State) {
    && s.createdAt <= s.updatedAt
    && From(s.startedAt, Some(s.createdAt)) && From(s.finalizedAt, Some(s.createdAt))
    && From(s.cleanupResolvedAt, Some(s.createdAt)) && From(s.closedAt, Some(s.createdAt))
    && From(s.finalizedAt, s.startedAt)
    && (s.lifecycle == Queued ==> s.startedAt.None?)
    && (s.lifecycle in {Lifecycle.Running, PauseRequested, Paused} ==> s.startedAt.Some?)
    && (s.quality == Quality.Pending <==> s.finalizedAt.None?)
    && (s.quality == Quality.Pending || s.lifecycle in {Finalizing, Closed})
    && (s.hygiene in {Cleaned, Leaked} <==> s.cleanupResolvedAt.Some?)
    && (s.lifecycle == Closed <==> s.closedAt.Some?)
    && (s.lifecycle == Closed ==> s.quality != Quality.Pending)
    && From(s.closedAt, s.finalizedAt)
  }

  predicate KeptOnce(a: Option<int>, b: Option<int>) { a.Some? ==> b == a }

  /** The update trigger. */
  predicate Guard(a: State, b: State) {
    && a.createdAt == b.createdAt
    && LifecycleStep(a.lifecycle, b.lifecycle)
    && HygieneStep(a.hygiene, b.hygiene)
    && (a.lifecycle == Closed ==>
          && b.lifecycle == Closed && b.quality == a.quality
          && b.startedAt == a.startedAt && b.finalizedAt == a.finalizedAt && b.closedAt == a.closedAt)
    && (a.quality != Quality.Pending ==> b.quality == a.quality)
    && KeptOnce(a.startedAt, b.startedAt) && KeptOnce(a.finalizedAt, b.finalizedAt)
    && KeptOnce(a.cleanupResolvedAt, b.cleanupResolvedAt) && KeptOnce(a.closedAt, b.closedAt)
    && b.revision == a.revision + 1
  }

  predicate Accepted(a: State, b: State) { Guard(a, b) && Shape(b) }

  /** Columns a newly inserted row must have. */
  predicate Initial(s: State) {
    && s.revision == 1 && s.lifecycle == Queued && s.quality == Quality.Pending
    && s.hygiene in {Hygiene.Pending, NotRequired} && Shape(s)
  }

  // --------------------------------------------------------------- reachability

  function Rank(s: Lifecycle): nat {
    match s
    case Queued => 0
    case Running => 1
    case PauseRequested => 1
    case Paused => 1
    case Canceling => 2
    case Finalizing => 3
    case Closed => 4
  }

  /** Lifecycles are ordered by rank; RUNNING, PAUSE_REQUESTED and PAUSED alternate freely. */
  predicate LifecycleReaches(a: Lifecycle, b: Lifecycle) { Rank(a) <= Rank(b) }

  predicate HygieneReaches(a: Hygiene, b: Hygiene) {
    || a == b
    || (a == Hygiene.Pending && b != NotRequired)
    || (a in {Hygiene.Running, CleanupFailed} && b in {Hygiene.Running, CleanupFailed, Cleaned, Leaked})
  }

  predicate LifecyclePath(p: seq<Lifecycle>) {
    forall i :: 0 < i < |p| ==> LifecycleStep(p[i - 1], p[i])
  }

  predicate HygienePath(p: seq<Hygiene>) {
    forall i :: 0 < i < |p| ==> HygieneStep(p[i - 1], p[i])
  }

  /** The rank order is exactly the reflexive-transitive closure of the relation. */
  lemma {:induction false} LifecycleReachability(a: Lifecycle, b: Lifecycle)
    ensures LifecycleReaches(a, b) <==> exists p :: LifecyclePath(p) && |p| > 0 && p[0] == a && p[|p| - 1] == b
  {
    if LifecycleReaches(a, b) {
      var p := LifecycleRoute(a, b);
      assert LifecyclePath(p);
    }
    forall p | LifecyclePath(p) && |p| > 0 && p[0] == a && p[|p| - 1] == b ensures LifecycleReaches(a, b) {
      LifecyclePathClimbs(p, 0, |p| - 1);
    }
  }

  lemma {:induction false} LifecyclePathClimbs(p: seq<Lifecycle>, i: nat, j: nat)
    requires LifecyclePath(p) && i <= j < |p|
    ensures LifecycleReaches(p[i], p[j])
    decreases j
  {
    if i < j {
      LifecyclePathClimbs(p, i, j - 1);
      assert LifecycleStep(p[j - 1], p[j]);
    }
  }

  lemma LifecycleRoute(a: Lifecycle, b: Lifecycle) returns (p: seq<Lifecycle>)
    requires LifecycleReaches(a, b)
    ensures LifecyclePath(p) && |p| > 0 && p[0] == a && p[|p| - 1] == b
  {
    p := if a == b then [a]
      else if Rank(b) == 1 then [a] + Pausing(a, b)
      else if b == Closed then (if a == Finalizing then [a, b] else [a, Finalizing, b])
      else [a, b];
  }

  /** From a state of rank at most 1 to one of RUNNING, PAUSE_REQUESTED, PAUSED. */
  function Pausing(a: Lifecycle, b: Lifecycle): seq<Lifecycle> {
    if LifecycleStep(a, b) then [b]
    else if b == PauseRequested then [Lifecycle.Running, b]
    else if a == Lifecycle.Running then [PauseRequested, b]
    else [Lifecycle.Running, PauseRequested, b]
  }

  lemma {:induction false} HygieneReachability(a: Hygiene, b: Hygiene)
    ensures HygieneReaches(a, b) <==> exists p :: HygienePath(p) && |p| > 0 && p[0] == a && p[|p| - 1] == b
  {
    if HygieneReaches(a, b) {
      var p := HygieneRoute(a, b);
      assert HygienePath(p);
    }
    forall p | HygienePath(p) && |p| > 0 && p[0] == a && p[|p| - 1] == b ensures HygieneReaches(a, b) {
      HygienePathClimbs(p, 0, |p| - 1);
    }
  }

  lemma {:induction false} HygienePathClimbs(p: seq<Hygiene>, i: nat, j: nat)
    requires HygienePath(p) && i <= j < |p|
    ensures HygieneReaches(p[i], p[j])
    decreases j
  {
    if i < j {
      HygienePathClimbs(p, i, j - 1);
      assert HygieneStep(p[j - 1], p[j]);
    }
  }

  lemma HygieneRoute(a: Hygiene, b: Hygiene) returns (p: seq<Hygiene>)
    requires HygieneReaches(a, b)
    ensures HygienePath(p) && |p| > 0 && p[0] == a && p[|p| - 1] == b
  {
    p := if a == b then [a]
      else if HygieneStep(a, b) then [a, b]
      else [a, Hygiene.Running, b];
  }

  // ------------------------------------------------------------- single updates

  predicate LifecycleFollows(a: Lifecycle, b: Lifecycle) {
    match a
    case Queued => b != PauseRequested && b != Paused && b != Closed
    case Running => b != Queued && b != Paused && b != Closed
    case PauseRequested => b != Queued && b != Closed
    case Paused => b != Queued && b != PauseRequested && b != Closed
    case Canceling => b == Canceling || b == Finalizing
    case Finalizing => b == Finalizing || b == Closed
    case Closed => b == Closed
  }

  predicate HygieneFollows(a: Hygiene, b: Hygiene) {
    match a
    case NotRequired => b == NotRequired
    case Pending => b == Hygiene.Pending || b == Hygiene.Running
    case Running => b != NotRequired && b != Hygiene.Pending
    case Cleaned => b == Cleaned
    case CleanupFailed => b == CleanupFailed || b == Hygiene.Running || b == Leaked
    case Leaked => b == Leaked
  }

  /** Lifecycle and hygiene move independently, and a quality is decided once, not before
      FINALIZING and not after CLOSED. */
  predicate StateFollows(s: State, l: Lifecycle, q: Quality, y: Hygiene) {
    && LifecycleFollows(s.lifecycle, l) && HygieneFollows(s.hygiene, y)
    && (s.quality != Quality.Pending ==> q == s.quality)
    && (q != Quality.Pending ==> l == Finalizing || l == Closed)
    && (l == Closed ==> q != Quality.Pending)
  }

  /** What one accepted update can make of a valid row, exactly. */
  lemma NextStates(s: State, l: Lifecycle, q: Quality, y: Hygiene)
    requires Shape(s)
    ensures StateFollows(s, l, q, y) <==> exists t :: Becomes(s, t, l, q, y)
  {
    forall t | Becomes(s, t, l, q, y) ensures StateFollows(s, l, q, y) { BecomesFollows(s, t, l, q, y); }
    if StateFollows(s, l, q, y) {
      FollowerIsAccepted(s, l, q, y);
    }
  }

  /** t is an accepted update of s that reads l, q, y. */
  predicate Becomes(s: State, t: State, l: Lifecycle, q: Quality, y: Hygiene) {
    Accepted(s, t) && t.lifecycle == l && t.quality == q && t.hygiene == y
  }

  lemma BecomesFollows(s: State, t: State, l: Lifecycle, q: Quality, y: Hygiene)
    requires Shape(s) && Becomes(s, t, l, q, y)
    ensures StateFollows(s, l, q, y)
  {
  }

  lemma FollowerIsAccepted(s: State, l: Lifecycle, q: Quality, y: Hygiene)
    requires Shape(s) && StateFollows(s, l, q, y)
    ensures Becomes(s, Follower(s, l, q, y), l, q, y)
  {
    assert Guard(s, Follower(s, l, q, y));
  }

  /** The given state after `s`, with each milestone set when it is first reached. */
  function Follower(s: State, l: Lifecycle, q: Quality, y: Hygiene): State {
    var started := if s.startedAt.None? && l in {Lifecycle.Running, PauseRequested, Paused} then Some(s.createdAt)
      else s.startedAt;
    var finalized := if s.finalizedAt.Some? || q == Quality.Pending then s.finalizedAt
      else if s.startedAt.Some? then s.startedAt else Some(s.createdAt);
    var resolved := if s.cleanupResolvedAt.None? && y in {Cleaned, Leaked} then Some(s.createdAt)
      else s.cleanupResolvedAt;
    var closed := if s.closedAt.None? && l == Closed then finalized else s.closedAt;
    State(l, q, y, s.createdAt, s.updatedAt, started, finalized, resolved, closed, s.revision + 1)
  }

  /** A newly inserted row: nothing has happened to it. */
  lemma InitialMeans(s: State)
    ensures Initial(s) <==>
      && s.revision == 1 && s.lifecycle == Queued && s.quality == Quality.Pending
      && (s.hygiene == Hygiene.Pending || s.hygiene == NotRequired)
      && s.startedAt.None? && s.finalizedAt.None? && s.cleanupResolvedAt.None? && s.closedAt.None?
      && s.createdAt <= s.updatedAt
  {
  }

  // ------------------------------------------------------------------- histories

  /** The successive states of one row. */
  predicate History(h: seq<State>) {
    (h != [] ==> Shape(h[0])) && forall i :: 0 < i < |h| ==> AcceptedAt(h, i)
  }

  predicate AcceptedAt(h: seq<State>, i: nat)
    requires 0 < i < |h|
  {
    Accepted(h[i - 1], h[i])
  }

  lemma HistoryExtends(h: seq<State>, s: State)
    requires h != [] && History(h) && Accepted(h[|h| - 1], s)
    ensures History(h + [s])
  {
    forall i: nat | 0 < i < |h + [s]| ensures AcceptedAt(h + [s], i) {
      if i < |h| { assert AcceptedAt(h, i); }
    }
  }

  /** Everything an earlier state fixes about a later one. */
  predicate Evolves(a: State, b: State) {
    && LifecycleReaches(a.lifecycle, b.lifecycle)
    && HygieneReaches(a.hygiene, b.hygiene)
    && (a.quality != Quality.Pending ==> b.quality == a.quality)
    && KeptOnce(a.startedAt, b.startedAt) && KeptOnce(a.finalizedAt, b.finalizedAt)
    && KeptOnce(a.cleanupResolvedAt, b.cleanupResolvedAt) && KeptOnce(a.closedAt, b.closedAt)
    && (a.lifecycle == Closed ==> b.startedAt == a.startedAt && b.quality == a.quality && a.quality != Quality.Pending)
    && a.createdAt == b.createdAt && a.revision <= b.revision
  }

  lemma {:induction false} HistoryEvolves(h: seq<State>, i: nat, j: nat)
    requires History(h) && i <= j < |h|
    ensures Evolves(h[i], h[j]) && h[j].revision == h[i].revision + (j - i) && Shape(h[j])
    decreases j
  {
    if i == j {
      assert j > 0 ==> AcceptedAt(h, j);
    } else {
      HistoryEvolves(h, i, j - 1);
      assert AcceptedAt(h, j);
    }
  }

  /** In every state of a row the milestones are set exactly when reached, and in order. */
  lemma MilestonesAreInOrder(h: seq<State>, j: nat)
    requires History(h) && j < |h|
    ensures var s := h[j];
      && (s.lifecycle == Queued ==> s.startedAt.None?)
      && (s.lifecycle == Lifecycle.Running || s.lifecycle == PauseRequested || s.lifecycle == Paused ==>
            s.startedAt.Some?)
      && (s.quality != Quality.Pending <==> s.finalizedAt.Some?) && (s.lifecycle == Closed <==> s.closedAt.Some?)
      && (s.closedAt.Some? ==> s.finalizedAt.Some?)
      && (s.finalizedAt.Some? ==> s.lifecycle == Finalizing || s.lifecycle == Closed)
      && (s.hygiene == Cleaned || s.hygiene == Leaked <==> s.cleanupResolvedAt.Some?)
      && s.createdAt <= s.updatedAt
      && (s.startedAt.Some? ==> s.createdAt <= s.startedAt.value)
      && (s.finalizedAt.Some? ==> s.createdAt <= s.finalizedAt.value)
      && (s.startedAt.Some? && s.finalizedAt.Some? ==> s.startedAt.value <= s.finalizedAt.value)
      && (s.closedAt.Some? ==> s.finalizedAt.value <= s.closedAt.value)
      && (s.cleanupResolvedAt.Some? ==> s.createdAt <= s.cleanupResolvedAt.value)
  {
    HistoryEvolves(h, j, j);
  }

  /** A row's quality is decided at most once: a prefix of its history is PENDING and
      the rest has one value. */
  lemma QualityDecidedOnce(h: seq<State>, i: nat, j: nat, k: nat)
    requires History(h) && i < j < k < |h|
    ensures h[i].quality == h[j].quality || h[j].quality == h[k].quality
  {
    HistoryEvolves(h, i, j);
    HistoryEvolves(h, j, k);
  }

  /** Compare-and-swap: the revision a caller must expect names one position in the row's
      history, so at most one of the callers expecting it ever succeeds. */
  lemma ExpectedRevisionIsUsedOnce(h: seq<State>, i: nat, j: nat)
    requires History(h) && i < |h| && j < |h| && h[i].revision == h[j].revision
    ensures i == j
  {
    if i <= j { HistoryEvolves(h, i, j); } else { HistoryEvolves(h, j, i); }
  }

  /** No row is ever stuck: every valid state that is not closed can be closed in at most two
      more updates, an undecided one with any quality. */
  lemma CanAlwaysClose(s: State, q: Quality, now: int) returns (h: seq<State>)
    requires Shape(s) && s.lifecycle != Closed && s.updatedAt <= now
    requires From(Some(now), s.startedAt) && From(Some(now), s.finalizedAt)
    requires q != Quality.Pending && (s.quality != Quality.Pending ==> q == s.quality)
    ensures 2 <= |h| <= 3 && h[0] == s && History(h)
    ensures h[|h| - 1].lifecycle == Closed && h[|h| - 1].quality == q && h[|h| - 1].hygiene == s.hygiene
  {
    var decided := s.(lifecycle := Finalizing, quality := q,
      finalizedAt := if s.finalizedAt.Some? then s.finalizedAt else Some(now), updatedAt := now,
      revision := s.revision + 1);
    if s.lifecycle == Finalizing {
      h := [s, decided.(lifecycle := Closed, closedAt := Some(now))];
    } else {
      h := [s, decided, decided.(lifecycle := Closed, closedAt := Some(now), revision := s.revision + 2)];
    }
  }

  // --------------------------------------------------------------------- the row

  datatype Outcome = Ok | NotSealed | RevisionConflict | Rejected

  /** A run, unit or attempt row under its transition procedure. */
  class TaskRow {
    var state: State
    ghost var history: seq<State>

    ghost predicate Valid()
      reads this
    {
      History(history) && history != [] && history[|history| - 1] == state
    }

    constructor (s: State)
      requires Initial(s)
      ensures Valid() && state == s && history == [s]
    {
      state, history := s, [s];
    }

    /** `target` carries the new columns; the procedure itself sets the revision. */
    method Transition(runSealed: bool, expected: int, target: State) returns (outcome: Outcome)
      requires Valid()
      modifies this
      ensures Valid()
      ensures outcome == Ok <==>
        && runSealed && old(state).revision == expected
        && Accepted(old(state), target.(createdAt := old(state).createdAt, revision := expected + 1))
      ensures outcome == Ok ==>
        && state == target.(createdAt := old(state).createdAt, revision := expected + 1)
        && history == old(history) + [state]
      ensures outcome != Ok ==> state == old(state) && history == old(history)
      ensures outcome == RevisionConflict <==> runSealed && old(state).revision != expected
    {
      if !runSealed { return NotSealed; }
      if state.revision != expected { return RevisionConflict; }
      var next := target.(createdAt := state.createdAt, revision := state.revision + 1);
      if !Accepted(state, next) { return Rejected; }
      HistoryExtends(history, next);
      state := next;
      history := history + [next];
      outcome := Ok;
    }
  }
}
