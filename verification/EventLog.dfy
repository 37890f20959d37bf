/** The event log of a task run: numbered without gaps, and faithful to the rows it reports on. */
module EventLog {
  import opened Sql
  import opened TaskStates
  import opened Sets

  datatype Target = OfRun | OfUnit(unit: int) | OfAttempt(attempt: int)

  datatype Event = Event(
    id: int, target: Target, seq_: int,
    lifecycle: Lifecycle, quality: Quality, hygiene: Hygiene,
    occurredAt: int)

  /** A row and everything it has been.  `base` is its queue time, for a unit its creation. */
  datatype Row = Row(base: int, history: seq<State>)

  /** `positions` records how long the reported row's history was when an event was stored. */
  datatype World = World(rows: map<Target, Row>, events: map<int, Event>, positions: map<int, nat>)

  const EMPTY := World(map[], map[], map[])

  function Current(r: Row): State
    requires r.history != []
  {
    r.history[|r.history| - 1]
  }

  function Later(a: int, b: Option<int>): int { if b.Some? && b.value > a then b.value else a }

  /** `greatest` of the base and the milestones reached. */
  function Floor(base: int, s: State): (f: int)
    ensures f >= base && From(Some(f), s.startedAt) && From(Some(f), s.finalizedAt)
    ensures From(Some(f), s.closedAt) && From(Some(f), s.cleanupResolvedAt)
  {
    Later(Later(Later(Later(base, s.startedAt), s.finalizedAt), s.closedAt), s.cleanupResolvedAt)
  }

  /** No earlier time is at or after the base and every milestone. */
  lemma FloorIsLeast(base: int, s: State, f: int)
    requires base <= f && From(Some(f), s.startedAt) && From(Some(f), s.finalizedAt)
    requires From(Some(f), s.closedAt) && From(Some(f), s.cleanupResolvedAt)
    ensures Floor(base, s) <= f
  {
  }

  datatype Step =
    | AddRow(target: Target, base: int, initial: State)
    | Move(target: Target, next: State)
    | Append(event: Event)

  /** `n` is coalesce(max(seq), 0) + 1. */
  predicate IsNext(events: map<int, Event>, n: int) {
    (forall q :: q in events ==> q < n) && (n == 1 || n - 1 in events)
  }

  predicate Reports(e: Event, s: State) {
    e.lifecycle == s.lifecycle && e.quality == s.quality && e.hygiene == s.hygiene
  }

  predicate Recordable(w: World, e: Event) {
    && OfRun in w.rows && e.target in w.rows && w.rows[e.target].history != []
    && (forall q :: q in w.events ==> w.events[q].id != e.id) && e.seq_ !in w.events
    && Reports(e, Current(w.rows[e.target]))
    && IsNext(w.events, e.seq_) && e.seq_ > 0
    && Floor(w.rows[e.target].base, Current(w.rows[e.target])) <= e.occurredAt
  }

  predicate Admitted(w: World, s: Step) {
    match s
    case AddRow(target, _, initial) => target !in w.rows && Initial(initial)
    case Move(target, next) =>
      target in w.rows && w.rows[target].history != [] && Accepted(Current(w.rows[target]), next)
    case Append(e) => Recordable(w, e)
  }

  function Next(w: World, s: Step): World {
    if !Admitted(w, s) then w
    else match s
      case AddRow(target, base, initial) => w.(rows := w.rows[target := Row(base, [initial])])
      case Move(target, next) =>
        w.(rows := w.rows[target := w.rows[target].(history := w.rows[target].history + [next])])
      case Append(e) =>
        w.(events := w.events[e.seq_ := e], positions := w.positions[e.seq_ := |w.rows[e.target].history| - 1])
  }

  function After(w: World, steps: seq<Step>): World
    decreases |steps|
  {
    if steps == [] then w else Next(After(w, steps[..|steps| - 1]), steps[|steps| - 1])
  }

  // ------------------------------------------------------------------- invariants

  predicate Gapless(w: World) {
    && w.events.Keys == Numbers(|w.events|) && w.positions.Keys == w.events.Keys
    && forall q :: q in w.events ==> w.events[q].seq_ == q
  }

  predicate RowsAreHistories(w: World) {
    forall t :: t in w.rows ==> w.rows[t].history != [] && History(w.rows[t].history)
  }

  /** Event q shows its row as it was at its position. */
  predicate Shows(w: World, q: int)
    requires q in w.events && q in w.positions
  {
    var e, p := w.events[q], w.positions[q];
    && e.target in w.rows && p < |w.rows[e.target].history|
    && Reports(e, w.rows[e.target].history[p])
    && Floor(w.rows[e.target].base, w.rows[e.target].history[p]) <= e.occurredAt
  }

  predicate Sampled(w: World) {
    && w.positions.Keys == w.events.Keys
    && (forall q {:trigger Shows(w, q)} :: q in w.events ==> Shows(w, q))
    && forall q, r {:trigger InOrder(w, q, r)} :: q in w.events && r in w.events && q < r ==> InOrder(w, q, r)
  }

  predicate InOrder(w: World, q: int, r: int)
    requires q in w.events && r in w.events && w.positions.Keys == w.events.Keys
  {
    w.events[q].target == w.events[r].target ==> w.positions[q] <= w.positions[r]
  }

  lemma NextNumber(events: map<int, Event>, n: int)
    requires events.Keys == Numbers(|events|) && n > 0
    ensures IsNext(events, n) <==> n == |events| + 1
    ensures Numbers(|events| + 1) == Numbers(|events|) + {|events| + 1}
  {
    assert |events| > 0 ==> |events| in events.Keys;
  }

  lemma NextKeepsGapless(w: World, s: Step)
    requires Gapless(w)
    ensures Gapless(Next(w, s))
  {
    if s.Append? && Admitted(w, s) {
      NextNumber(w.events, s.event.seq_);
      assert w.events[s.event.seq_ := s.event].Keys == w.events.Keys + {s.event.seq_};
    }
  }

  lemma NextKeepsHistories(w: World, s: Step)
    requires RowsAreHistories(w)
    ensures RowsAreHistories(Next(w, s))
  {
    if s.Move? && Admitted(w, s) {
      var h := w.rows[s.target].history;
      HistoryExtends(h, s.next);
    }
  }

  /** The rows may grow at the end; what an event shows does not change. */
  predicate Grows(a: map<Target, Row>, b: map<Target, Row>) {
    forall t :: t in a ==> t in b && b[t].base == a[t].base && a[t].history <= b[t].history
  }

  lemma NextGrows(w: World, s: Step)
    ensures Grows(w.rows, Next(w, s).rows)
  {
  }

  lemma GrowsKeepsShown(a: World, b: World, q: int)
    requires Grows(a.rows, b.rows) && q in a.events && q in a.positions && Shows(a, q)
    requires q in b.events && q in b.positions && b.events[q] == a.events[q] && b.positions[q] == a.positions[q]
    ensures Shows(b, q)
  {
    var t, p := a.events[q].target, a.positions[q];
    assert a.rows[t].history[p] == b.rows[t].history[p];
  }

  lemma GrowsKeepsSampled(a: World, b: World)
    requires Sampled(a) && Grows(a.rows, b.rows) && b.events == a.events && b.positions == a.positions
    ensures Sampled(b)
  {
    forall q | q in b.events ensures Shows(b, q) {
      assert Shows(a, q);
      GrowsKeepsShown(a, b, q);
    }
    forall q, r | q in b.events && r in b.events && q < r ensures InOrder(b, q, r) { assert InOrder(a, q, r); }
  }

  lemma AppendIsInOrder(w: World, e: Event, q: int)
    requires Gapless(w) && Sampled(w) && Recordable(w, e) && q in w.events
    ensures q < e.seq_ && InOrder(Next(w, Append(e)), q, e.seq_)
  {
    assert Shows(w, q);
  }

  lemma AppendKeepsShown(w: World, e: Event, q: int)
    requires Sampled(w) && Recordable(w, e) && q in Next(w, Append(e)).events
    ensures Shows(Next(w, Append(e)), q)
  {
    if q != e.seq_ {
      assert Shows(w, q);
      GrowsKeepsShown(w, Next(w, Append(e)), q);
    }
  }

  lemma AppendKeepsSampled(w: World, e: Event)
    requires Gapless(w) && Sampled(w) && Recordable(w, e)
    ensures Sampled(Next(w, Append(e)))
  {
    var n := Next(w, Append(e));
    forall q | q in n.events ensures Shows(n, q) { AppendKeepsShown(w, e, q); }
    forall q, r | q in n.events && r in n.events && q < r ensures InOrder(n, q, r) {
      if r == e.seq_ {
        AppendIsInOrder(w, e, q);
      } else if q == e.seq_ {
        AppendIsInOrder(w, e, r);
      } else {
        assert InOrder(w, q, r);
      }
    }
  }

  lemma NextKeepsSampled(w: World, s: Step)
    requires Gapless(w) && Sampled(w)
    ensures Sampled(Next(w, s))
  {
    NextGrows(w, s);
    if s.Append? {
      if Admitted(w, s) { AppendKeepsSampled(w, s.event); }
    } else {
      GrowsKeepsSampled(w, Next(w, s));
    }
  }

  lemma {:induction false} ReachableIsFaithful(steps: seq<Step>)
    ensures Faithful(After(EMPTY, steps))
    decreases |steps|
  {
    if steps != [] {
      var v, s := After(EMPTY, steps[..|steps| - 1]), steps[|steps| - 1];
      ReachableIsFaithful(steps[..|steps| - 1]);
      NextKeepsHistories(v, s);
      NextKeepsGapless(v, s);
      NextKeepsSampled(v, s);
    } else {
      assert Numbers(0) == {};
    }
  }

  // --------------------------------------------------------------- what a log tells

  /** A later state or event is reachable from an earlier event; a decided quality stays. */
  predicate Leads(e: Event, lifecycle: Lifecycle, quality: Quality, hygiene: Hygiene) {
    && LifecycleReaches(e.lifecycle, lifecycle) && HygieneReaches(e.hygiene, hygiene)
    && (e.quality != Quality.Pending ==> quality == e.quality)
    && (e.lifecycle == Closed ==> quality == e.quality && quality != Quality.Pending)
  }

  lemma HistoryLeads(h: seq<State>, p: nat, r: nat, e: Event)
    requires History(h) && p <= r < |h| && Reports(e, h[p])
    ensures Leads(e, h[r].lifecycle, h[r].quality, h[r].hygiene)
  {
    HistoryEvolves(h, p, r);
  }

  predicate Faithful(w: World) { RowsAreHistories(w) && Gapless(w) && Sampled(w) }

  lemma EventsLead(w: World, q: int, r: int)
    requires Faithful(w) && q in w.events && r in w.events && q <= r && w.events[q].target == w.events[r].target
    ensures var f := w.events[r]; Leads(w.events[q], f.lifecycle, f.quality, f.hygiene)
  {
    assert Shows(w, q) && Shows(w, r);
    assert q < r ==> InOrder(w, q, r);
    HistoryLeads(w.rows[w.events[q].target].history, w.positions[q], w.positions[r], w.events[q]);
  }

  /** Each recorded state leads to the current one. */
  lemma EventsLeadToNow(w: World, q: int)
    requires Faithful(w) && q in w.events
    ensures w.events[q].target in w.rows && w.rows[w.events[q].target].history != []
    ensures var now := Current(w.rows[w.events[q].target]); Leads(w.events[q], now.lifecycle, now.quality, now.hygiene)
  {
    assert Shows(w, q);
    var h := w.rows[w.events[q].target].history;
    HistoryLeads(h, w.positions[q], |h| - 1, w.events[q]);
  }

  /** Whatever the rows went through: numbers are exactly 1 to n; per run, unit or attempt the
      recorded states are a sample of its true history in order, on a path to its current
      state; and no event predates a milestone of the state it reports. */
  lemma LogIsFaithful(steps: seq<Step>)
    ensures var w := After(EMPTY, steps);
      && w.events.Keys == Numbers(|w.events|)
      && (forall q, r :: q in w.events && r in w.events && q <= r && w.events[q].target == w.events[r].target
            ==> Leads(w.events[q], w.events[r].lifecycle, w.events[r].quality, w.events[r].hygiene))
      && Sampled(w)
  {
    var w := After(EMPTY, steps);
    ReachableIsFaithful(steps);
    forall q, r | q in w.events && r in w.events && q <= r && w.events[q].target == w.events[r].target
      ensures Leads(w.events[q], w.events[r].lifecycle, w.events[r].quality, w.events[r].hygiene)
    {
      EventsLead(w, q, r);
    }
  }

  /** Among the events of one row the quality changes at most once. */
  lemma QualityChangesOnce(w: World, q: int, r: int, s: int)
    requires Faithful(w) && q in w.events && r in w.events && s in w.events && q < r < s
    requires w.events[q].target == w.events[r].target == w.events[s].target
    ensures w.events[q].quality == w.events[r].quality || w.events[r].quality == w.events[s].quality
  {
    EventsLead(w, q, r);
    EventsLead(w, r, s);
  }

  // ----------------------------------------------------------------------- the tables

  /** The state rows of one run and its append-only log. */
  class TaskLog {
    var rows: map<Target, (int, State)>
    var events: map<int, Event>
    ghost var steps: seq<Step>

    ghost predicate Valid()
      reads this
    {
      var w := After(EMPTY, steps);
      && events == w.events && RowsAreHistories(w) && Gapless(w)
      && rows.Keys == w.rows.Keys
      && forall t :: t in rows ==> w.rows[t].history != [] && rows[t] == (w.rows[t].base, Current(w.rows[t]))
    }

    constructor ()
      ensures Valid() && steps == []
    {
      rows, events, steps := map[], map[], [];
      new;
      assert Numbers(0) == {};
    }

    ghost method Record(s: Step)
      requires RowsAreHistories(After(EMPTY, steps)) && Gapless(After(EMPTY, steps))
      modifies this`steps
      ensures steps == old(steps) + [s] && After(EMPTY, steps) == Next(After(EMPTY, old(steps)), s)
      ensures RowsAreHistories(After(EMPTY, steps)) && Gapless(After(EMPTY, steps))
    {
      NextKeepsHistories(After(EMPTY, steps), s);
      NextKeepsGapless(After(EMPTY, steps), s);
      steps := steps + [s];
      assert steps[..|steps| - 1] == old(steps);
    }

    method InsertRow(target: Target, base: int, initial: State) returns (ok: bool)
      requires Valid()
      modifies this
      ensures Valid() && steps == old(steps) + [AddRow(target, base, initial)]
      ensures ok == Admitted(After(EMPTY, old(steps)), AddRow(target, base, initial))
    {
      ok := target !in rows && Initial(initial);
      if ok { rows := rows[target := (base, initial)]; }
      Record(AddRow(target, base, initial));
    }

    method Transition(target: Target, next: State) returns (ok: bool)
      requires Valid()
      modifies this
      ensures Valid() && steps == old(steps) + [Move(target, next)]
      ensures ok == Admitted(After(EMPTY, old(steps)), Move(target, next))
    {
      ok := target in rows && Accepted(rows[target].1, next);
      if ok { rows := rows[target := (rows[target].0, next)]; }
      Record(Move(target, next));
    }

    method InsertEvent(e: Event) returns (ok: bool)
      requires Valid()
      modifies this
      ensures Valid() && steps == old(steps) + [Append(e)]
      ensures ok == Recordable(After(EMPTY, old(steps)), e)
      ensures ok ==> e.seq_ == |old(events)| + 1 && events == old(events)[e.seq_ := e]
    {
      assert |events.Keys| == |events|;
      ok := OfRun in rows && e.target in rows
        && (forall q :: q in events ==> events[q].id != e.id) && e.seq_ !in events
        && Reports(e, rows[e.target].1)
        && IsNext(events, e.seq_) && e.seq_ > 0
        && Floor(rows[e.target].0, rows[e.target].1) <= e.occurredAt;
      if ok { events := events[e.seq_ := e]; }
      Record(Append(e));
    }
  }
}
