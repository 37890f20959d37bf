/** Reachable histories in which commands behave otherwise than their names suggest. */
module CommandExamples {
  import opened Sql
  import opened Sets
  import opened CommandDelivery
  import opened CommandRace
  import TS = TaskStates
  import TopK

  predicate PausedAfter(es: seq<Event>) {
    1 in After(EMPTY, es).runs && After(EMPTY, es).runs[1].state.lifecycle == TS.Paused
  }

  /** Run 1 was PAUSED at no time. */
  predicate NeverPaused(es: seq<Event>) {
    forall n {:trigger es[..n]} :: 0 <= n <= |es| ==> !PausedAfter(es[..n])
  }

  /** After these transactions there is run 1 only, which was never PAUSED, with these commands,
      all inserted as PENDING, and these look-ups. */
  ghost predicate At(es: seq<Event>, r: Run, commands: map<int, Row>, looked: map<int, (int, bool)>) {
    After(EMPTY, es) == World(map[1 := r], commands, looked) && PendingInserts(es) && NeverPaused(es)
  }

  lemma Extends(es: seq<Event>, w: World, e: Event, r: Run, commands: map<int, Row>, looked: map<int, (int, bool)>)
    returns (fs: seq<Event>)
    requires After(EMPTY, es) == w && PendingInserts(es) && NeverPaused(es)
    requires Next(w, e) == Some(World(map[1 := r], commands, looked)) && (e.Insert? ==> e.row.status == Pending)
    requires r.state.lifecycle != TS.Paused
    ensures At(fs, r, commands, looked)
  {
    fs := es + [e];
    assert fs[..|fs| - 1] == es;
    forall k | 0 <= k <= |fs| ensures !PausedAfter(fs[..k]) {
      if k <= |es| { assert fs[..k] == es[..k]; } else { assert fs[..k] == fs; }
    }
  }

  lemma Created(r: Run) returns (es: seq<Event>)
    requires !r.sealed && TS.Initial(r.state)
    ensures At(es, r, map[], map[])
  {
    Untouched(EMPTY, CreateRun(1, r));
    assert EMPTY.runs[1 := r] == map[1 := r];
    es := Extends([], EMPTY, CreateRun(1, r), r, map[], map[]);
  }

  lemma SealedThen(es: seq<Event>, r: Run, now: int) returns (fs: seq<Event>)
    requires At(es, r, map[], map[]) && !r.sealed && r.state.createdAt <= now && r.state.lifecycle != TS.Paused
    ensures At(fs, Sealed(r, now), map[], map[])
  {
    var w := World(map[1 := r], map[], map[]);
    Untouched(w, Seal(1, now));
    assert w.runs[1 := Sealed(r, now)] == map[1 := Sealed(r, now)];
    fs := Extends(es, w, Seal(1, now), Sealed(r, now), map[], map[]);
  }

  lemma Moved(es: seq<Event>, r: Run, commands: map<int, Row>, looked: map<int, (int, bool)>, target: TS.State)
    returns (fs: seq<Event>)
    requires At(es, r, commands, looked) && r.sealed && TS.Accepted(r.state, target) && target.lifecycle != TS.Paused
    ensures At(fs, r.(state := target), commands, looked)
  {
    var w := World(map[1 := r], commands, looked);
    Untouched(w, Move(1, target));
    assert w.runs[1 := r.(state := target)] == map[1 := r.(state := target)];
    fs := Extends(es, w, Move(1, target), r.(state := target), commands, looked);
  }

  lemma Stored(es: seq<Event>, r: Run, commands: map<int, Row>, row: Row) returns (fs: seq<Event>)
    requires At(es, r, commands, map[]) && r.state.lifecycle != TS.Paused
    requires Insertable(World(map[1 := r], commands, map[]), row) && row.status == Pending
    ensures At(fs, r, commands[row.identity.id := row], map[])
  {
    var w := World(map[1 := r], commands, map[]);
    fs := Extends(es, w, Insert(row), r, commands[row.identity.id := row], map[]);
  }

  /** A claim when there is a single, due command. */
  lemma ClaimedThen(es: seq<Event>, r: Run, id: int, row: Row, token: int, at: int) returns (fs: seq<Event>)
    requires At(es, r, map[id := row], map[]) && r.state.lifecycle != TS.Paused
    requires Eligible(row, at) && Accepted(row, Claim(token, "dispatcher", 60, at))
    ensures At(fs, r, map[id := Updated(row, Claim(token, "dispatcher", 60, at))], map[])
  {
    var w := World(map[1 := r], map[id := row], map[]);
    var e := ClaimBatch("dispatcher", row.identity.namespace, 1, 60, at, {}, map[id := token]);
    var due := Candidates(w, row.identity.namespace, at, {});
    assert due == {id};
    OnlyOne(Ranks(w), due, id);
    StepIsUpdate(w, e, id, Claim(token, "dispatcher", 60, at));
    var claimed := Updated(row, Claim(token, "dispatcher", 60, at));
    assert map[id := row][id := claimed] == map[id := claimed];
    fs := Extends(es, w, e, r, map[id := claimed], map[]);
  }

  lemma OnlyOne(ranks: map<int, TopK.Rank>, s: set<int>, id: int)
    requires s == {id} && s <= ranks.Keys
    ensures TopK.FirstK(ranks, s, 1) == {id}
  {
    TopK.FirstKIsTopK(ranks, s, 1);
    SubsetSize(TopK.FirstK(ranks, s, 1), s);
  }

  lemma LookedThen(es: seq<Event>, r: Run, id: int, row: Row, tx: int) returns (fs: seq<Event>)
    requires At(es, r, map[id := row], map[]) && row.identity.run == 1 && r.state.lifecycle != TS.Paused
    ensures At(fs, r, map[id := row], map[tx := (id, CanceledRun(World(map[1 := r], map[id := row], map[]), 1))])
  {
    var w := World(map[1 := r], map[id := row], map[]);
    Untouched(w, LookUp(tx, id));
    fs := Extends(es, w, LookUp(tx, id), r, map[id := row], map[tx := (id, CanceledRun(w, 1))]);
  }

  lemma FailedThen(
      es: seq<Event>, r: Run, id: int, row: Row, tx: int, canceled: bool, token: int, at: int)
    returns (fs: seq<Event>)
    requires At(es, r, map[id := row], map[tx := (id, canceled)]) && r.state.lifecycle != TS.Paused
    requires HeldBy(row, token, row.revision, at)
    requires Accepted(row, Fail(token, row.revision, "SIGNAL_FAILED", at, canceled))
    ensures var failed := Updated(row, Fail(token, row.revision, "SIGNAL_FAILED", at, canceled));
      At(fs, r, map[id := failed], map[tx := (id, canceled)])
  {
    var w := World(map[1 := r], map[id := row], map[tx := (id, canceled)]);
    var e := FailWith(tx, token, row.revision, "SIGNAL_FAILED", at);
    var c := Fail(token, row.revision, "SIGNAL_FAILED", at, canceled);
    StepIsUpdate(w, e, id, c);
    assert map[id := row][id := Updated(row, c)] == map[id := Updated(row, c)];
    fs := Extends(es, w, e, r, map[id := Updated(row, c)], map[tx := (id, canceled)]);
  }

  // ------------------------------------------------------------------------ histories

  /** Run 1 in some lifecycle, its quality still PENDING. */
  function Example(l: TS.Lifecycle, now: int, revision: int): Run {
    Run("atlas", true, TS.State(l, TS.Quality.Pending, TS.NotRequired, 0, now, Some(2), None, None, None, revision))
  }

  function ExamplePause(createdAt: int): Row { Inserted(Identity(7, 1, Pause, "atlas", 4, createdAt)) }

  function ExampleCancel(createdAt: int): Row { Inserted(Identity(8, 1, Cancel, "atlas", 5, createdAt)) }

  /** Run 1 created, sealed, started and asked to pause, at revision 4. */
  lemma PauseRequestedRun() returns (es: seq<Event>)
    ensures At(es, Example(TS.PauseRequested, 3, 4), map[], map[])
  {
    var created := Run("atlas", false, TS.State(
      TS.Queued, TS.Quality.Pending, TS.NotRequired, 0, 0, None, None, None, None, 1));
    es := Created(created);
    es := SealedThen(es, created, 1);
    es := Moved(es, Sealed(created, 1), map[], map[], Example(TS.Lifecycle.Running, 2, 3).state);
    es := Moved(es, Example(TS.Lifecycle.Running, 2, 3), map[], map[], Example(TS.PauseRequested, 3, 4).state);
  }

  lemma PauseStored(createdAt: int) returns (es: seq<Event>)
    ensures At(es, Example(TS.PauseRequested, 3, 4), map[7 := ExamplePause(createdAt)], map[])
  {
    es := PauseRequestedRun();
    es := Stored(es, Example(TS.PauseRequested, 3, 4), map[], ExamplePause(createdAt));
    assert map[][7 := ExamplePause(createdAt)] == map[7 := ExamplePause(createdAt)];
  }

  /** Canceling and closing the run, whatever happened to its commands. */
  lemma Canceled(es: seq<Event>, commands: map<int, Row>, looked: map<int, (int, bool)>)
    returns (fs: seq<Event>, closed: Run)
    requires At(es, Example(TS.PauseRequested, 3, 4), commands, looked)
    ensures At(fs, closed, commands, looked)
    ensures closed.state.lifecycle == TS.Closed && closed.state.quality == TS.Quality.Canceled
  {
    var canceling := Example(TS.Canceling, 12, 5);
    fs := Moved(es, Example(TS.PauseRequested, 3, 4), commands, looked, canceling.state);
    var finalizing := canceling.state.(
      lifecycle := TS.Finalizing, quality := TS.Quality.Canceled,
      finalizedAt := Some(13), updatedAt := 13, revision := 6);
    fs := Moved(fs, canceling, commands, looked, finalizing);
    closed := canceling.(
      state := finalizing.(lifecycle := TS.Closed, closedAt := Some(14), updatedAt := 14, revision := 7));
    fs := Moved(fs, canceling.(state := finalizing), commands, looked, closed.state);
  }

  function ExampleClaim(): Row { Updated(ExamplePause(10), Claim(5, "dispatcher", 60, 10)) }

  lemma PauseClaimed() returns (es: seq<Event>)
    ensures At(es, Example(TS.PauseRequested, 3, 4), map[7 := ExampleClaim()], map[])
  {
    es := PauseStored(10);
    es := ClaimedThen(es, Example(TS.PauseRequested, 3, 4), 7, ExamplePause(10), 5, 10);
  }

  /** APPLIED does not mean paused: after a history in which run 1 was never PAUSED its pause
      command reads APPLIED, because its delivery failed after the run had been canceled. */
  lemma FailedPauseReadsApplied() returns (es: seq<Event>)
    ensures PendingInserts(es) && NeverPaused(es)
    ensures var w := After(EMPTY, es);
      && 7 in w.commands && w.commands[7].identity.run == 1
      && w.commands[7].identity.kind == Pause && w.commands[7].status == Applied
  {
    var closed;
    es := PauseClaimed();
    es, closed := Canceled(es, map[7 := ExampleClaim()], map[]);
    es := LookedThen(es, closed, 7, ExampleClaim(), 1);
    es := FailedThen(es, closed, 7, ExampleClaim(), 1, true, 5, 20);
  }

  /** And the other way round, since the run is read without a lock: a failure that looked just
      before the closure is recorded as FAILED after it. */
  lemma FailureCanMissTheClosure() returns (es: seq<Event>)
    ensures PendingInserts(es)
    ensures var w := After(EMPTY, es);
      7 in w.commands && w.commands[7].status == Failed && CanceledRun(w, w.commands[7].identity.run)
  {
    var closed;
    es := PauseClaimed();
    es := LookedThen(es, Example(TS.PauseRequested, 3, 4), 7, ExampleClaim(), 1);
    es, closed := Canceled(es, map[7 := ExampleClaim()], map[1 := (7, false)]);
    es := FailedThen(es, closed, 7, ExampleClaim(), 1, false, 5, 11);
  }

  /** A pause created at 100, then a cancel created at 50 by a transaction that began then. */
  lemma PauseThenCancel() returns (es: seq<Event>)
    ensures At(es, Example(TS.Canceling, 101, 5), map[7 := ExamplePause(100), 8 := ExampleCancel(50)], map[])
  {
    var pause := map[7 := ExamplePause(100)];
    es := PauseStored(100);
    es := Moved(es, Example(TS.PauseRequested, 3, 4), pause, map[], Example(TS.Canceling, 101, 5).state);
    es := Stored(es, Example(TS.Canceling, 101, 5), pause, ExampleCancel(50));
    assert pause[8 := ExampleCancel(50)] == map[7 := ExamplePause(100), 8 := ExampleCancel(50)];
  }

  lemma RefusedUpdateAborts(w: World, e: Event, id: int, c: Call)
    requires Admitted(w, e) && id in w.commands && Touch(w, e, id) == Some(c) && !Accepted(w.commands[id], c)
    ensures Next(w, e).None?
  {
  }

  /** A supersession can abort: its transaction began at 50, before a pause command was created
      at 100, and its update of that row violates the shape CHECK. */
  lemma SupersessionCanAbort() returns (es: seq<Event>, e: Event)
    ensures PendingInserts(es) && e.SupersedeAll?
    ensures Admitted(After(EMPTY, es), e) && Next(After(EMPTY, es), e).None?
  {
    es := PauseThenCancel();
    e := SupersedeAll(1, 8, 50);
    RefusedUpdateAborts(After(EMPTY, es), e, 7, Supersede(8, 50));
  }

  /** The insert guard lets a command in that never was PENDING: a pause that reads APPLIED
      although its run was never PAUSED. */
  lemma CommandNeedNotStartPending() returns (es: seq<Event>, row: Row)
    ensures PendingInserts(es) && NeverPaused(es) && row.identity.run == 1
    ensures Insertable(After(EMPTY, es), row) && row.identity.kind == Pause && row.status == Applied
  {
    es := PauseRequestedRun();
    row := Updated(ExamplePause(10), Apply(10));
  }
}
