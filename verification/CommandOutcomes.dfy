/** Exactly when each command procedure takes effect, and what it then leaves, told from the
    columns of commands and runs in every reachable world whose commands were inserted as
    PENDING. */
module CommandOutcomes {
  import opened Sql
  import opened CommandDelivery
  import opened CommandRace
  import TS = TaskStates

  /** Still to be settled. */
  predicate Unsettled(r: Row) {
    match r.status
    case Pending => true
    case Claimed => true
    case RetryWait => true
    case Delivered => true
    case _ => false
  }

  predicate IsControl(r: Row) { r.identity.kind == Pause || r.identity.kind == Resume }

  /** The claim with this token and revision is unexpired. */
  predicate Holds(r: Row, token: int, expected: int, at: int) {
    && r.status == Claimed && r.claimToken == Some(token) && r.revision == expected
    && r.claimExpiresAt.Some? && at < r.claimExpiresAt.value
  }

  /** `r` is `before` after one more update at `at`, in a new status, its claim given up. */
  predicate Settled(before: Row, r: Row, status: Status, at: int) {
    && r.identity == before.identity && r.status == status
    && r.claimToken.None? && r.claimedBy.None? && r.claimedAt.None? && r.claimExpiresAt.None?
    && r.attempts == before.attempts && r.revision == before.revision + 1 && r.updatedAt == at
    && (status != RetryWait ==> r.availableAt == before.availableAt)
    && (status != Delivered ==> r.deliveredAt == before.deliveredAt)
    && r.appliedAt == (if status == Applied then Some(at) else None)
  }

  /** The step changed row `id` alone. */
  predicate OnlyRow(w: World, n: World, id: int) {
    && n.runs == w.runs && n.looked == w.looked && n.commands.Keys == w.commands.Keys
    && forall x :: x in w.commands && x != id ==> n.commands[x] == w.commands[x]
  }

  lemma UnappliedHasNoTime(es: seq<Event>)
    requires PendingInserts(es)
    ensures var w := After(EMPTY, es);
      forall x :: x in w.commands && w.commands[x].status != Applied ==> w.commands[x].appliedAt.None?
  {
    var hs := ReachableIsTracked(es);
  }

  lemma UpdateCommits(es: seq<Event>, e: Event, id: int, c: Call)
    requires PendingInserts(es) && Changes(After(EMPTY, es), e, id, c) && !e.ClaimBatch?
    ensures var w := After(EMPTY, es);
      && (Next(w, e).Some? <==> w.commands[id].identity.createdAt <= c.at)
      && (Next(w, e).Some? ==>
            OnlyRow(w, Next(w, e).value, id) && Next(w, e).value.commands[id] == Updated(w.commands[id], c))
      && (w.commands[id].status != Applied ==> w.commands[id].appliedAt.None?)
  {
    var w := After(EMPTY, es);
    UnappliedHasNoTime(es);
    TransactionsNeverAbort(es, e);
    StepIsUpdate(w, e, id, c);
  }

  // -------------------------------------------------------------------------- apply

  /** The state of run and command in which the command applies. */
  predicate Ready(w: World, r: Row) {
    match r.identity.kind
    case Cancel =>
      && RunReads(w, r.identity.run, TS.Closed, TS.Quality.Canceled)
      && (r.status == Claimed || r.status == Delivered)
    case Pause => RunReads(w, r.identity.run, TS.Paused, TS.Quality.Pending) && Unsettled(r)
    case Resume => RunReads(w, r.identity.run, TS.Lifecycle.Running, TS.Quality.Pending) && Unsettled(r)
  }

  /** An unapplied command applies if and only if it and its run are ready and the transaction
      began no earlier than the command was created. */
  lemma AppliesExactly(es: seq<Event>, id: int, at: int)
    requires PendingInserts(es) && id in After(EMPTY, es).commands && After(EMPTY, es).commands[id].status != Applied
    ensures var w := After(EMPTY, es); var n := Next(w, ApplyCommand(id, w.commands[id].identity.kind, at));
      && (n.Some? <==> Ready(w, w.commands[id]) && w.commands[id].identity.createdAt <= at)
      && (n.Some? ==> OnlyRow(w, n.value, id) && Settled(w.commands[id], n.value.commands[id], Applied, at))
  {
    var w := After(EMPTY, es);
    var e := ApplyCommand(id, w.commands[id].identity.kind, at);
    assert Admitted(w, e) <==> Ready(w, w.commands[id]);
    if Admitted(w, e) { UpdateCommits(es, e, id, Apply(at)); }
  }

  // --------------------------------------------------------------- deliver, retry, fail

  /** A delivery is recorded if and only if the claim still holds. */
  lemma DeliversExactly(es: seq<Event>, id: int, token: int, expected: int, at: int)
    requires PendingInserts(es)
    ensures var w := After(EMPTY, es); var n := Next(w, Settle(id, Deliver(token, expected, at)));
      && (n.Some? <==>
            id in w.commands && Holds(w.commands[id], token, expected, at) && w.commands[id].identity.createdAt <= at)
      && (n.Some? ==>
            && OnlyRow(w, n.value, id) && Settled(w.commands[id], n.value.commands[id], Delivered, at)
            && n.value.commands[id].deliveredAt == Some(at))
  {
    var w := After(EMPTY, es);
    var e := Settle(id, Deliver(token, expected, at));
    if Admitted(w, e) { UpdateCommits(es, e, id, Deliver(token, expected, at)); }
  }

  /** A retry, with a delay between 100 ms and one hour, likewise. */
  lemma RetriesExactly(es: seq<Event>, id: int, token: int, expected: int, code: string, delay: int, at: int)
    requires PendingInserts(es)
    ensures var w := After(EMPTY, es); var n := Next(w, Settle(id, Retry(token, expected, code, delay, at)));
      && (n.Some? <==>
            && 100 <= delay <= 3_600_000
            && id in w.commands && Holds(w.commands[id], token, expected, at)
            && w.commands[id].identity.createdAt <= at)
      && (n.Some? ==>
            && OnlyRow(w, n.value, id) && Settled(w.commands[id], n.value.commands[id], RetryWait, at)
            && n.value.commands[id].availableAt == at + delay
            && n.value.commands[id].lastErrorCode == Some(code) && n.value.commands[id].lastErrorAt == Some(at))
  {
    var w := After(EMPTY, es);
    var e := Settle(id, Retry(token, expected, code, delay, at));
    if Admitted(w, e) { UpdateCommits(es, e, id, Retry(token, expected, code, delay, at)); }
  }

  /** A failure likewise; it reads APPLIED, its error erased, if the run was found closed as
      canceled, and FAILED with the error otherwise. */
  lemma FailsExactly(es: seq<Event>, tx: int, token: int, expected: int, code: string, at: int)
    requires PendingInserts(es) && tx in After(EMPTY, es).looked
    ensures var w := After(EMPTY, es); var n := Next(w, FailWith(tx, token, expected, code, at));
      var (id, canceled) := w.looked[tx];
      && id in w.commands
      && (n.Some? <==> Holds(w.commands[id], token, expected, at) && w.commands[id].identity.createdAt <= at)
      && (n.Some? ==>
            && OnlyRow(w, n.value, id)
            && Settled(w.commands[id], n.value.commands[id], if canceled then Applied else Failed, at)
            && n.value.commands[id].lastErrorCode == (if canceled then None else Some(code))
            && n.value.commands[id].lastErrorAt == (if canceled then None else Some(at))
            && n.value.commands[id].failedAt == (if canceled then None else Some(at)))
  {
    var w := After(EMPTY, es);
    LookedIsTrue(es);
    var e := FailWith(tx, token, expected, code, at);
    if Admitted(w, e) { UpdateCommits(es, e, w.looked[tx].0, Fail(token, expected, code, at, w.looked[tx].1)); }
  }

  // --------------------------------------------------------------------- supersede

  /** What supersession changes: the unsettled pause and resume commands of the run. */
  predicate IsSuperseded(r: Row, run: int) { r.identity.run == run && IsControl(r) && Unsettled(r) }

  lemma SupersessionTouches(w: World, run: int, by_: int, at: int)
    requires WellKeyed(w) && Admitted(w, SupersedeAll(run, by_, at))
    ensures forall x :: x in w.commands ==>
      Touch(w, SupersedeAll(run, by_, at), x)
        == if IsSuperseded(w.commands[x], run) then Some(Supersede(by_, at)) else None
  {
  }

  /** Exactly the unsettled pause and resume commands of the run read SUPERSEDED by this one. */
  predicate SupersededBy(w: World, n: World, run: int, by_: int, at: int) {
    && n.runs == w.runs && n.looked == w.looked && n.commands.Keys == w.commands.Keys
    && forall x :: x in w.commands ==>
         if IsSuperseded(w.commands[x], run) then
           && Settled(w.commands[x], n.commands[x], Superseded, at)
           && n.commands[x].supersededAt == Some(at) && n.commands[x].supersededBy == Some(by_)
         else n.commands[x] == w.commands[x]
  }

  lemma SupersessionEffect(w: World, run: int, by_: int, at: int)
    requires WellKeyed(w) && Next(w, SupersedeAll(run, by_, at)).Some?
    requires forall x :: x in w.commands && w.commands[x].status != Applied ==> w.commands[x].appliedAt.None?
    ensures SupersededBy(w, Next(w, SupersedeAll(run, by_, at)).value, run, by_, at)
  {
    SupersessionTouches(w, run, by_, at);
  }

  lemma SupersessionCommits(es: seq<Event>, run: int, by_: int, at: int)
    requires PendingInserts(es) && Admitted(After(EMPTY, es), SupersedeAll(run, by_, at))
    ensures var w := After(EMPTY, es);
      Next(w, SupersedeAll(run, by_, at)).Some? <==>
        forall x :: x in w.commands && IsSuperseded(w.commands[x], run) ==> w.commands[x].identity.createdAt <= at
  {
    OneOpenControl(es);
    SupersessionTouches(After(EMPTY, es), run, by_, at);
    TransactionsNeverAbort(es, SupersedeAll(run, by_, at));
  }

  /** Supersession takes effect if and only if it names a cancel command of a canceling run and
      began no earlier than the commands it supersedes were created. */
  lemma SupersedesExactly(es: seq<Event>, run: int, by_: int, at: int)
    requires PendingInserts(es)
    ensures var w := After(EMPTY, es); var n := Next(w, SupersedeAll(run, by_, at));
      && (n.Some? <==>
            && by_ in w.commands && w.commands[by_].identity.kind == Cancel && w.commands[by_].identity.run == run
            && run in w.runs && w.runs[run].state.lifecycle == TS.Canceling
            && forall x :: x in w.commands && IsSuperseded(w.commands[x], run) ==>
                 w.commands[x].identity.createdAt <= at)
      && (n.Some? ==> SupersededBy(w, n.value, run, by_, at))
  {
    var w := After(EMPTY, es);
    if Admitted(w, SupersedeAll(run, by_, at)) { SupersessionCommits(es, run, by_, at); }
    if Next(w, SupersedeAll(run, by_, at)).Some? {
      OneOpenControl(es);
      UnappliedHasNoTime(es);
      SupersessionEffect(w, run, by_, at);
    }
  }

  // ------------------------------------------------------------------------ insert

  /** The run state a command is accepted in. */
  predicate Accepting(w: World, i: Identity) {
    && i.run in w.runs && w.runs[i.run].sealed && w.runs[i.run].namespace == i.namespace
    && w.runs[i.run].state.revision == i.acceptedRevision
    && match i.kind
       case Cancel => RunReads(w, i.run, TS.Canceling, TS.Quality.Pending)
       case Pause => RunReads(w, i.run, TS.PauseRequested, TS.Quality.Pending)
       case Resume => RunReads(w, i.run, TS.Paused, TS.Quality.Pending)
  }

  predicate NotBefore(t: Option<int>, created: int) { t.Some? ==> created <= t.value }

  /** What the CHECKs demand of a row, column by column. */
  predicate Consistent(r: Row) {
    var s, created := r.status, r.identity.createdAt;
    && (if s == Claimed then
          && r.claimToken.Some? && r.claimedAt.Some? && r.claimExpiresAt.Some?
          && r.claimedAt.value < r.claimExpiresAt.value
        else
          r.claimToken.None? && r.claimedBy.None? && r.claimedAt.None? && r.claimExpiresAt.None?)
    && (r.appliedAt.Some? <==> s == Applied)
    && (r.failedAt.Some? ==> s == Failed && r.failedAt == r.lastErrorAt)
    && (r.supersededAt.Some? <==> s == Superseded) && (r.supersededBy.Some? <==> s == Superseded)
    && (r.supersededBy.Some? ==> r.supersededBy.value != r.identity.id)
    && (s == Pending || s == Claimed || s == RetryWait ==> r.deliveredAt.None?)
    && (s == Delivered ==> r.deliveredAt.Some?)
    && (s == Pending ==> r.lastErrorCode.None? && r.lastErrorAt.None?)
    && (s == RetryWait || s == Failed ==> r.lastErrorCode.Some? && r.lastErrorAt.Some?)
    && (s == Pending ==> r.availableAt == created)
    && (s == RetryWait ==> r.lastErrorAt.value < r.availableAt)
    && (s == Pending ==> r.attempts == 0 && r.revision == 0)
    && (s != Pending ==> r.attempts >= (if s == Applied || s == Superseded then 0 else 1))
    && (s != Pending ==> r.revision >= (if s == RetryWait || s == Delivered || s == Failed then 2 else 1))
    && NotBefore(r.lastErrorAt, created) && NotBefore(r.deliveredAt, created) && NotBefore(r.appliedAt, created)
    && NotBefore(r.failedAt, created) && NotBefore(r.supersededAt, created) && created <= r.updatedAt
  }

  lemma ShapeMeans(r: Row)
    ensures Shape(r) <==> Consistent(r)
  {
  }

  /** A command is stored if and only if its columns are consistent, its run is in the state its
      kind asks for, at the revision it names, and, if it is an unsettled pause or resume, no
      other of the run is unsettled.  A PENDING one must have its delivery columns untouched. */
  lemma InsertsExactly(es: seq<Event>, row: Row)
    ensures var w := After(EMPTY, es); var n := Next(w, Insert(row));
      && (n.Some? <==>
            && row.identity.id !in w.commands && Accepting(w, row.identity) && Consistent(row)
            && (IsControl(row) && Unsettled(row) ==>
                  forall x :: x in w.commands && w.commands[x].identity.run == row.identity.run ==>
                    !(IsControl(w.commands[x]) && Unsettled(w.commands[x]))))
      && (n.Some? ==> n.value == w.(commands := w.commands[row.identity.id := row]))
    ensures row.status == Pending ==>
      (Consistent(row) <==>
         row == Inserted(row.identity).(updatedAt := row.updatedAt) && row.identity.createdAt <= row.updatedAt)
  {
    ShapeMeans(row);
  }

  lemma StepKeepsShape(w: World, e: Event)
    requires Next(w, e).Some? && forall x :: x in w.commands ==> Shape(w.commands[x])
    ensures forall x :: x in Next(w, e).value.commands ==> Shape(Next(w, e).value.commands[x])
  {
  }

  lemma {:induction false} ReachableIsShaped(es: seq<Event>)
    ensures forall x :: x in After(EMPTY, es).commands ==> Shape(After(EMPTY, es).commands[x])
    decreases |es|
  {
    if es != [] {
      var init, e := es[..|es| - 1], es[|es| - 1];
      ReachableIsShaped(init);
      if Next(After(EMPTY, init), e).Some? { StepKeepsShape(After(EMPTY, init), e); }
    }
  }

  /** Every stored command, however inserted and updated, is consistent. */
  lemma StoredCommandsAreConsistent(es: seq<Event>, id: int)
    requires id in After(EMPTY, es).commands
    ensures Consistent(After(EMPTY, es).commands[id])
  {
    ReachableIsShaped(es);
    ShapeMeans(After(EMPTY, es).commands[id]);
  }

  // ------------------------------------------------------------- statuses of one row

  /** The status one update that trigger and CHECKs accept can lead to. */
  predicate StatusFollows(a: Status, b: Status) {
    match a
    case Pending => b == Claimed || b == Applied || b == Superseded
    case RetryWait => b == Claimed || b == Applied || b == Superseded
    case Claimed => b != Pending
    case Delivered => b == Applied || b == Superseded
    case _ => false
  }

  lemma NextStatuses(r: Row, s: Status)
    requires Consistent(r)
    ensures StatusFollows(r.status, s) <==> exists n :: Guard(r, n) && Consistent(n) && n.status == s
  {
    if StatusFollows(r.status, s) {
      var n := Follower(r, s);
      assert Guard(r, n) && n.status == s;
      assert Consistent(n);
    }
  }

  function Follower(r: Row, s: Status): Row {
    var at, error := r.identity.createdAt, s == RetryWait || s == Failed;
    Row(r.identity, s, if s == RetryWait then at + 1 else r.availableAt,
        if s == Claimed then Some(0) else None, None,
        if s == Claimed then Some(at) else None, if s == Claimed then Some(at + 1) else None,
        r.attempts + 1,
        if error then Some("") else r.lastErrorCode, if error then Some(at) else r.lastErrorAt,
        if s == Delivered then Some(at) else r.deliveredAt,
        if s == Applied then Some(at) else None, if s == Failed then Some(at) else None,
        if s == Superseded then Some(at) else None, if s == Superseded then Some(r.identity.id + 1) else None,
        r.revision + 1, r.updatedAt)
  }

  /** So every stored command, in whatever status it is now, was accepted by its run at one
      earlier moment. */
  lemma {:induction false} CommandWasAccepted(es: seq<Event>, id: int) returns (q: nat)
    requires id in After(EMPTY, es).commands
    ensures q < |es| && es[q].Insert? && es[q].row.identity == After(EMPTY, es).commands[id].identity
    ensures After(EMPTY, es).commands[id].identity.id == id
    ensures Accepting(After(EMPTY, es[..q]), After(EMPTY, es).commands[id].identity)
    decreases |es|
  {
    var init, e := es[..|es| - 1], es[|es| - 1];
    var w := After(EMPTY, init);
    OneOpenControl(es);
    if id in w.commands {
      q := CommandWasAccepted(init, id);
      assert es[..q] == init[..q];
      if Next(w, e).Some? && !e.Insert? { TouchKeeps(w, e, id); }
    } else {
      q := |es| - 1;
    }
  }
}
