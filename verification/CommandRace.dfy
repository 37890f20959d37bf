/** Commands and runs together: who may insert, settle, apply and supersede what, and why a
    cancellation wins over pause and resume for good. */
module CommandRace {
  import opened Sql
  import opened CommandDelivery
  import TaskStates
  import TopK

  datatype Run = Run(namespace: string, sealed: bool, state: TaskStates.State)

  /** `looked` holds what transactions about to report a failure have read: the command, and
      whether its run was closed as canceled. */
  datatype World = World(runs: map<int, Run>, commands: map<int, Row>, looked: map<int, (int, bool)>)

  const EMPTY := World(map[], map[], map[])

  /** One transaction, except that reporting a failure reads the run without a lock in one
      step and updates the command in a later one. */
  datatype Event =
    | CreateRun(run: int, initial: Run)
    | Seal(run: int, now: int)
    | Move(run: int, target: TaskStates.State)
    | Insert(row: Row)
    | ClaimBatch(
        claimant: string, namespace: string, limit: int, lease: int, at: int, locked: set<int>, tokens: map<int, int>)
    | Settle(id: int, call: Call)
    | LookUp(tx: int, id: int)
    | FailWith(tx: int, token: int, expected: int, code: string, at: int)
    | ApplyCommand(id: int, kind: Kind, at: int)
    | SupersedeAll(run: int, by_: int, at: int)

  function LifecycleFor(k: Kind): TaskStates.Lifecycle {
    match k
    case Cancel => TaskStates.Canceling
    case Pause => TaskStates.PauseRequested
    case Resume => TaskStates.Paused
  }

  predicate CanceledRun(w: World, run: int) {
    && run in w.runs
    && w.runs[run].state.lifecycle == TaskStates.Closed && w.runs[run].state.quality == TaskStates.Quality.Canceled
  }

  /** The run a command may be applied against. */
  predicate Applicable(w: World, run: int, k: Kind) {
    if k == Cancel then CanceledRun(w, run) else
      && run in w.runs && w.runs[run].state.quality == TaskStates.Quality.Pending
      && w.runs[run].state.lifecycle == (if k == Pause then TaskStates.Paused else TaskStates.Lifecycle.Running)
  }

  /** The insert trigger, shape CHECKs and the partial unique index on open pause and resume
      commands.  The trigger does not look at the delivery columns. */
  predicate Insertable(w: World, r: Row) {
    && r.identity.id !in w.commands && r.identity.run in w.runs && Shape(r)
    && var run := w.runs[r.identity.run];
    && run.sealed && run.namespace == r.identity.namespace
    && run.state.lifecycle == LifecycleFor(r.identity.kind) && run.state.quality == TaskStates.Quality.Pending
    && run.state.revision == r.identity.acceptedRevision
    && (OpenControl(r) ==>
          forall x :: x in w.commands && w.commands[x].identity.run == r.identity.run ==> !OpenControl(w.commands[x]))
  }

  /** Selected by a claim: due, in the namespace, not locked by another transaction. */
  function Candidates(w: World, namespace: string, at: int, locked: set<int>): set<int> {
    set x | x in w.commands && x !in locked
      && w.commands[x].identity.namespace == namespace && Eligible(w.commands[x], at)
  }

  function Ranks(w: World): map<int, TopK.Rank> {
    map x | x in w.commands :: TopK.Rank(w.commands[x].availableAt, w.commands[x].identity.createdAt)
  }

  /** What a claim selects, told from the columns. */
  predicate Claimable(r: Row, namespace: string, at: int) {
    && r.identity.namespace == namespace
    && match r.status
       case Pending => r.availableAt <= at
       case RetryWait => r.availableAt <= at
       case Claimed => r.claimExpiresAt.Some? && r.claimExpiresAt.value <= at
       case _ => false
  }

  /** `a` is served before `b`: it became available earlier, or was created earlier, or has the
      smaller id. */
  predicate ServedBefore(a: Row, b: Row) {
    if a.availableAt != b.availableAt then a.availableAt < b.availableAt
    else if a.identity.createdAt != b.identity.createdAt then a.identity.createdAt < b.identity.createdAt
    else a.identity.id < b.identity.id
  }

  /** The batch of a claim: up to `limit` unlocked claimable rows, none of which is served after
      a claimable row that is left out. */
  predicate IsBatch(
      rows: map<int, Row>, claimed: set<int>, namespace: string, limit: int, at: int, locked: set<int>)
  {
    var due := set x | x in rows && x !in locked && Claimable(rows[x], namespace, at);
    && claimed <= due && |claimed| == (if |due| < limit then |due| else limit)
    && forall x, y :: x in claimed && y in due && y !in claimed ==> ServedBefore(rows[x], rows[y])
  }

  lemma ClaimableMeans(r: Row, namespace: string, at: int)
    ensures Claimable(r, namespace, at) <==> r.identity.namespace == namespace && Eligible(r, at)
  {
  }

  lemma FirstRowsAreBatch(w: World, namespace: string, limit: nat, at: int, locked: set<int>)
    requires WellKeyed(w)
    ensures IsBatch(
      w.commands, TopK.FirstK(Ranks(w), Candidates(w, namespace, at, locked), limit), namespace, limit, at, locked)
  {
    var rows, due := w.commands, Candidates(w, namespace, at, locked);
    forall x | x in rows
      ensures Claimable(rows[x], namespace, at) <==>
        rows[x].identity.namespace == namespace && Eligible(rows[x], at)
    {
      ClaimableMeans(rows[x], namespace, at);
    }
    assert due == set x | x in rows && x !in locked && Claimable(rows[x], namespace, at);
    TopK.FirstKIsTopK(Ranks(w), due, limit);
    var claimed := TopK.FirstK(Ranks(w), due, limit);
    forall x, y | x in claimed && y in due && y !in claimed ensures ServedBefore(rows[x], rows[y]) {
      assert TopK.Before(Ranks(w), x, y);
    }
  }

  /** The checks a procedure makes before it updates anything. */
  predicate Admitted(w: World, e: Event) {
    match e
    case CreateRun(run, initial) => run !in w.runs && !initial.sealed && TaskStates.Initial(initial.state)
    case Seal(run, now) => run in w.runs && !w.runs[run].sealed && w.runs[run].state.createdAt <= now
    case Move(run, target) => run in w.runs && w.runs[run].sealed && TaskStates.Accepted(w.runs[run].state, target)
    case Insert(row) => Insertable(w, row)
    case ClaimBatch(_, _, limit, lease, _, _, tokens) =>
      1 <= limit <= 100 && 1 <= lease <= 900 && w.commands.Keys <= tokens.Keys
    case Settle(id, call) =>
      && id in w.commands && (call.Deliver? || call.Retry?) && ValidArguments(call) && Selects(w.commands[id], call)
    case LookUp(tx, id) => tx !in w.looked && id in w.commands
    case FailWith(tx, token, expected, code, at) =>
      && tx in w.looked && w.looked[tx].0 in w.commands
      && Selects(w.commands[w.looked[tx].0], Fail(token, expected, code, at, w.looked[tx].1))
    case ApplyCommand(id, kind, at) =>
      && id in w.commands && w.commands[id].identity.kind == kind
      && (w.commands[id].status == Applied
          || (Selects(w.commands[id], Apply(at)) && Applicable(w, w.commands[id].identity.run, kind)))
    case SupersedeAll(run, by_, _) =>
      && by_ in w.commands && w.commands[by_].identity.run == run && w.commands[by_].identity.kind == Cancel
      && run in w.runs && w.runs[run].state.lifecycle == TaskStates.Canceling
  }

  /** The update an admitted transaction makes to one command row, if any. */
  function Touch(w: World, e: Event, id: int): Option<Call>
    requires Admitted(w, e) && id in w.commands
  {
    match e
    case ClaimBatch(claimant, namespace, limit, lease, at, locked, tokens) =>
      if id in TopK.FirstK(Ranks(w), Candidates(w, namespace, at, locked), limit)
      then Some(Claim(tokens[id], claimant, lease, at)) else None
    case Settle(target, call) => if id == target then Some(call) else None
    case FailWith(tx, token, expected, code, at) =>
      if id == w.looked[tx].0 then Some(Fail(token, expected, code, at, w.looked[tx].1)) else None
    case ApplyCommand(target, _, at) =>
      if id == target && w.commands[id].status != Applied then Some(Apply(at)) else None
    case SupersedeAll(run, by_, at) =>
      if w.commands[id].identity.run == run && Selects(w.commands[id], Supersede(by_, at)) then
        Some(Supersede(by_, at))
      else
        None
    case _ => None
  }

  function Touched(w: World, e: Event, id: int): Row
    requires Admitted(w, e) && id in w.commands
  {
    if Touch(w, e, id).Some? then Updated(w.commands[id], Touch(w, e, id).value) else w.commands[id]
  }

  /** Trigger and CHECKs let every row update of the transaction through. */
  predicate AllAccepted(w: World, e: Event)
    requires Admitted(w, e)
  {
    forall id :: id in w.commands && Touch(w, e, id).Some? ==> Accepted(w.commands[id], Touch(w, e, id).value)
  }

  function Sealed(r: Run, now: int): Run {
    r.(sealed := true, state := r.state.(revision := r.state.revision + 1, updatedAt := now))
  }

  function NextRuns(w: World, e: Event): map<int, Run>
    requires Admitted(w, e)
  {
    match e
    case CreateRun(run, initial) => w.runs[run := initial]
    case Seal(run, now) => w.runs[run := Sealed(w.runs[run], now)]
    case Move(run, target) => w.runs[run := w.runs[run].(state := target)]
    case _ => w.runs
  }

  function NextCommands(w: World, e: Event): map<int, Row>
    requires Admitted(w, e)
  {
    if e.Insert? then w.commands[e.row.identity.id := e.row]
    else map id | id in w.commands :: Touched(w, e, id)
  }

  function NextLooked(w: World, e: Event): map<int, (int, bool)>
    requires Admitted(w, e)
  {
    match e
    case LookUp(tx, id) => w.looked[tx := (id, CanceledRun(w, w.commands[id].identity.run))]
    case _ => w.looked
  }

  /** A transaction commits with its effect, or has none. */
  function Next(w: World, e: Event): Option<World> {
    if Admitted(w, e) && AllAccepted(w, e) then
      Some(World(NextRuns(w, e), NextCommands(w, e), NextLooked(w, e)))
    else
      None
  }

  function After(w: World, es: seq<Event>): World
    decreases |es|
  {
    if es == [] then w
    else match Next(After(w, es[..|es| - 1]), es[|es| - 1])
      case Some(n) => n
      case None => After(w, es[..|es| - 1])
  }

  // ---------------------------------------------------- what a transaction amounts to

  function UpdatedAll(rows: map<int, Row>, calls: map<int, Call>): map<int, Row> {
    map x | x in rows :: if x in calls then Updated(rows[x], calls[x]) else rows[x]
  }

  /** A transaction that makes exactly these calls, each on its row. */
  ghost predicate ChangesAll(w: World, e: Event, calls: map<int, Call>) {
    && Admitted(w, e) && calls.Keys <= w.commands.Keys && !e.Insert?
    && NextRuns(w, e) == w.runs && NextLooked(w, e) == w.looked
    && forall x :: x in w.commands ==> Touch(w, e, x) == if x in calls then Some(calls[x]) else None
  }

  lemma BatchIsAccepted(w: World, e: Event, calls: map<int, Call>)
    requires ChangesAll(w, e, calls)
    ensures AllAccepted(w, e) <==> forall x :: x in calls ==> Accepted(w.commands[x], calls[x])
  {
  }

  lemma BatchCommands(w: World, e: Event, calls: map<int, Call>)
    requires ChangesAll(w, e, calls)
    ensures NextCommands(w, e) == UpdatedAll(w.commands, calls)
  {
  }

  lemma StepIsBatch(w: World, e: Event, calls: map<int, Call>)
    requires ChangesAll(w, e, calls)
    ensures Next(w, e) ==
      if forall x :: x in calls ==> Accepted(w.commands[x], calls[x]) then
        Some(w.(commands := UpdatedAll(w.commands, calls)))
      else
        None
  {
    BatchCommands(w, e, calls);
    BatchIsAccepted(w, e, calls);
  }

  /** A transaction that makes call `c` on row `id` and touches no other row. */
  ghost predicate Changes(w: World, e: Event, id: int, c: Call) {
    && Admitted(w, e) && id in w.commands && !e.Insert? && NextRuns(w, e) == w.runs && NextLooked(w, e) == w.looked
    && Touch(w, e, id) == Some(c)
    && forall x :: x in w.commands && x != id ==> Touch(w, e, x).None?
  }

  lemma StepIsUpdate(w: World, e: Event, id: int, c: Call)
    requires Changes(w, e, id, c)
    ensures Next(w, e) ==
      if Accepted(w.commands[id], c) then Some(w.(commands := w.commands[id := Updated(w.commands[id], c)])) else None
  {
    var n := w.commands[id := Updated(w.commands[id], c)];
    assert forall x :: x in w.commands ==> Touched(w, e, x) == n[x];
    assert NextCommands(w, e) == n;
  }

  lemma Untouched(w: World, e: Event)
    requires !e.Insert? && (Admitted(w, e) ==> forall x :: x in w.commands ==> Touch(w, e, x).None?)
    ensures Next(w, e) == if Admitted(w, e) then Some(World(NextRuns(w, e), w.commands, NextLooked(w, e))) else None
  {
    if Admitted(w, e) { assert NextCommands(w, e) == w.commands; }
  }

  // --------------------------------------------------------------- at most one open

  predicate AtMostOneOpen(w: World) {
    forall x, y ::
      x in w.commands && y in w.commands && x != y && OpenControl(w.commands[x]) && OpenControl(w.commands[y])
      ==> w.commands[x].identity.run != w.commands[y].identity.run
  }

  predicate WellKeyed(w: World) {
    forall x :: x in w.commands ==> w.commands[x].identity.id == x
  }

  /** No update reopens a command or changes what it is. */
  lemma TouchKeeps(w: World, e: Event, id: int)
    requires Admitted(w, e) && AllAccepted(w, e) && id in w.commands
    ensures Touched(w, e, id).identity == w.commands[id].identity
    ensures Open(Touched(w, e, id)) ==> Open(w.commands[id])
    ensures !Open(w.commands[id]) ==> Touched(w, e, id) == w.commands[id]
  {
    if Touch(w, e, id).Some? {
      assert Guard(w.commands[id], Updated(w.commands[id], Touch(w, e, id).value));
    }
  }

  /** The index is needed at inserts only: no update of any procedure can violate it. */
  lemma StepKeepsOneOpen(w: World, e: Event)
    requires WellKeyed(w) && AtMostOneOpen(w) && Next(w, e).Some?
    ensures WellKeyed(Next(w, e).value) && AtMostOneOpen(Next(w, e).value)
  {
    forall id | id in w.commands
      ensures Touched(w, e, id).identity == w.commands[id].identity
      ensures Open(Touched(w, e, id)) ==> Open(w.commands[id])
    {
      TouchKeeps(w, e, id);
    }
  }

  /** In every reachable world a run has at most one open pause or resume command. */
  lemma {:induction false} OneOpenControl(es: seq<Event>)
    ensures WellKeyed(After(EMPTY, es)) && AtMostOneOpen(After(EMPTY, es))
    decreases |es|
  {
    if es != [] {
      var init, e := es[..|es| - 1], es[|es| - 1];
      OneOpenControl(init);
      if Next(After(EMPTY, init), e).Some? { StepKeepsOneOpen(After(EMPTY, init), e); }
    }
  }

  // -------------------------------------------------------------------- cancel wins

  /** The run is past the point of pausing and has no open pause or resume command. */
  predicate CancelWon(w: World, run: int) {
    && run in w.runs && TaskStates.Rank(w.runs[run].state.lifecycle) >= 2
    && forall x :: x in w.commands && w.commands[x].identity.run == run ==> !OpenControl(w.commands[x])
  }

  predicate ControlOf(w: World, run: int, id: int) {
    id in w.commands && w.commands[id].identity.run == run && w.commands[id].identity.kind != Cancel
  }

  /** The pause and resume commands of the run are the same rows in both worlds. */
  ghost predicate SameControls(a: World, b: World, run: int) {
    forall id ::
      && (ControlOf(a, run, id) <==> ControlOf(b, run, id))
      && (ControlOf(a, run, id) ==> a.commands[id] == b.commands[id])
  }

  lemma SupersessionWins(w: World, run: int, by_: int, at: int)
    requires Next(w, SupersedeAll(run, by_, at)).Some? && WellKeyed(w)
    ensures CancelWon(Next(w, SupersedeAll(run, by_, at)).value, run)
    ensures forall id :: ControlOf(w, run, id) && Open(w.commands[id]) ==>
      Next(w, SupersedeAll(run, by_, at)).value.commands[id] == Updated(w.commands[id], Supersede(by_, at))
    ensures forall id :: id in w.commands && !(ControlOf(w, run, id) && Open(w.commands[id])) ==>
      Next(w, SupersedeAll(run, by_, at)).value.commands[id] == w.commands[id]
  {
  }

  lemma StepKeepsCancelWon(w: World, e: Event, run: int)
    requires CancelWon(w, run) && Next(w, e).Some?
    ensures CancelWon(Next(w, e).value, run) && SameControls(w, Next(w, e).value, run)
  {
    var n := Next(w, e).value;
    forall id | id in w.commands
      ensures Touched(w, e, id).identity == w.commands[id].identity
      ensures Open(Touched(w, e, id)) ==> Open(w.commands[id])
      ensures !Open(w.commands[id]) ==> Touched(w, e, id) == w.commands[id]
    {
      TouchKeeps(w, e, id);
    }
  }

  lemma {:induction false} CancelStaysWon(w: World, run: int, es: seq<Event>)
    requires CancelWon(w, run)
    ensures CancelWon(After(w, es), run) && SameControls(w, After(w, es), run)
    decreases |es|
  {
    if es != [] {
      var init, e := es[..|es| - 1], es[|es| - 1];
      CancelStaysWon(w, run, init);
      if Next(After(w, init), e).Some? { StepKeepsCancelWon(After(w, init), e, run); }
    }
  }

  lemma WonRefusesAll(w: World, run: int)
    requires CancelWon(w, run)
    ensures forall r: Row :: r.identity.run == run && r.identity.kind != Cancel ==> Next(w, Insert(r)).None?
    ensures forall id, c :: ControlOf(w, run, id) ==> Next(w, Settle(id, c)).None?
    ensures forall id, k, t ::
      ControlOf(w, run, id) && w.commands[id].status != Applied ==> Next(w, ApplyCommand(id, k, t)).None?
  {
  }

  lemma WonRefusesFailures(w: World, run: int)
    requires CancelWon(w, run)
    ensures forall tx, token, expected, code, t ::
      tx in w.looked && ControlOf(w, run, w.looked[tx].0) ==> Next(w, FailWith(tx, token, expected, code, t)).None?
  {
  }

  /** Once supersession succeeds, then whatever happens afterwards: every pause and resume
      command of the run keeps its row for ever and none of them is open; none can be
      inserted; and no one, with whatever claim, can settle one. */
  lemma CancelWins(w: World, run: int, by_: int, at: int, es: seq<Event>)
    requires WellKeyed(w) && Next(w, SupersedeAll(run, by_, at)).Some?
    ensures var won := Next(w, SupersedeAll(run, by_, at)).value; var later := After(won, es);
      && SameControls(won, later, run)
      && (forall id :: ControlOf(later, run, id) ==> !Open(later.commands[id]))
      && (forall r: Row :: r.identity.run == run && r.identity.kind != Cancel ==> Next(later, Insert(r)).None?)
      && (forall id, c :: ControlOf(later, run, id) ==> Next(later, Settle(id, c)).None?)
      && (forall tx, token, expected, code, t :: tx in later.looked && ControlOf(later, run, later.looked[tx].0)
            ==> Next(later, FailWith(tx, token, expected, code, t)).None?)
      && (forall id, k, t :: ControlOf(later, run, id) && later.commands[id].status != Applied
            ==> Next(later, ApplyCommand(id, k, t)).None?)
  {
    SupersessionWins(w, run, by_, at);
    CancelStaysWon(Next(w, SupersedeAll(run, by_, at)).value, run, es);
    WonRefusesAll(After(Next(w, SupersedeAll(run, by_, at)).value, es), run);
    WonRefusesFailures(After(Next(w, SupersedeAll(run, by_, at)).value, es), run);
  }

  // ------------------------------------------------------- what becomes applied when

  /** A look-up that found the run canceled is true for ever; one that did not may be overtaken. */
  predicate LookedFits(w: World) {
    forall tx :: tx in w.looked ==>
      && w.looked[tx].0 in w.commands
      && (w.looked[tx].1 ==> CanceledRun(w, w.commands[w.looked[tx].0].identity.run))
  }

  lemma StepKeepsCanceled(w: World, e: Event, run: int)
    requires Next(w, e).Some? && CanceledRun(w, run)
    ensures CanceledRun(Next(w, e).value, run)
  {
  }

  lemma StepKeepsLooked(w: World, e: Event)
    requires LookedFits(w) && Next(w, e).Some?
    ensures LookedFits(Next(w, e).value)
  {
    var n := Next(w, e).value;
    forall tx | tx in n.looked
      ensures n.looked[tx].0 in n.commands
      ensures n.looked[tx].1 ==> CanceledRun(n, n.commands[n.looked[tx].0].identity.run)
    {
      var id := n.looked[tx].0;
      assert id in w.commands;
      if !e.Insert? { TouchKeeps(w, e, id); }
      if n.looked[tx].1 { StepKeepsCanceled(w, e, w.commands[id].identity.run); }
    }
  }

  lemma {:induction false} LookedIsTrue(es: seq<Event>)
    ensures LookedFits(After(EMPTY, es))
    decreases |es|
  {
    if es != [] {
      var init, e := es[..|es| - 1], es[|es| - 1];
      LookedIsTrue(init);
      if Next(After(EMPTY, init), e).Some? { StepKeepsLooked(After(EMPTY, init), e); }
    }
  }

  /** A look-up recorded the state of the run at one earlier moment. */
  lemma {:induction false} LookUpHappened(es: seq<Event>, tx: int) returns (q: nat)
    requires tx in After(EMPTY, es).looked
    ensures q < |es|
    ensures var id := After(EMPTY, es).looked[tx].0; var past := After(EMPTY, es[..q]);
      && es[q] == LookUp(tx, id) && id in past.commands
      && After(EMPTY, es).looked[tx].1 ==
           RunReads(past, past.commands[id].identity.run, TaskStates.Closed, TaskStates.Quality.Canceled)
    decreases |es|
  {
    var init := es[..|es| - 1];
    if tx in After(EMPTY, init).looked {
      q := LookUpHappened(init, tx);
      assert es[..q] == init[..q];
    } else {
      q := |es| - 1;
    }
  }

  predicate RunReads(w: World, run: int, lifecycle: TaskStates.Lifecycle, quality: TaskStates.Quality) {
    run in w.runs && w.runs[run].state.lifecycle == lifecycle && w.runs[run].state.quality == quality
  }

  /** In every reachable world a command becomes APPLIED exactly when it is applied - a pause
      while its run is PAUSED, a resume while it is RUNNING, both undecided, a cancel when it is
      closed as canceled - or when a failure is reported by a transaction that
      found its run closed as canceled - and then the run still is. */
  lemma NewlyApplied(es: seq<Event>, e: Event, id: int)
    requires var w := After(EMPTY, es); Next(w, e).Some? && id in w.commands && w.commands[id].status != Applied
    ensures var w := After(EMPTY, es);
      && (Next(w, e).value.commands[id].status == Applied <==>
            (e.ApplyCommand? && e.id == id) || (e.FailWith? && w.looked[e.tx] == (id, true)))
      && (e.ApplyCommand? && e.id == id ==>
            match w.commands[id].identity.kind
            case Cancel => RunReads(w, w.commands[id].identity.run, TaskStates.Closed, TaskStates.Quality.Canceled)
            case Pause => RunReads(w, w.commands[id].identity.run, TaskStates.Paused, TaskStates.Quality.Pending)
            case Resume =>
              RunReads(w, w.commands[id].identity.run, TaskStates.Lifecycle.Running, TaskStates.Quality.Pending))
      && (e.FailWith? && w.looked[e.tx] == (id, true) ==>
            RunReads(w, w.commands[id].identity.run, TaskStates.Closed, TaskStates.Quality.Canceled))
  {
    LookedIsTrue(es);
  }

  // ------------------------------------------------- rows and their fenced histories

  predicate PendingInserts(es: seq<Event>) {
    forall i :: 0 <= i < |es| && es[i].Insert? ==> es[i].row.status == Pending
  }

  /** Every row is the replay of its history. */
  predicate Tracked(w: World, hs: map<int, History>) {
    && hs.Keys == w.commands.Keys
    && forall id :: id in w.commands ==>
         && w.commands[id].identity.id == id
         && FencedHistory(w.commands[id].identity, hs[id]) && Tracks(w.commands[id].identity, hs[id], w.commands[id])
  }

  ghost function NextHistories(w: World, hs: map<int, History>, e: Event): map<int, History>
    requires Admitted(w, e) && hs.Keys == w.commands.Keys
  {
    if e.Insert? then hs[e.row.identity.id := []]
    else map id | id in w.commands :: Extended(w, hs[id], e, id)
  }

  ghost function Extended(w: World, h: History, e: Event, id: int): History
    requires Admitted(w, e) && id in w.commands
  {
    if Touch(w, e, id).Some? then h + [Touch(w, e, id).value] else h
  }

  lemma TouchIsSelected(w: World, e: Event, id: int)
    requires Admitted(w, e) && id in w.commands && Touch(w, e, id).Some?
    ensures Selects(w.commands[id], Touch(w, e, id).value) && ValidArguments(Touch(w, e, id).value)
  {
    if e.ClaimBatch? {
      TopK.FirstKIsTopK(Ranks(w), Candidates(w, e.namespace, e.at, e.locked), e.limit);
    }
  }

  lemma TouchIsTracked(w: World, hs: map<int, History>, e: Event, id: int)
    requires Tracked(w, hs) && Admitted(w, e) && AllAccepted(w, e) && id in w.commands
    ensures var r, h := Touched(w, e, id), Extended(w, hs[id], e, id);
      r.identity == w.commands[id].identity && FencedHistory(r.identity, h) && Tracks(r.identity, h, r)
  {
    if Touch(w, e, id).Some? {
      var c := Touch(w, e, id).value;
      TouchIsSelected(w, e, id);
      CallIsFenced(w.commands[id].identity, hs[id], w.commands[id], c);
      assert (hs[id] + [c])[..|hs[id]|] == hs[id];
    }
  }

  lemma StepIsTracked(w: World, hs: map<int, History>, e: Event)
    requires Tracked(w, hs) && Next(w, e).Some?
    requires e.Insert? ==> e.row.status == Pending
    ensures Tracked(Next(w, e).value, NextHistories(w, hs, e))
  {
    if e.Insert? {
      PendingIsTracked(e.row);
    } else {
      forall id | id in w.commands
        ensures var r, h := Touched(w, e, id), Extended(w, hs[id], e, id);
          r.identity == w.commands[id].identity && FencedHistory(r.identity, h) && Tracks(r.identity, h, r)
      {
        TouchIsTracked(w, hs, e, id);
      }
    }
  }

  /** If commands are inserted as PENDING, then in every reachable world every row has a fenced
      history that determines it, so all results about such rows hold. */
  lemma {:induction false} ReachableIsTracked(es: seq<Event>) returns (hs: map<int, History>)
    requires PendingInserts(es)
    ensures Tracked(After(EMPTY, es), hs)
    decreases |es|
  {
    hs := map[];
    if es != [] {
      var init, e := es[..|es| - 1], es[|es| - 1];
      hs := ReachableIsTracked(init);
      var w := After(EMPTY, init);
      if Next(w, e).Some? {
        StepIsTracked(w, hs, e);
        hs := NextHistories(w, hs, e);
      }
    }
  }

  lemma AdmittedNeverAborts(w: World, hs: map<int, History>, e: Event)
    requires Tracked(w, hs) && Admitted(w, e)
    ensures Next(w, e).Some? <==>
      forall id :: id in w.commands && Touch(w, e, id).Some? && !e.ClaimBatch? ==>
        w.commands[id].identity.createdAt <= Touch(w, e, id).value.at
  {
    forall id | id in w.commands && Touch(w, e, id).Some?
      ensures Accepted(w.commands[id], Touch(w, e, id).value)
        <==> e.ClaimBatch? || w.commands[id].identity.createdAt <= Touch(w, e, id).value.at
    {
      var c := Touch(w, e, id).value;
      TouchIsSelected(w, e, id);
      TrackedCall(w.commands[id].identity, hs[id], w.commands[id], c);
    }
  }

  /** In every reachable world whose commands were inserted as PENDING an admitted claim never
      aborts, and any other admitted transaction aborts exactly when it began before a command
      it updates was created. */
  lemma TransactionsNeverAbort(es: seq<Event>, e: Event)
    requires PendingInserts(es) && Admitted(After(EMPTY, es), e)
    ensures var w := After(EMPTY, es);
      Next(w, e).Some? <==>
        forall id :: id in w.commands && Touch(w, e, id).Some? && !e.ClaimBatch? ==>
          w.commands[id].identity.createdAt <= Touch(w, e, id).value.at
  {
    var hs := ReachableIsTracked(es);
    AdmittedNeverAborts(After(EMPTY, es), hs, e);
  }

  lemma TrackedCall(i: Identity, h: History, r: Row, c: Call)
    requires Tracks(i, h, r) && ValidArguments(c) && Selects(r, c)
    ensures Accepted(r, c) <==> c.Claim? || i.createdAt <= c.at
  {
    CallIsFenced(i, h, r, c);
  }
}
