/** Fixture runs: how the recorded terminal intent decides where a run can settle, through any
    number of failed and repeated cleanups, with CHECKs that pass on NULL. */
module FixtureIntent {
  import opened Sql

  datatype Status = Requested | Running | Ready | Failed | Canceled | Cleaning | Released | CleanupFailed
  datatype Intent = ToRelease | ToFail | ToCancel
  datatype Cleanup = NotRequired | Pending | CleanupRunning | Cleaned | Leaked

  datatype Row = Row(
    status: Status, intent: Option<Intent>, cleanup: Cleanup, generation: int,
    cancel: Option<(int, int)>, revision: int)

  const MAX_GENERATION := 1000

  // ----------------------------------------------------------- the three-valued CHECK

  function IntentIs(intent: Option<Intent>, i: Intent): Truth { Eq(intent, Some(i)) }

  /** `intent in (null, 'RELEASED')` */
  function IntentInNullOrRelease(intent: Option<Intent>): Truth {
    Unknown.Or(IntentIs(intent, ToRelease))
  }

  function Case(r: Row, statuses: set<Status>, t: Truth): Truth { Of(r.status in statuses).And(t) }

  /** fixture_run_terminal_intent_shape as it is written. */
  function IntentCheck(r: Row): Truth {
    Case(r, {Requested, Running}, Of(r.intent.None?))
    .Or(Case(r, {Ready}, IntentInNullOrRelease(r.intent)))
    .Or(Case(r, {Cleaning}, Of(r.intent.Some?)))
    .Or(Case(r, {Released}, IntentIs(r.intent, ToRelease)))
    .Or(Case(r, {CleanupFailed}, IntentIs(r.intent, ToRelease)))
    .Or(Case(r, {Failed}, IntentIs(r.intent, ToFail)))
    .Or(Case(r, {Canceled}, IntentIs(r.intent, ToCancel)))
  }

  /** What that lets through: READY with any intent at all, and settled rows with none. */
  predicate IntentFits(status: Status, intent: Option<Intent>) {
    match status
    case Requested => intent.None?
    case Running => intent.None?
    case Ready => true
    case Cleaning => intent.Some?
    case Released => intent.None? || intent.value == ToRelease
    case CleanupFailed => intent.None? || intent.value == ToRelease
    case Failed => intent.None? || intent.value == ToFail
    case Canceled => intent.None? || intent.value == ToCancel
  }

  lemma CheckMeans(r: Row)
    ensures IntentCheck(r).Passes() <==> IntentFits(r.status, r.intent)
    ensures IntentCheck(r).Holds() <==>
      && IntentFits(r.status, r.intent)
      && (r.status == Ready ==> r.intent == Some(ToRelease))
      && (r.status in {Released, CleanupFailed, Failed, Canceled} ==> r.intent.Some?)
  {
  }

  predicate Shape(r: Row) {
    IntentCheck(r).Passes() && 0 <= r.generation <= MAX_GENERATION && r.revision > 0
  }

  // ----------------------------------------------------------------- the update trigger

  predicate StatusStep(a: Status, b: Status) {
    match a
    case Requested => b in {Requested, Running, Cleaning, Failed, Canceled}
    case Running => b in {Running, Ready, Cleaning, Failed, Canceled}
    case Ready => b in {Ready, Cleaning}
    case Cleaning => b in {Cleaning, Released, Failed, Canceled, CleanupFailed}
    case CleanupFailed => b in {CleanupFailed, Cleaning, Released}
    case Failed => b in {Failed, Cleaning}
    case Canceled => b in {Canceled, Cleaning}
    case Released => false
  }

  predicate CleanupStep(a: Cleanup, b: Cleanup) {
    match a
    case NotRequired => b == NotRequired
    case Cleaned => b == Cleaned
    case Pending => b in {Pending, CleanupRunning, Cleaned, Leaked}
    case CleanupRunning => b in {Pending, CleanupRunning, Cleaned, Leaked}
    case Leaked => b in {Leaked, Pending, CleanupRunning, Cleaned}
  }

  predicate Guard(a: Row, b: Row) {
    && (a.cancel.Some? ==> b.cancel == a.cancel)
    && (a.intent.Some? ==> b.intent == a.intent)
    && StatusStep(a.status, b.status) && CleanupStep(a.cleanup, b.cleanup)
    && a.generation <= b.generation <= a.generation + 1
    && b.revision == a.revision + 1
  }

  predicate Accepted(a: Row, b: Row) { Guard(a, b) && Shape(b) }

  predicate StatusFollows(a: Status, b: Status) {
    match a
    case Requested => b != Ready && b != Released && b != CleanupFailed
    case Running => b != Requested && b != Released && b != CleanupFailed
    case Ready => b == Ready || b == Cleaning
    case Cleaning => b != Requested && b != Running && b != Ready
    case CleanupFailed => b == CleanupFailed || b == Cleaning || b == Released
    case Failed => b == Failed || b == Cleaning
    case Canceled => b == Canceled || b == Cleaning
    case Released => false
  }

  /** Which update of a stored run is accepted: the status follows; a set intent and
      cancellation stay; the intent fits the new status; cleanup leaves neither CLEANED nor
      NOT_REQUIRED and does not become the latter; and the counters advance. */
  lemma UpdatesExactly(a: Row, b: Row)
    requires Shape(a)
    ensures Accepted(a, b) <==>
      && StatusFollows(a.status, b.status) && IntentFits(b.status, b.intent)
      && (a.intent.Some? ==> b.intent == a.intent) && (a.cancel.Some? ==> b.cancel == a.cancel)
      && (if a.cleanup == Cleaned || a.cleanup == NotRequired then b.cleanup == a.cleanup else b.cleanup != NotRequired)
      && (b.generation == a.generation || (b.generation == a.generation + 1 && b.generation <= 1000))
      && b.revision == a.revision + 1
  {
    CheckMeans(b);
  }

  /** A run as a request creates it.  No trigger guards inserts, so a run may also be stored
      in any other state that the CHECKs allow. */
  predicate Fresh(r: Row) {
    r.status == Requested && r.intent.None? && r.cancel.None? && r.generation == 0 && r.revision == 1
  }

  predicate AcceptedAt(h: seq<Row>, i: nat)
    requires 0 < i < |h|
  {
    Accepted(h[i - 1], h[i])
  }

  /** The successive states of one stored run, from any row the CHECKs allow. */
  predicate History(h: seq<Row>) {
    h != [] && Shape(h[0]) && forall i: nat :: 0 < i < |h| ==> AcceptedAt(h, i)
  }

  function Last(h: seq<Row>): Row
    requires h != []
  {
    h[|h| - 1]
  }

  // ------------------------------------------------------------------ what can be reached

  lemma HistoriesAreShaped(h: seq<Row>, i: nat)
    requires History(h) && i < |h|
    ensures Shape(h[i]) && IntentFits(h[i].status, h[i].intent)
    ensures h[i].revision >= 1 && 0 <= h[i].generation <= 1000
  {
    CheckMeans(h[i]);
    assert i > 0 ==> AcceptedAt(h, i);
  }

  /** A requested run is never RELEASED or CLEANUP_FAILED without an intent, though the CHECK
      would let it. */
  predicate Attainable(status: Status, intent: Option<Intent>) {
    IntentFits(status, intent) && (status in {Released, CleanupFailed} ==> intent.Some?)
  }

  lemma {:induction false} RequestedRunsAreAttainable(h: seq<Row>, i: nat)
    requires History(h) && Fresh(h[0]) && i < |h|
    ensures Attainable(h[i].status, h[i].intent)
  {
    HistoriesAreShaped(h, i);
    if i > 0 {
      RequestedRunsAreAttainable(h, i - 1);
      assert AcceptedAt(h, i);
    }
  }

  function Moved(r: Row, status: Status, intent: Option<Intent>): Row {
    r.(status := status, intent := intent, revision := r.revision + 1)
  }

  lemma HistoryExtends(h: seq<Row>, r: Row)
    requires History(h) && Guard(Last(h), r) && IntentFits(r.status, r.intent) && 0 <= r.generation <= MAX_GENERATION
    ensures History(h + [r])
  {
    CheckMeans(r);
    HistoriesAreShaped(h, |h| - 1);
    forall i: nat | 0 < i < |h + [r]| ensures AcceptedAt(h + [r], i) {
      if i < |h| { assert AcceptedAt(h, i); }
    }
  }

  predicate EndsAs(h: seq<Row>, status: Status, intent: Option<Intent>)
    requires h != []
  {
    Last(h).status == status && Last(h).intent == intent
  }

  /** Exactly these combinations of status and intent occur in some stored run, and exactly
      these in some run that was stored as requested. */
  lemma ReachedExactly(status: Status, intent: Option<Intent>)
    ensures IntentFits(status, intent) <==> exists h: seq<Row> :: History(h) && EndsAs(h, status, intent)
    ensures Attainable(status, intent) <==>
      exists h: seq<Row> :: History(h) && Fresh(h[0]) && EndsAs(h, status, intent)
  {
    if IntentFits(status, intent) {
      var r := Row(status, intent, NotRequired, 0, None, 1);
      CheckMeans(r);
      assert History([r]) && EndsAs([r], status, intent);
    }
    if Attainable(status, intent) {
      var h := Route(status, intent);
      assert History(h) && Fresh(h[0]) && EndsAs(h, status, intent);
    }
    forall h: seq<Row> | History(h) && EndsAs(h, status, intent)
      ensures IntentFits(status, intent) && (Fresh(h[0]) ==> Attainable(status, intent))
    {
      HistoriesAreShaped(h, |h| - 1);
      if Fresh(h[0]) { RequestedRunsAreAttainable(h, |h| - 1); }
    }
  }

  lemma Route(status: Status, intent: Option<Intent>) returns (h: seq<Row>)
    requires Attainable(status, intent)
    ensures History(h) && Fresh(h[0]) && EndsAs(h, status, intent)
  {
    h := [Row(Requested, None, NotRequired, 0, None, 1)];
    assert History(h);
    if status == Requested { return; }
    if status in {Running, Ready} {
      h := Extend(h, Running, None);
      if status == Ready { h := Extend(h, Ready, intent); }
    } else if status in {Failed, Canceled} {
      h := Extend(h, status, intent);
    } else {
      h := Extend(h, Cleaning, intent);
      if status != Cleaning { h := Extend(h, status, intent); }
    }
  }

  lemma Extend(h: seq<Row>, status: Status, intent: Option<Intent>) returns (g: seq<Row>)
    requires History(h) && StatusStep(Last(h).status, status) && IntentFits(status, intent)
    requires Last(h).intent.Some? ==> intent == Last(h).intent
    ensures History(g) && |g| == |h| + 1 && h <= g && Last(g) == Moved(Last(h), status, intent)
  {
    HistoriesAreShaped(h, |h| - 1);
    var r := Moved(Last(h), status, intent);
    HistoryExtends(h, r);
    g := h + [r];
  }

  // ------------------------------------------------------------- the intent decides

  /** Where a run with this intent may be. */
  predicate Allowed(i: Intent, s: Status) {
    match i
    case ToRelease => s in {Ready, Cleaning, Released, CleanupFailed}
    case ToFail => s in {Ready, Cleaning, Failed}
    case ToCancel => s in {Ready, Cleaning, Canceled}
  }

  /** Once recorded, the intent stays, and through any number of failures and cleanup retries
      the run is only ever where the intent allows. */
  lemma {:induction false} IntentDecides(h: seq<Row>, i: nat, j: nat)
    requires History(h) && i <= j < |h| && h[i].intent.Some?
    ensures h[j].intent == h[i].intent && Allowed(h[i].intent.value, h[j].status)
    decreases j
  {
    HistoriesAreShaped(h, j);
    if i < j {
      IntentDecides(h, i, j - 1);
      assert AcceptedAt(h, j);
    }
  }

  function Settlement(i: Intent): Status {
    match i
    case ToRelease => Released
    case ToFail => Failed
    case ToCancel => Canceled
  }

  /** And it can always settle there, in at most two more updates. */
  lemma IntentCanSettle(h: seq<Row>) returns (g: seq<Row>)
    requires History(h) && Last(h).intent.Some?
    ensures History(g) && |g| <= |h| + 2 && h <= g
    ensures Last(g).status == Settlement(Last(h).intent.value) && Last(g).intent == Last(h).intent
  {
    HistoriesAreShaped(h, |h| - 1);
    var intent := Last(h).intent;
    g := h;
    if Last(h).status == Settlement(intent.value) { return; }
    if Last(h).status == Ready { g := Extend(g, Cleaning, intent); }
    g := Extend(g, Settlement(intent.value), intent);
  }

  predicate SettlesAs(h: seq<Row>, i: Intent)
    requires h != []
  {
    Last(h).intent == Some(i) && Last(h).status == Settlement(i)
  }

  /** Which ends are open to a stored run: exactly the recorded one if an intent is recorded;
      every one if none is, also to a run that already reads FAILED, CANCELED or
      CLEANUP_FAILED; and none to a run RELEASED without intent. */
  lemma UndecidedSettlement(h: seq<Row>, i: Intent)
    requires History(h)
    ensures Last(h).intent == Some(i) || (Last(h).intent.None? && Last(h).status != Released) <==>
      exists g: seq<Row> :: History(g) && h <= g && SettlesAs(g, i)
  {
    if Last(h).intent == Some(i) || (Last(h).intent.None? && Last(h).status != Released) {
      var g := h;
      if Last(h).intent.None? { g := Extend(h, Cleaning, Some(i)); }
      var f := IntentCanSettle(g);
      assert f[..|h|] == g[..|h|] == h;
      assert History(f) && h <= f && SettlesAs(f, i);
    }
    forall g: seq<Row> | History(g) && h <= g && SettlesAs(g, i)
      ensures Last(h).intent == Some(i) || (Last(h).intent.None? && Last(h).status != Released)
    {
      if Last(h).intent.Some? { IntentDecides(g, |h| - 1, |g| - 1); }
      if Last(h).status == Released { ReleasedIsFinal(g, |h| - 1); }
    }
  }

  /** A requested run that read FAILED ends RELEASED. */
  lemma FailedRunCanRelease() returns (h: seq<Row>, k: nat)
    ensures History(h) && Fresh(h[0]) && k < |h| && h[k].status == Failed && SettlesAs(h, ToRelease)
  {
    h := Route(Failed, None);
    k := |h| - 1;
    var g := Extend(h, Cleaning, Some(ToRelease));
    h := Extend(g, Released, Some(ToRelease));
    assert h[..|g|] == g && g[..k + 1][k] == h[k];
  }

  /** A run stored as CLEANUP_FAILED without intent ends FAILED. */
  lemma CleanupFailedRunCanFail() returns (h: seq<Row>)
    ensures History(h) && h[0].status == CleanupFailed && h[0].intent.None? && SettlesAs(h, ToFail)
  {
    var stored := Row(CleanupFailed, None, Leaked, 1, None, 1);
    CheckMeans(stored);
    var g := Extend([stored], Cleaning, Some(ToFail));
    h := Extend(g, Failed, Some(ToFail));
    assert h[0] == g[0] == stored;
  }

  /** RELEASED is final. */
  lemma ReleasedIsFinal(h: seq<Row>, i: nat)
    requires History(h) && i < |h| && h[i].status == Released
    ensures i == |h| - 1
  {
    assert i + 1 < |h| ==> AcceptedAt(h, i + 1);
  }

  /** CLEANED and NOT_REQUIRED are never left; the cleanup generation and the revision only
      grow, by at most and exactly one per update. */
  lemma {:induction false} CleanupProgresses(h: seq<Row>, i: nat, j: nat)
    requires History(h) && i <= j < |h|
    ensures h[i].cleanup in {Cleaned, NotRequired} ==> h[j].cleanup == h[i].cleanup
    ensures h[j].cleanup == NotRequired ==> h[i].cleanup == NotRequired
    ensures h[i].generation <= h[j].generation <= h[i].generation + (j - i)
    ensures h[j].revision == h[i].revision + (j - i)
    ensures h[i].revision >= 1 && h[i].generation >= 0 && h[j].generation <= 1000
    decreases j
  {
    HistoriesAreShaped(h, i);
    HistoriesAreShaped(h, j);
    if i < j {
      CleanupProgresses(h, i, j - 1);
      assert AcceptedAt(h, j);
    }
  }

  // --------------------------------------------------------------------------- the row

  class FixtureRun {
    var row: Row
    ghost var history: seq<Row>

    ghost predicate Valid()
      reads this
    {
      History(history) && history[|history| - 1] == row
    }

    constructor (r: Row)
      requires Shape(r)
      ensures Valid() && row == r && history == [r]
    {
      row, history := r, [r];
    }

    method Update(next: Row) returns (ok: bool)
      requires Valid()
      modifies this
      ensures Valid() && ok == Accepted(old(row), next)
      ensures row == if ok then next else old(row)
      ensures history == if ok then old(history) + [next] else old(history)
    {
      ok := Accepted(row, next);
      if ok {
        CheckMeans(next);
        HistoryExtends(history, next);
        row, history := next, history + [next];
      }
    }
  }
}
