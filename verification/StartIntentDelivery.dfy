/** Fenced delivery of Task Workflow start intents.

    Any number of dispatchers call the claim and settle procedures in any order.  A
    row's past is its history of applied calls; `Fenced` says which histories exist
    without mentioning the row, and the procedures, trigger and CHECK together allow
    exactly those.  Times are integers in milliseconds. */
module StartIntentDelivery {
  import opened Sql
  import TopK

  datatype Status = Pending | Claimed | RetryWait | Started | Failed

  /** Immutable columns. */
  datatype Identity = Identity(id: int, ownedByRun: bool, namespace: string, createdAt: int)

  datatype Row = Row(
    identity: Identity,
    status: Status,
    availableAt: int,
    claimToken: Option<int>, claimedBy: Option<string>, claimedAt: Option<int>, claimExpiresAt: Option<int>,
    attempts: int,
    lastErrorCode: Option<string>, lastErrorAt: Option<int>,
    startedAt: Option<int>, failedAt: Option<int>,
    revision: int)

  function Inserted(i: Identity): Row {
    Row(i, Pending, i.createdAt, None, None, None, None, 0, None, None, None, None, 0)
  }

  // ------------------------------------------------- column CHECK and trigger

  predicate NoClaim(r: Row) {
    r.claimToken.None? && r.claimedBy.None? && r.claimedAt.None? && r.claimExpiresAt.None?
  }

  /** The shape CHECK.  A comparison with NULL leaves it undecided and an undecided CHECK
      passes: this lets through a missing error code beside an error time, a missing
      claimant, and a missing failure time. */
  predicate Shape(r: Row) {
    && r.attempts >= 0 && r.revision >= 0
    && (r.lastErrorCode.Some? ==> r.lastErrorAt.Some?)
    && match r.status
       case Pending =>
         && r.availableAt == r.identity.createdAt && NoClaim(r)
         && r.attempts == 0 && r.revision == 0
         && r.lastErrorCode.None? && r.lastErrorAt.None? && r.startedAt.None? && r.failedAt.None?
       case Claimed =>
         && r.availableAt >= r.identity.createdAt
         && r.claimToken.Some? && r.claimedAt.Some? && r.claimExpiresAt.Some?
         && r.identity.createdAt <= r.claimedAt.value < r.claimExpiresAt.value
         && r.attempts > 0 && r.revision > 0
         && (r.lastErrorAt.Some? ==> r.lastErrorAt.value <= r.claimedAt.value)
         && r.startedAt.None? && r.failedAt.None?
       case RetryWait =>
         && r.lastErrorCode.Some? && r.lastErrorAt.Some? && r.availableAt > r.lastErrorAt.value
         && NoClaim(r) && r.attempts > 0 && r.revision > 1
         && r.startedAt.None? && r.failedAt.None?
       case Started =>
         && r.availableAt >= r.identity.createdAt && NoClaim(r) && r.attempts > 0 && r.revision > 1
         && r.startedAt.Some? && r.startedAt.value >= r.identity.createdAt
         && (r.lastErrorAt.Some? ==> r.lastErrorAt.value <= r.startedAt.value)
         && r.failedAt.None?
       case Failed =>
         && r.availableAt >= r.identity.createdAt && NoClaim(r) && r.attempts > 0 && r.revision > 1
         && r.lastErrorCode.Some? && r.lastErrorAt.Some? && r.startedAt.None?
         && (r.failedAt.Some? ==> r.failedAt == r.lastErrorAt)
  }

  /** The update trigger, which reads the clock once more. */
  predicate Guard(now: int, old_: Row, new_: Row) {
    && new_.identity == old_.identity
    && new_.revision == old_.revision + 1
    && if new_.status == Claimed && old_.status in {Pending, RetryWait, Claimed} then
         && !(old_.status == Claimed && old_.claimExpiresAt.Some? && now < old_.claimExpiresAt.value)
         && new_.availableAt == old_.availableAt && new_.attempts == old_.attempts + 1
         && new_.lastErrorCode == old_.lastErrorCode && new_.lastErrorAt == old_.lastErrorAt
         && new_.startedAt == old_.startedAt && new_.failedAt == old_.failedAt
       else if old_.status == Claimed && new_.status == RetryWait then
         && !(old_.claimedAt.Some? && new_.availableAt <= old_.claimedAt.value)
         && new_.attempts == old_.attempts && new_.startedAt.None? && new_.failedAt.None?
         && new_.lastErrorCode.Some? && new_.lastErrorAt.Some?
       else if old_.status == Claimed && new_.status == Started then
         && new_.availableAt == old_.availableAt && new_.attempts == old_.attempts
         && new_.lastErrorCode == old_.lastErrorCode && new_.lastErrorAt == old_.lastErrorAt
         && new_.startedAt.Some? && new_.failedAt.None?
       else if old_.status == Claimed && new_.status == Failed then
         && new_.availableAt == old_.availableAt && new_.attempts == old_.attempts
         && new_.lastErrorCode.Some? && new_.lastErrorAt.Some? && new_.startedAt.None? && new_.failedAt.Some?
       else false
  }

  // ----------------------------------------------------------- the procedures

  /** One call on one row; `at` is the clock value the procedure read on entry. */
  datatype Call =
    | Claim(token: int, claimant: string, leaseSeconds: int, at: int)
    | Start(token: int, expected: int, at: int)
    | Retry(token: int, expected: int, code: string, delay: int, at: int)
    | Fail(token: int, expected: int, code: string, at: int)

  predicate ValidArguments(e: Call) {
    match e
    case Claim(_, _, lease, _) => 1 <= lease <= 900
    case Start(_, expected, _) => expected >= 1
    case Retry(_, expected, _, delay, _) => expected >= 1 && 100 <= delay <= 3_600_000
    case Fail(_, expected, _, _) => expected >= 1
  }

  predicate Eligible(r: Row, at: int) {
    || (r.status in {Pending, RetryWait} && r.availableAt <= at)
    || (r.status == Claimed && r.claimExpiresAt.Some? && r.claimExpiresAt.value <= at)
  }

  predicate HeldBy(r: Row, token: int, expected: int, at: int) {
    && r.status == Claimed && r.claimToken == Some(token) && r.revision == expected
    && r.claimExpiresAt.Some? && at < r.claimExpiresAt.value
  }

  /** The WHERE clause: whether the call selects the row. */
  predicate Selects(r: Row, e: Call) {
    match e
    case Claim(_, _, _, at) => Eligible(r, at)
    case _ => HeldBy(r, e.token, e.expected, e.at)
  }

  function Released(r: Row): Row {
    r.(claimToken := None, claimedBy := None, claimedAt := None, claimExpiresAt := None, revision := r.revision + 1)
  }

  /** The SET clause. */
  function Updated(r: Row, e: Call): Row {
    match e
    case Claim(token, claimant, lease, at) =>
      r.(status := Claimed, claimToken := Some(token), claimedBy := Some(claimant), claimedAt := Some(at),
         claimExpiresAt := Some(at + 1000 * lease), attempts := r.attempts + 1, revision := r.revision + 1)
    case Start(_, _, at) => Released(r).(status := Started, startedAt := Some(at))
    case Retry(_, _, code, delay, at) =>
      Released(r).(status := RetryWait, availableAt := at + delay, lastErrorCode := Some(code), lastErrorAt := Some(at))
    case Fail(_, _, code, at) =>
      Released(r).(status := Failed, lastErrorCode := Some(code), lastErrorAt := Some(at), failedAt := Some(at))
  }

  /** The update goes through: trigger and CHECK both let it. */
  predicate Accepted(now: int, r: Row, e: Call) {
    Guard(now, r, Updated(r, e)) && Shape(Updated(r, e))
  }

  // ---------------------------------------------------------------- histories

  type History = seq<Call>

  function Last(h: History): Call
    requires h != []
  {
    h[|h| - 1]
  }

  function Claims(h: History): nat {
    if h == [] then 0 else Claims(h[..|h| - 1]) + (if Last(h).Claim? then 1 else 0)
  }

  /** The most recent recorded error, and the time from which the intent is due. */
  function LastErrorAt(h: History): Option<int> {
    if h == [] then None
    else if Last(h).Retry? || Last(h).Fail? then Some(Last(h).at)
    else LastErrorAt(h[..|h| - 1])
  }

  function LastErrorCode(h: History): Option<string> {
    if h == [] then None
    else if Last(h).Retry? || Last(h).Fail? then Some(Last(h).code)
    else LastErrorCode(h[..|h| - 1])
  }

  function DueAt(created: int, h: History): int {
    if h == [] then created
    else if Last(h).Retry? then Last(h).at + Last(h).delay
    else DueAt(created, h[..|h| - 1])
  }

  function Expiry(e: Call): int
    requires e.Claim?
  {
    e.at + 1000 * e.leaseSeconds
  }

  /** Which call may come next, told from the past calls alone. */
  predicate Fenced(created: int, h: History, e: Call) {
    match e
    case Claim(_, _, _, at) =>
      if h == [] then created <= at
      else match Last(h) {
        case Claim(_, _, _, _) => Expiry(Last(h)) <= at
        case Retry(_, _, _, delay, failed) => failed + delay <= at
        case _ => false
      }
    case Start(token, expected, at) =>
      && MaySettle(h, token, expected, at)
      && created <= at && (LastErrorAt(h).Some? ==> LastErrorAt(h).value <= at)
    case Retry(token, expected, _, delay, at) =>
      MaySettle(h, token, expected, at) && Last(h).at < at + delay
    case Fail(token, expected, _, at) =>
      MaySettle(h, token, expected, at)
  }

  /** The holder of the claim that is the last call, before it expires. */
  predicate MaySettle(h: History, token: int, expected: int, at: int) {
    h != [] && Last(h).Claim? && Last(h).token == token && expected == |h| && at < Expiry(Last(h))
  }

  predicate FencedHistory(created: int, h: History) {
    h == [] ||
    (FencedHistory(created, h[..|h| - 1]) && ValidArguments(Last(h)) && Fenced(created, h[..|h| - 1], Last(h)))
  }

  /** The row after its history of applied calls. */
  function Replay(i: Identity, h: History): Row {
    if h == [] then Inserted(i) else Updated(Replay(i, h[..|h| - 1]), Last(h))
  }

  function StatusAfter(h: History): Status {
    if h == [] then Pending
    else match Last(h)
      case Claim(_, _, _, _) => Claimed
      case Start(_, _, _) => Started
      case Retry(_, _, _, _, _) => RetryWait
      case Fail(_, _, _, _) => Failed
  }

  /** The inductive invariant: every column is a function of the history, the revision
      counts the applied calls, and the stored times are ordered. */
  predicate Tracks(i: Identity, h: History, r: Row) {
    && r.identity == i
    && r.status == StatusAfter(h)
    && r.revision == |h|
    && r.attempts == Claims(h)
    && r.availableAt == DueAt(i.createdAt, h) >= i.createdAt
    && r.lastErrorAt == LastErrorAt(h) && r.lastErrorCode == LastErrorCode(h)
    && (r.lastErrorCode.Some? <==> r.lastErrorAt.Some?)
    && r.startedAt == (if r.status == Started then Some(Last(h).at) else None)
    && r.failedAt == (if r.status == Failed then Some(Last(h).at) else None)
    && (r.status == Pending ==> h == [])
    && (r.status != Pending ==> r.attempts > 0)
    && (r.status in {Pending, RetryWait, Claimed} && r.lastErrorAt.Some? ==> r.lastErrorAt.value < r.availableAt)
    && if r.status == Claimed then
         && r.claimToken == Some(Last(h).token) && r.claimedBy == Some(Last(h).claimant)
         && r.claimedAt == Some(Last(h).at) && r.claimExpiresAt == Some(Expiry(Last(h)))
         && r.availableAt <= r.claimedAt.value < r.claimExpiresAt.value
       else r.claimToken.None? && r.claimedBy.None? && r.claimedAt.None? && r.claimExpiresAt.None?
  }

  /** One call: procedure, trigger and CHECK apply it to the row exactly when the history
      allows it.  The clock only has to not run backwards between the entry of the
      procedure and its trigger. */
  lemma CallIsFenced(i: Identity, h: History, r: Row, e: Call, now: int)
    requires Tracks(i, h, r) && ValidArguments(e) && e.at <= now
    ensures Selects(r, e) && Accepted(now, r, e) <==> Fenced(i.createdAt, h, e)
    ensures Fenced(i.createdAt, h, e) ==> Tracks(i, h + [e], Updated(r, e))
  {
    assert (h + [e])[..|h + [e]| - 1] == h;
    assert Last(h + [e]) == e;
    var n := Updated(r, e);
    match e
    case Claim(_, _, _, _) =>
    case Start(_, _, _) =>
    case Retry(_, _, _, _, _) =>
    case Fail(_, _, _, _) =>
  }

  /** Whole runs: the reachable rows are the replays of the fenced histories, and all of
      them satisfy the invariant. */
  lemma {:induction false} HistoriesAreTracked(i: Identity, h: History)
    requires FencedHistory(i.createdAt, h)
    ensures Tracks(i, h, Replay(i, h)) && Shape(Replay(i, h))
  {
    if h != [] {
      var init := h[..|h| - 1];
      HistoriesAreTracked(i, init);
      assert h == init + [Last(h)];
      CallIsFenced(i, init, Replay(i, init), Last(h), Last(h).at);
    }
  }

  /** A call that selects its row never aborts if it is a claim or a failure; a start or
      retry aborts exactly when its entry time lies before facts already stored. */
  lemma AbortsExactlyWhenStale(i: Identity, h: History, e: Call, now: int)
    requires FencedHistory(i.createdAt, h) && ValidArguments(e) && e.at <= now
    requires Selects(Replay(i, h), e)
    ensures Accepted(now, Replay(i, h), e) <==>
      && (e.Start? ==> i.createdAt <= e.at && (LastErrorAt(h).Some? ==> LastErrorAt(h).value <= e.at))
      && (e.Retry? ==> Last(h).at < e.at + e.delay)
  {
    HistoriesAreTracked(i, h);
    CallIsFenced(i, h, Replay(i, h), e, now);
  }

  /** So no call of a dispatcher that first received the claim ever aborts: it entered
      the settle procedure no earlier than the claim was made. */
  lemma HoldersNeverAbort(i: Identity, h: History, e: Call, now: int)
    requires FencedHistory(i.createdAt, h) && ValidArguments(e) && e.at <= now
    requires Selects(Replay(i, h), e)
    requires !e.Claim? ==> Replay(i, h).claimedAt.Some? && Replay(i, h).claimedAt.value <= e.at
    ensures Accepted(now, Replay(i, h), e)
  {
    HistoriesAreTracked(i, h);
    AbortsExactlyWhenStale(i, h, e, now);
  }

  /** The status one update that trigger and CHECK accept can lead to: a claim, not before an
      earlier one expired, or the end of a claim. */
  predicate StatusFollows(now: int, r: Row, s: Status) {
    match s
    case Pending => false
    case Claimed =>
      || r.status == Pending || r.status == RetryWait
      || (r.status == Claimed && r.claimExpiresAt.Some? && r.claimExpiresAt.value <= now)
    case _ => r.status == Claimed
  }

  /** What the CHECK demands of a row, column by column. */
  predicate Consistent(r: Row) {
    var s, created := r.status, r.identity.createdAt;
    && (if s == Claimed then
          && r.claimToken.Some? && r.claimedAt.Some? && r.claimExpiresAt.Some?
          && created <= r.claimedAt.value < r.claimExpiresAt.value
        else
          r.claimToken.None? && r.claimedBy.None? && r.claimedAt.None? && r.claimExpiresAt.None?)
    && (r.startedAt.Some? <==> s == Started) && (r.failedAt.Some? ==> s == Failed && r.failedAt == r.lastErrorAt)
    && (s == Pending ==> r.availableAt == created && r.attempts == 0 && r.revision == 0)
    && (s != Pending ==> r.attempts >= 1 && r.revision >= (if s == Claimed then 1 else 2))
    && (s != RetryWait ==> created <= r.availableAt)
    && (r.lastErrorCode.Some? ==> r.lastErrorAt.Some?)
    && (s == Pending ==> r.lastErrorAt.None?)
    && (s == RetryWait || s == Failed ==> r.lastErrorCode.Some?)
    && (r.lastErrorAt.Some? ==>
          && (s == RetryWait ==> r.lastErrorAt.value < r.availableAt)
          && (s == Claimed ==> r.lastErrorAt.value <= r.claimedAt.value)
          && (s == Started ==> r.lastErrorAt.value <= r.startedAt.value))
    && (s == Started ==> created <= r.startedAt.value)
  }

  lemma ShapeMeans(r: Row)
    ensures Shape(r) <==> Consistent(r)
  {
  }

  /** Between consistent rows the trigger demands just this: the status follows, the revision
      counts updates and the attempts count claims, only a retry moves the due time, and past
      the claim, and only a retry or failure records an error. */
  lemma TriggerMeans(now: int, a: Row, b: Row)
    requires Consistent(a) && Consistent(b)
    ensures Guard(now, a, b) <==>
      && b.identity == a.identity && b.revision == a.revision + 1 && StatusFollows(now, a, b.status)
      && b.attempts == a.attempts + (if b.status == Claimed then 1 else 0)
      && (if b.status == RetryWait then a.claimedAt.value < b.availableAt else b.availableAt == a.availableAt)
      && (b.status == Claimed || b.status == Started ==>
            b.lastErrorCode == a.lastErrorCode && b.lastErrorAt == a.lastErrorAt)
      && (b.status == Failed ==> b.failedAt.Some?)
  {
  }

  lemma NextStatuses(now: int, i: Identity, h: History, s: Status)
    requires FencedHistory(i.createdAt, h)
    ensures StatusFollows(now, Replay(i, h), s) <==>
      exists n :: Guard(now, Replay(i, h), n) && Shape(n) && n.status == s
  {
    var r := Replay(i, h);
    HistoriesAreTracked(i, h);
    if StatusFollows(now, r, s) {
      var n := Follower(r, s);
      assert Guard(now, r, n) && Shape(n) && n.status == s;
    }
  }

  function Follower(r: Row, s: Status): Row {
    var error := if r.lastErrorAt.Some? then r.lastErrorAt.value else r.identity.createdAt;
    var claimed := if r.claimedAt.Some? then r.claimedAt.value else r.identity.createdAt;
    var at := if r.identity.createdAt > error then r.identity.createdAt else error;
    var failing := s == RetryWait || s == Failed;
    Row(r.identity, s, if s == RetryWait then (if claimed > at then claimed else at) + 1 else r.availableAt,
        if s == Claimed then Some(0) else None, None,
        if s == Claimed then Some(at) else None, if s == Claimed then Some(at + 1) else None,
        if s == Claimed then r.attempts + 1 else r.attempts,
        if failing then Some("") else r.lastErrorCode, if failing then Some(at) else r.lastErrorAt,
        if s == Started then Some(at) else None, if s == Failed then Some(at) else None,
        r.revision + 1)
  }

  // ------------------------------------------------------------------ fencing

  lemma {:induction false} PrefixIsFenced(created: int, h: History, k: nat)
    requires FencedHistory(created, h) && k <= |h|
    ensures FencedHistory(created, h[..k])
    ensures k < |h| ==> ValidArguments(h[k]) && Fenced(created, h[..k], h[k])
  {
    var n := |h| - 1;
    if k < n {
      PrefixIsFenced(created, h[..n], k);
      assert h[..n][..k] == h[..k];
    } else if k == |h| {
      assert h[..k] == h;
    }
  }

  /** Only the most recent claim, unexpired, settles an intent; the expected revision
      alone names that claim, whatever the tokens are. */
  lemma SettlerHoldsLatestClaim(created: int, h: History, k: nat)
    requires FencedHistory(created, h) && k < |h| && !h[k].Claim?
    ensures k > 0 && h[k - 1].Claim? && h[k].expected == k
    ensures h[k].token == h[k - 1].token && h[k].at < Expiry(h[k - 1])
  {
    PrefixIsFenced(created, h, k);
  }

  /** STARTED and FAILED are final, and every claim is settled at most once. */
  lemma SettledAtMostOnce(created: int, h: History, j: nat, k: nat)
    requires FencedHistory(created, h) && j < k < |h|
    ensures h[j].Claim? || h[j].Retry?
    ensures !h[j].Claim? && !h[k].Claim? ==> h[j].expected != h[k].expected
  {
    PrefixIsFenced(created, h, j + 1);
    assert Last(h[..j + 1]) == h[j];
    if !h[j].Claim? { SettlerHoldsLatestClaim(created, h, j); }
    if !h[k].Claim? { SettlerHoldsLatestClaim(created, h, k); }
  }

  /** A holder whose claim is no longer the last call never selects the row again: not
      now and in no continuation, even with an equal token. */
  lemma StaleHolderIsShutOut(i: Identity, h: History, k: nat, more: History, e: Call)
    requires FencedHistory(i.createdAt, h + more) && k + 1 < |h| && h[k].Claim?
    requires !e.Claim? && e.expected == k + 1
    ensures !Selects(Replay(i, h + more), e)
  {
    HistoriesAreTracked(i, h + more);
  }

  /** Leases never overlap: a later claim comes after an earlier one, and after its expiry
      unless the earlier holder gave the claim back. */
  lemma {:induction false} LeasesAreDisjoint(created: int, h: History, j: nat, k: nat)
    requires FencedHistory(created, h) && j < k < |h| && h[j].Claim? && h[k].Claim?
    ensures h[j].at < h[k].at
    ensures h[j + 1].Retry? || Expiry(h[j]) <= h[k].at
    decreases k
  {
    PrefixIsFenced(created, h, k);
    PrefixIsFenced(created, h, j);
    assert Last(h[..k]) == h[k - 1];
    PrefixIsFenced(created, h, k - 1);
    if h[k - 1].Claim? {
      if j < k - 1 { LeasesAreDisjoint(created, h, j, k - 1); }
    } else {
      SettlerHoldsLatestClaim(created, h, k - 1);
      assert Last(h[..k - 1]) == h[k - 2];
      if j < k - 2 { LeasesAreDisjoint(created, h, j, k - 2); }
    }
  }

  /** Counting: attempts is the number of claims, revision the number of applied calls, and
      every release follows a claim of its own. */
  lemma {:induction false} DeliveryCounts(i: Identity, h: History)
    requires FencedHistory(i.createdAt, h)
    ensures Replay(i, h).attempts == Claims(h) && Replay(i, h).revision == |h|
    ensures Claims(h) <= |h| <= 2 * Claims(h)
    ensures h != [] && Last(h).Claim? ==> |h| <= 2 * Claims(h) - 1
    decreases |h|
  {
    HistoriesAreTracked(i, h);
    if h != [] {
      var n := |h| - 1;
      PrefixIsFenced(i.createdAt, h, n);
      DeliveryCounts(i, h[..n]);
      if !Last(h).Claim? {
        assert Last(h[..n]) == h[n - 1];
      }
    }
  }

  // -------------------------------------------------------- claiming in batches

  /** `order by (due time, created_at, id)`. */
  function DueTime(r: Row): int {
    if r.status == Claimed && r.claimExpiresAt.Some? then r.claimExpiresAt.value else r.availableAt
  }

  function Ranks(rows: map<int, Row>): map<int, TopK.Rank> {
    map x | x in rows :: TopK.Rank(DueTime(rows[x]), rows[x].identity.createdAt)
  }

  /** Rows a claim may take: root intents of the namespace that are due and not locked by
      another transaction (`skip locked`). */
  function Candidates(rows: map<int, Row>, namespace: string, at: int, locked: set<int>): set<int> {
    set x | x in rows && x !in locked
      && rows[x].identity.ownedByRun && rows[x].identity.namespace == namespace && Eligible(rows[x], at)
  }

  /** What a claim selects, told from the columns. */
  predicate Claimable(r: Row, namespace: string, at: int) {
    && r.identity.ownedByRun && r.identity.namespace == namespace
    && match r.status
       case Pending => r.availableAt <= at
       case RetryWait => r.availableAt <= at
       case Claimed => r.claimExpiresAt.Some? && r.claimExpiresAt.value <= at
       case Started => false
       case Failed => false
  }

  /** `a` is served before `b`: it is due earlier, or was created earlier, or has the smaller id. */
  predicate ServedBefore(a: Row, b: Row) {
    var dueA := if a.status == Claimed && a.claimExpiresAt.Some? then a.claimExpiresAt.value else a.availableAt;
    var dueB := if b.status == Claimed && b.claimExpiresAt.Some? then b.claimExpiresAt.value else b.availableAt;
    if dueA != dueB then dueA < dueB
    else if a.identity.createdAt != b.identity.createdAt then a.identity.createdAt < b.identity.createdAt
    else a.identity.id < b.identity.id
  }

  /** The batch of a claim: up to `limit` unlocked claimable rows, none of which is served after
      a claimable row that is left out. */
  predicate IsBatch(
      rows: map<int, Row>, claimed: set<int>, namespace: string, limit: int, at: int, locked: set<int>)
  {
    var due := set x | x in rows && x !in locked && Claimable(rows[x], namespace, at);
    && claimed <= due && |claimed| == (if |due| < limit then |due| else limit)
    && forall x, y :: x in claimed && y in due && y !in claimed ==> ServedBefore(rows[x], rows[y])
  }

  lemma ClaimableMeans(r: Row, namespace: string, at: int)
    ensures Claimable(r, namespace, at) <==>
      r.identity.ownedByRun && r.identity.namespace == namespace && Eligible(r, at)
  {
  }

  lemma FirstRowsAreBatch(rows: map<int, Row>, namespace: string, limit: nat, at: int, locked: set<int>)
    requires forall x :: x in rows ==> rows[x].identity.id == x
    ensures IsBatch(
      rows, TopK.FirstK(Ranks(rows), Candidates(rows, namespace, at, locked), limit), namespace, limit, at, locked)
  {
    var due := Candidates(rows, namespace, at, locked);
    forall x | x in rows
      ensures Claimable(rows[x], namespace, at) <==>
        rows[x].identity.ownedByRun && rows[x].identity.namespace == namespace && Eligible(rows[x], at)
    {
      ClaimableMeans(rows[x], namespace, at);
    }
    assert due == set x | x in rows && x !in locked && Claimable(rows[x], namespace, at);
    TopK.FirstKIsTopK(Ranks(rows), due, limit);
    var claimed := TopK.FirstK(Ranks(rows), due, limit);
    forall x, y | x in claimed && y in due && y !in claimed ensures ServedBefore(rows[x], rows[y]) {
      assert TopK.Before(Ranks(rows), x, y);
    }
  }

  function AllClaimed(
      rows: map<int, Row>, claimed: set<int>, claimant: string, lease: int, at: int, tokens: map<int, int>)
      : map<int, Row>
    requires rows.Keys <= tokens.Keys
  {
    map x | x in rows :: if x in claimed then Updated(rows[x], Claim(tokens[x], claimant, lease, at)) else rows[x]
  }

  ghost function AllRecorded(
      histories: map<int, History>, claimed: set<int>, claimant: string, lease: int, at: int, tokens: map<int, int>)
      : map<int, History>
    requires histories.Keys <= tokens.Keys
  {
    map x | x in histories ::
      if x in claimed then histories[x] + [Claim(tokens[x], claimant, lease, at)] else histories[x]
  }

  /** Row `r` with id `id` is what its history left. */
  predicate Recorded(id: int, h: History, r: Row) {
    r.identity.id == id && FencedHistory(r.identity.createdAt, h) && Tracks(r.identity, h, r)
  }

  lemma ClaimsAreApplied(
      rows: map<int, Row>, histories: map<int, History>, claimed: set<int>,
      claimant: string, lease: int, at: int, tokens: map<int, int>, now: int)
    requires rows.Keys == histories.Keys && rows.Keys <= tokens.Keys && claimed <= rows.Keys
    requires 1 <= lease <= 900 && at <= now
    requires forall x :: x in rows ==> Recorded(x, histories[x], rows[x])
    requires forall x :: x in claimed ==> Eligible(rows[x], at)
    ensures forall x :: x in claimed ==> Accepted(now, rows[x], Claim(tokens[x], claimant, lease, at))
    ensures
      var rs := AllClaimed(rows, claimed, claimant, lease, at, tokens);
      var hs := AllRecorded(histories, claimed, claimant, lease, at, tokens);
      forall x :: x in rows ==> Recorded(x, hs[x], rs[x])
  {
    forall x | x in claimed
      ensures var e := Claim(tokens[x], claimant, lease, at);
        Accepted(now, rows[x], e) && Recorded(x, histories[x] + [e], Updated(rows[x], e))
    {
      ClaimIsApplied(rows[x], rows[x].identity, histories[x], Claim(tokens[x], claimant, lease, at), now);
    }
  }

  lemma BatchIsApplied(
      rows: map<int, Row>, histories: map<int, History>, claimed: set<int>, namespace: string, limit: nat,
      locked: set<int>, claimant: string, lease: int, at: int, tokens: map<int, int>, now: int)
    requires rows.Keys == histories.Keys && rows.Keys <= tokens.Keys && 1 <= lease <= 900 && at <= now
    requires forall x :: x in rows ==> Recorded(x, histories[x], rows[x])
    requires claimed == TopK.FirstK(Ranks(rows), Candidates(rows, namespace, at, locked), limit)
    ensures claimed <= rows.Keys && IsBatch(rows, claimed, namespace, limit, at, locked)
    ensures forall x :: x in claimed ==> Accepted(now, rows[x], Claim(tokens[x], claimant, lease, at))
    ensures
      var rs := AllClaimed(rows, claimed, claimant, lease, at, tokens);
      var hs := AllRecorded(histories, claimed, claimant, lease, at, tokens);
      forall x :: x in rows ==> Recorded(x, hs[x], rs[x])
  {
    assert claimed <= Candidates(rows, namespace, at, locked) by {
      TopK.FirstKIsTopK(Ranks(rows), Candidates(rows, namespace, at, locked), limit);
    }
    FirstRowsAreBatch(rows, namespace, limit, at, locked);
    ClaimsAreApplied(rows, histories, claimed, claimant, lease, at, tokens, now);
  }

  /** A call applies, selects no row, is aborted by trigger or CHECK, or is refused for its arguments. */
  datatype Outcome = Applied | NoRow | Aborted | Invalid

  /** The start-intent table. */
  class StartIntentTable {
    var rows: map<int, Row>
    ghost var histories: map<int, History>

    ghost predicate Valid()
      reads this
    {
      histories.Keys == rows.Keys && forall x :: x in rows ==> Recorded(x, histories[x], rows[x])
    }

    constructor ()
      ensures Valid() && rows == map[]
    {
      rows, histories := map[], map[];
    }

    /** The insert made by the seal, whose trigger fixes the due time. */
    method Insert(i: Identity) returns (ok: bool)
      requires Valid()
      modifies this
      ensures Valid()
      ensures ok <==> i.id !in old(rows)
      ensures rows == if ok then old(rows)[i.id := Inserted(i)] else old(rows)
      ensures histories == if ok then old(histories)[i.id := []] else old(histories)
    {
      ok := i.id !in rows;
      if ok {
        rows := rows[i.id := Inserted(i)];
        histories := histories[i.id := []];
      }
    }

    /** Started, retry and fail. */
    method Settle(id: int, e: Call, now: int) returns (outcome: Outcome)
      requires Valid() && !e.Claim? && e.at <= now
      modifies this
      ensures Valid()
      ensures outcome == Invalid <==>
        e.expected < 1 || (e.Retry? && !(100 <= e.delay <= 3_600_000))
      ensures outcome == NoRow <==>
        && outcome != Invalid
        && !(id in old(rows) && MaySettle(old(histories)[id], e.token, e.expected, e.at))
      ensures outcome == Applied <==>
        outcome != Invalid && id in old(rows) && Fenced(old(rows)[id].identity.createdAt, old(histories)[id], e)
      ensures outcome == Applied ==>
        && rows == old(rows)[id := Updated(old(rows)[id], e)]
        && histories == old(histories)[id := old(histories)[id] + [e]]
      ensures outcome != Applied ==> rows == old(rows) && histories == old(histories)
      ensures outcome == Aborted ==> id in old(rows) && Selects(old(rows)[id], e) && !e.Fail?
    {
      if !ValidArguments(e) { return Invalid; }
      if id !in rows || !Selects(rows[id], e) { return NoRow; }
      ghost var i, h := rows[id].identity, histories[id];
      CallIsFenced(i, h, rows[id], e, now);
      if !Accepted(now, rows[id], e) { return Aborted; }
      HistoryExtends(i.createdAt, h, e);
      rows := rows[id := Updated(rows[id], e)];
      histories := histories[id := h + [e]];
      outcome := Applied;
    }

    /** Claim up to `limit` due intents; each gets its own token. */
    method ClaimBatch(
        claimant: string, namespace: string, limit: int, leaseSeconds: int, at: int,
        locked: set<int>, tokens: map<int, int>, ghost now: int)
      returns (ok: bool, claimed: set<int>)
      requires Valid() && at <= now
      requires rows.Keys <= tokens.Keys
      modifies this
      ensures Valid()
      ensures ok <==> 1 <= limit <= 100 && 1 <= leaseSeconds <= 900
      ensures !ok ==> rows == old(rows) && histories == old(histories)
      ensures ok ==>
        && IsBatch(old(rows), claimed, namespace, limit, at, locked)
        && claimed <= old(rows).Keys
        && (forall x :: x in claimed ==> Accepted(now, old(rows)[x], Claim(tokens[x], claimant, leaseSeconds, at)))
        && rows == AllClaimed(old(rows), claimed, claimant, leaseSeconds, at, tokens)
        && histories == AllRecorded(old(histories), claimed, claimant, leaseSeconds, at, tokens)
    {
      ok := 1 <= limit <= 100 && 1 <= leaseSeconds <= 900;
      claimed := {};
      if !ok { return; }
      var due := Candidates(rows, namespace, at, locked);
      claimed := TopK.FirstK(Ranks(rows), due, limit);
      BatchIsApplied(rows, histories, claimed, namespace, limit, locked, claimant, leaseSeconds, at, tokens, now);
      histories := AllRecorded(histories, claimed, claimant, leaseSeconds, at, tokens);
      rows := AllClaimed(rows, claimed, claimant, leaseSeconds, at, tokens);
    }
  }

  lemma HistoryExtends(created: int, h: History, e: Call)
    requires FencedHistory(created, h) && ValidArguments(e) && Fenced(created, h, e)
    ensures FencedHistory(created, h + [e])
  {
    assert (h + [e])[..|h + [e]| - 1] == h;
  }

  lemma ClaimIsApplied(r: Row, i: Identity, h: History, e: Call, now: int)
    requires Tracks(i, h, r) && FencedHistory(i.createdAt, h) && ValidArguments(e) && e.at <= now
    requires e.Claim? && Eligible(r, e.at)
    ensures Accepted(now, r, e) && FencedHistory(i.createdAt, h + [e]) && Tracks(i, h + [e], Updated(r, e))
  {
    CallIsFenced(i, h, r, e, now);
    HistoryExtends(i.createdAt, h, e);
  }
}
