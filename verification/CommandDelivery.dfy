/** Cancel, pause and resume commands of task runs: the fenced delivery of one command. */
module CommandDelivery {
  import opened Sql

  datatype Kind = Cancel | Pause | Resume
  datatype Status = Pending | Claimed | RetryWait | Delivered | Applied | Failed | Superseded

  datatype Identity = Identity(id: int, run: int, kind: Kind, namespace: string, acceptedRevision: int, createdAt: int)

  datatype Row = Row(
    identity: Identity,
    status: Status,
    availableAt: int,
    claimToken: Option<int>, claimedBy: Option<string>, claimedAt: Option<int>, claimExpiresAt: Option<int>,
    attempts: int,
    lastErrorCode: Option<string>, lastErrorAt: Option<int>,
    deliveredAt: Option<int>, appliedAt: Option<int>, failedAt: Option<int>,
    supersededAt: Option<int>, supersededBy: Option<int>,
    revision: int, updatedAt: int)

  function Inserted(i: Identity): Row {
    Row(i, Pending, i.createdAt, None, None, None, None, 0, None, None, None, None, None, None, None, 0, i.createdAt)
  }

  predicate Open(r: Row) { r.status in {Pending, Claimed, RetryWait, Delivered} }

  /** A pause or resume command that is still to be settled. */
  predicate OpenControl(r: Row) { r.identity.kind != Cancel && Open(r) }

  // ------------------------------------------------- column CHECKs and trigger

  predicate NoClaim(r: Row) {
    r.claimToken.None? && r.claimedBy.None? && r.claimedAt.None? && r.claimExpiresAt.None?
  }

  predicate Since(t: Option<int>, floor: int) { t.Some? ==> t.value >= floor }

  predicate ContractShape(r: Row) {
    var created := r.identity.createdAt;
    && r.attempts >= 0 && r.revision >= 0 && r.updatedAt >= created
    && Since(r.lastErrorAt, created) && Since(r.deliveredAt, created) && Since(r.appliedAt, created)
    && Since(r.failedAt, created) && Since(r.supersededAt, created)
    && r.supersededBy != Some(r.identity.id)
  }

  predicate Unsettled(r: Row) {
    r.appliedAt.None? && r.failedAt.None? && r.supersededAt.None? && r.supersededBy.None?
  }

  /** The delivery-shape CHECK; a missing claimant or failure time leaves it undecided and
      passes. */
  predicate DeliveryShape(r: Row) {
    match r.status
    case Pending =>
      && r.availableAt == r.identity.createdAt && NoClaim(r) && r.attempts == 0 && r.revision == 0
      && r.lastErrorCode.None? && r.lastErrorAt.None? && r.deliveredAt.None? && Unsettled(r)
    case Claimed =>
      && r.claimToken.Some? && r.claimedAt.Some? && r.claimExpiresAt.Some?
      && r.claimedAt.value < r.claimExpiresAt.value
      && r.attempts > 0 && r.revision > 0 && r.deliveredAt.None? && Unsettled(r)
    case RetryWait =>
      && r.lastErrorCode.Some? && r.lastErrorAt.Some? && r.availableAt > r.lastErrorAt.value
      && NoClaim(r) && r.attempts > 0 && r.revision > 1 && r.deliveredAt.None? && Unsettled(r)
    case Delivered =>
      && NoClaim(r) && r.attempts > 0 && r.revision > 1 && r.deliveredAt.Some? && Unsettled(r)
    case Applied =>
      && NoClaim(r) && r.revision > 0
      && r.appliedAt.Some? && r.failedAt.None? && r.supersededAt.None? && r.supersededBy.None?
    case Failed =>
      && NoClaim(r) && r.attempts > 0 && r.revision > 1
      && r.lastErrorCode.Some? && r.lastErrorAt.Some? && r.appliedAt.None?
      && (r.failedAt.Some? ==> r.failedAt == r.lastErrorAt)
      && r.supersededAt.None? && r.supersededBy.None?
    case Superseded =>
      && NoClaim(r) && r.revision > 0 && r.appliedAt.None? && r.failedAt.None?
      && r.supersededAt.Some? && r.supersededBy.Some?
  }

  predicate Shape(r: Row) { ContractShape(r) && DeliveryShape(r) }

  predicate Transition(a: Status, b: Status) {
    || (a in {Pending, RetryWait} && b in {Claimed, Applied, Superseded})
    || (a == Claimed && b != Pending)
    || (a == Delivered && b in {Applied, Superseded})
  }

  predicate Guard(old_: Row, new_: Row) {
    new_.identity == old_.identity && new_.revision == old_.revision + 1 && Transition(old_.status, new_.status)
  }

  // ------------------------------------------------------------ one row, one call

  /** One update of one row.  `canceled` tells a failure that its run is already CLOSED
      with quality CANCELED. */
  datatype Call =
    | Claim(token: int, claimant: string, leaseSeconds: int, at: int)
    | Deliver(token: int, expected: int, at: int)
    | Retry(token: int, expected: int, code: string, delay: int, at: int)
    | Fail(token: int, expected: int, code: string, at: int, canceled: bool)
    | Apply(at: int)
    | Supersede(by_: int, at: int)

  predicate ValidArguments(e: Call) {
    match e
    case Claim(_, _, lease, _) => 1 <= lease <= 900
    case Retry(_, _, _, delay, _) => 100 <= delay <= 3_600_000
    case _ => true
  }

  predicate Eligible(r: Row, at: int) {
    || (r.status in {Pending, RetryWait} && r.availableAt <= at)
    || (r.status == Claimed && r.claimExpiresAt.Some? && r.claimExpiresAt.value <= at)
  }

  predicate HeldBy(r: Row, token: int, expected: int, at: int) {
    && r.status == Claimed && r.claimToken == Some(token) && r.revision == expected
    && r.claimExpiresAt.Some? && at < r.claimExpiresAt.value
  }

  /** The row conditions of the procedures; a cancel needs to have reached its workflow
      before it applies. */
  predicate Selects(r: Row, e: Call) {
    match e
    case Claim(_, _, _, at) => Eligible(r, at)
    case Deliver(token, expected, at) => HeldBy(r, token, expected, at)
    case Retry(token, expected, _, _, at) => HeldBy(r, token, expected, at)
    case Fail(token, expected, _, at, _) => HeldBy(r, token, expected, at)
    case Apply(_) => if r.identity.kind == Cancel then r.status in {Claimed, Delivered} else Open(r)
    case Supersede(by_, _) => OpenControl(r) && r.identity.id != by_
  }

  function Released(r: Row, at: int): Row {
    r.(claimToken := None, claimedBy := None, claimedAt := None, claimExpiresAt := None,
       revision := r.revision + 1, updatedAt := at)
  }

  function Updated(r: Row, e: Call): Row {
    match e
    case Claim(token, claimant, lease, at) =>
      r.(status := Claimed, claimToken := Some(token), claimedBy := Some(claimant), claimedAt := Some(at),
         claimExpiresAt := Some(at + 1000 * lease), attempts := r.attempts + 1, revision := r.revision + 1,
         updatedAt := at)
    case Deliver(_, _, at) => Released(r, at).(status := Delivered, deliveredAt := Some(at))
    case Retry(_, _, code, delay, at) =>
      Released(r, at).(
        status := RetryWait, availableAt := at + delay, lastErrorCode := Some(code), lastErrorAt := Some(at))
    case Fail(_, _, code, at, canceled) =>
      if canceled then
        Released(r, at).(
          status := Applied, lastErrorCode := None, lastErrorAt := None, appliedAt := Some(at), failedAt := None)
      else
        Released(r, at).(
          status := Failed, lastErrorCode := Some(code), lastErrorAt := Some(at),
          appliedAt := None, failedAt := Some(at))
    case Apply(at) => Released(r, at).(status := Applied, appliedAt := Some(at))
    case Supersede(by_, at) =>
      Released(r, at).(status := Superseded, supersededAt := Some(at), supersededBy := Some(by_))
  }

  predicate Accepted(r: Row, e: Call) { Guard(r, Updated(r, e)) && Shape(Updated(r, e)) }

  // ----------------------------------------------------------------- row histories

  type History = seq<Call>

  function Last(h: History): Call
    requires h != []
  {
    h[|h| - 1]
  }

  function Claims(h: History): nat {
    if h == [] then 0 else Claims(h[..|h| - 1]) + (if Last(h).Claim? then 1 else 0)
  }

  function DueAt(created: int, h: History): int {
    if h == [] then created
    else if Last(h).Retry? then Last(h).at + Last(h).delay
    else DueAt(created, h[..|h| - 1])
  }

  function DeliveredAt(h: History): Option<int> {
    if h == [] then None else if Last(h).Deliver? then Some(Last(h).at) else DeliveredAt(h[..|h| - 1])
  }

  /** The recorded error, which a failure after cancellation erases. */
  function LastError(h: History): Option<(string, int)> {
    if h == [] then None
    else if Last(h).Retry? then Some((Last(h).code, Last(h).at))
    else if Last(h).Fail? then (if Last(h).canceled then None else Some((Last(h).code, Last(h).at)))
    else LastError(h[..|h| - 1])
  }

  function Expiry(e: Call): int
    requires e.Claim?
  {
    e.at + 1000 * e.leaseSeconds
  }

  predicate MaySettle(h: History, token: int, expected: int, at: int) {
    h != [] && Last(h).Claim? && Last(h).token == token && expected == |h| && at < Expiry(Last(h))
  }

  predicate Unfinished(h: History) { h == [] || Last(h).Claim? || Last(h).Retry? || Last(h).Deliver? }

  /** Which call may come next, told from the past calls alone. */
  predicate Fenced(i: Identity, h: History, e: Call) {
    match e
    case Claim(_, _, _, at) =>
      if h == [] then i.createdAt <= at
      else match Last(h) {
        case Claim(_, _, _, _) => Expiry(Last(h)) <= at
        case Retry(_, _, _, delay, failed) => failed + delay <= at
        case _ => false
      }
    case Deliver(token, expected, at) => MaySettle(h, token, expected, at) && i.createdAt <= at
    case Retry(token, expected, _, _, at) => MaySettle(h, token, expected, at) && i.createdAt <= at
    case Fail(token, expected, _, at, _) => MaySettle(h, token, expected, at) && i.createdAt <= at
    case Apply(at) =>
      && i.createdAt <= at
      && if i.kind == Cancel then h != [] && (Last(h).Claim? || Last(h).Deliver?) else Unfinished(h)
    case Supersede(by_, at) => i.kind != Cancel && by_ != i.id && Unfinished(h) && i.createdAt <= at
  }

  predicate FencedHistory(i: Identity, h: History) {
    h == [] || (FencedHistory(i, h[..|h| - 1]) && ValidArguments(Last(h)) && Fenced(i, h[..|h| - 1], Last(h)))
  }

  function Replay(i: Identity, h: History): Row {
    if h == [] then Inserted(i) else Updated(Replay(i, h[..|h| - 1]), Last(h))
  }

  function StatusAfter(h: History): Status {
    if h == [] then Pending
    else match Last(h)
      case Claim(_, _, _, _) => Claimed
      case Deliver(_, _, _) => Delivered
      case Retry(_, _, _, _, _) => RetryWait
      case Fail(_, _, _, _, canceled) => if canceled then Applied else Failed
      case Apply(_) => Applied
      case Supersede(_, _) => Superseded
  }

  /** The inductive invariant of a row. */
  predicate Tracks(i: Identity, h: History, r: Row) {
    && r.identity == i
    && r.status == StatusAfter(h) && r.revision == |h| && r.attempts == Claims(h)
    && r.availableAt == DueAt(i.createdAt, h) >= i.createdAt
    && Since(r.lastErrorAt, i.createdAt)
    && (r.status == Claimed ==>
          && r.claimToken == Some(Last(h).token) && r.claimedBy == Some(Last(h).claimant)
          && r.claimedAt == Some(Last(h).at) && r.claimExpiresAt == Some(Expiry(Last(h)))
          && i.createdAt <= Last(h).at)
    && Stamped(i, h, r)
    && Shape(r)
  }

  /** The settling columns say when and by what the row was settled. */
  predicate Stamped(i: Identity, h: History, r: Row)
    requires r.status == StatusAfter(h)
  {
    && (h != [] ==> r.updatedAt == Last(h).at)
    && r.deliveredAt == DeliveredAt(h)
    && (LastError(h).Some? ==>
          r.lastErrorCode == Some(LastError(h).value.0) && r.lastErrorAt == Some(LastError(h).value.1))
    && (LastError(h).None? ==> r.lastErrorCode.None? && r.lastErrorAt.None?)
    && r.appliedAt == (if r.status == Applied then Some(Last(h).at) else None)
    && r.failedAt == (if r.status == Failed then Some(Last(h).at) else None)
    && r.supersededAt == (if r.status == Superseded then Some(Last(h).at) else None)
    && r.supersededBy == (if r.status == Superseded then Some(Last(h).by_) else None)
  }

  lemma AfterCall(i: Identity, h: History, e: Call)
    ensures Last(h + [e]) == e && Claims(h + [e]) == Claims(h) + (if e.Claim? then 1 else 0)
    ensures DueAt(i.createdAt, h + [e]) == if e.Retry? then e.at + e.delay else DueAt(i.createdAt, h)
    ensures DeliveredAt(h + [e]) == if e.Deliver? then Some(e.at) else DeliveredAt(h)
    ensures LastError(h + [e]) ==
      if e.Retry? || (e.Fail? && !e.canceled) then Some((e.code, e.at)) else if e.Fail? then None else LastError(h)
  {
    assert (h + [e])[..|h + [e]| - 1] == h;
  }

  lemma AcceptedIsFenced(i: Identity, h: History, r: Row, e: Call)
    requires Tracks(i, h, r) && ValidArguments(e) && Selects(r, e) && Accepted(r, e)
    ensures Fenced(i, h, e)
  {
  }

  lemma FencedIsSelected(i: Identity, h: History, r: Row, e: Call)
    requires Tracks(i, h, r) && ValidArguments(e) && Fenced(i, h, e)
    ensures Selects(r, e) && i.createdAt <= e.at
  {
  }

  lemma FencedIsAccepted(i: Identity, h: History, r: Row, e: Call)
    requires Tracks(i, h, r) && ValidArguments(e) && Selects(r, e) && i.createdAt <= e.at
    ensures Accepted(r, e)
  {
  }

  lemma FencedIsTracked(i: Identity, h: History, r: Row, e: Call)
    requires Tracks(i, h, r) && ValidArguments(e) && Selects(r, e) && i.createdAt <= e.at && Shape(Updated(r, e))
    ensures Tracks(i, h + [e], Updated(r, e))
  {
    AfterCall(i, h, e);
  }

  /** One call: selection, trigger and CHECKs apply it exactly when the history allows it. */
  lemma CallIsFenced(i: Identity, h: History, r: Row, e: Call)
    requires Tracks(i, h, r) && ValidArguments(e)
    ensures Selects(r, e) && Accepted(r, e) <==> Fenced(i, h, e)
    ensures Fenced(i, h, e) ==> Tracks(i, h + [e], Updated(r, e))
  {
    if Fenced(i, h, e) {
      FencedIsSelected(i, h, r, e);
      FencedIsAccepted(i, h, r, e);
      FencedIsTracked(i, h, r, e);
    } else if Selects(r, e) && Accepted(r, e) {
      AcceptedIsFenced(i, h, r, e);
    }
  }

  /** Rows inserted as PENDING, and only these, start an empty history. */
  lemma PendingIsTracked(r: Row)
    requires Shape(r)
    ensures r.status == Pending <==> Tracks(r.identity, [], r)
  {
  }

  lemma {:induction false} HistoriesAreTracked(i: Identity, h: History)
    requires FencedHistory(i, h)
    ensures Tracks(i, h, Replay(i, h))
  {
    if h != [] {
      var init := h[..|h| - 1];
      HistoriesAreTracked(i, init);
      assert h == init + [Last(h)];
      CallIsFenced(i, init, Replay(i, init), Last(h));
    }
  }

  /** A claim never aborts; any other selected call aborts exactly when its transaction
      started before the command was created. */
  lemma AbortsExactlyWhenStale(i: Identity, h: History, e: Call)
    requires FencedHistory(i, h) && ValidArguments(e) && Selects(Replay(i, h), e)
    ensures Accepted(Replay(i, h), e) <==> e.Claim? || i.createdAt <= e.at
  {
    HistoriesAreTracked(i, h);
    CallIsFenced(i, h, Replay(i, h), e);
  }

  lemma {:induction false} PrefixIsFenced(i: Identity, h: History, k: nat)
    requires FencedHistory(i, h) && k <= |h|
    ensures FencedHistory(i, h[..k])
    ensures k < |h| ==> ValidArguments(h[k]) && Fenced(i, h[..k], h[k])
  {
    var n := |h| - 1;
    if k < n {
      PrefixIsFenced(i, h[..n], k);
      assert h[..n][..k] == h[..k];
    } else if k == |h| {
      assert h[..k] == h;
    }
  }

  /** Counting over every run: attempts is the number of claims and revision the number of
      updates; only the last update can lack a claim of its own. */
  lemma {:induction false} DeliveryCounts(i: Identity, h: History)
    requires FencedHistory(i, h)
    ensures Replay(i, h).attempts == Claims(h) && Replay(i, h).revision == |h|
    ensures Claims(h) <= |h| <= 2 * Claims(h) + 1
    ensures Unfinished(h) ==> |h| <= 2 * Claims(h)
    decreases |h|
  {
    HistoriesAreTracked(i, h);
    if h != [] {
      var n := |h| - 1;
      PrefixIsFenced(i, h, n);
      DeliveryCounts(i, h[..n]);
      if n > 0 && !Last(h).Claim? {
        assert Last(h[..n]) == h[n - 1];
        PrefixIsFenced(i, h, n - 1);
        DeliveryCounts(i, h[..n - 1]);
        assert h[..n][..n - 1] == h[..n - 1];
      }
    }
  }

  /** APPLIED, FAILED and SUPERSEDED are final. */
  lemma SettledIsFinal(i: Identity, h: History, j: nat)
    requires FencedHistory(i, h) && j + 1 < |h|
    ensures h[j].Claim? || h[j].Retry? || h[j].Deliver?
    ensures h[j].Deliver? ==> j + 2 == |h| && (h[j + 1].Apply? || h[j + 1].Supersede?)
  {
    PrefixIsFenced(i, h, j + 1);
    assert Last(h[..j + 1]) == h[j];
    if j + 2 < |h| {
      PrefixIsFenced(i, h, j + 2);
      assert Last(h[..j + 2]) == h[j + 1];
    }
  }
}
