/** The append-only browser report log of one execution contract.

    The insert guard looks at most two rows back; `Grammar` says what the whole log
    looks like.  The guard accepts exactly the logs of the grammar. */
module ReportChain {
  import opened Sql

  datatype Kind =
    | ExecutionStarted | NodeStarted | ObservationCaptured
    | ActionProposed | PolicyDecided | ActionExecuted
    | ArtifactCaptured | AssertionEvaluated | NodeCompleted
    | ExecutionBlocked | ExecutionCompleted

  datatype Report = Report(
    sequence: int,
    kind: Kind,
    actorSlot: Option<string>,
    actionId: Option<int>,
    decision: Option<string>,  // payload ->> 'decision'
    action: Option<string>,    // payload ->> 'action'
    status: Option<string>,    // payload ->> 'status'
    previousDigest: string,
    chainDigest: string,
    occurredAt: int,
    recordedAt: int)

  /** The frozen window of the contract the reports belong to. */
  datatype Contract = Contract(createdAt: int, deadline: int)

  const GENESIS := "sha256:0000000000000000000000000000000000000000000000000000000000000000"
  const MAX_SEQUENCE := 10_000_000

  predicate IsAction(k: Kind) { k in {ActionProposed, PolicyDecided, ActionExecuted} }

  predicate InWindow(c: Contract, r: Report) {
    c.createdAt <= r.occurredAt <= r.recordedAt <= c.deadline
  }

  predicate WellShaped(r: Report) {
    if IsAction(r.kind) then r.actionId.Some? && r.actorSlot.Some? else r.actionId.None?
  }

  predicate SameAction(a: Report, b: Report) { a.actionId == b.actionId && a.actorSlot == b.actorSlot }

  // ---------------------------------------------------------------- the guard

  /** What the guard reads of the stored rows: the previous row, the row before it,
      and, for a proposal, whether the action id occurs anywhere. */
  predicate LookBack(table: map<int, Report>, r: Report) {
    if r.sequence == 1 then
      r.kind == ExecutionStarted && r.previousDigest == GENESIS
    else
      && r.kind != ExecutionStarted
      && r.sequence - 1 in table
      && var p := table[r.sequence - 1];
      && p.chainDigest == r.previousDigest
      && p.kind != ExecutionCompleted
      && p.occurredAt <= r.occurredAt
      && (r.kind == ActionProposed ==> forall q :: q in table ==> table[q].actionId != r.actionId)
      && (p.kind == ActionProposed ==> r.kind == PolicyDecided && SameAction(p, r))
      && (r.kind == PolicyDecided ==> p.kind == ActionProposed && SameAction(p, r))
      && (p.kind == PolicyDecided && p.decision == Some("ALLOW") && r.kind != ExecutionBlocked
          ==> r.kind == ActionExecuted && SameAction(p, r))
      && (p.kind == PolicyDecided && p.decision != Some("ALLOW") ==> r.kind == ExecutionBlocked)
      && (r.kind == ActionExecuted ==>
            && p.kind == PolicyDecided && p.decision == Some("ALLOW") && SameAction(p, r)
            && r.sequence - 2 in table
            && var q := table[r.sequence - 2];
            && q.kind == ActionProposed && SameAction(q, r) && q.action == r.action)
  }

  /** The unique index on (contract, action id, kind). */
  predicate ActionKindUnique(table: map<int, Report>, r: Report) {
    r.actionId.Some? ==>
      forall q :: q in table ==> !(table[q].actionId == r.actionId && table[q].kind == r.kind)
  }

  /** Trigger, column checks and unique constraints together. */
  predicate Accepts(c: Contract, table: map<int, Report>, r: Report) {
    && InWindow(c, r)
    && WellShaped(r)
    && LookBack(table, r)
    && 1 <= r.sequence <= MAX_SEQUENCE
    && r.sequence !in table
    && ActionKindUnique(table, r)
  }

  // -------------------------------------------------------------- the grammar
  // It is written on the columns alone and shares no condition with the guard.

  predicate Decides(proposal: Report, d: Report) {
    d.kind == PolicyDecided && d.actionId == proposal.actionId && d.actorSlot == proposal.actorSlot
  }

  predicate Settles(proposal: Report, d: Report, e: Report) {
    || e.kind == ExecutionBlocked
    || (&& d.decision == Some("ALLOW") && e.kind == ActionExecuted
        && e.actionId == proposal.actionId && e.actorSlot == proposal.actorSlot && e.action == proposal.action)
  }

  /** From position i on, the log is a sequence of whole items: a plain report, or a
      proposal with its decision and its receipt or block.  Only the last item may
      still be unfinished, and nothing follows completion. */
  predicate Items(rs: seq<Report>, i: nat)
    decreases |rs| - i
  {
    if i >= |rs| then true
    else match rs[i].kind
      case ExecutionStarted => false
      case PolicyDecided => false
      case ActionExecuted => false
      case ExecutionCompleted => i + 1 == |rs|
      case ActionProposed =>
        i + 1 == |rs| ||
        (Decides(rs[i], rs[i + 1]) &&
         (i + 2 == |rs| || (Settles(rs[i], rs[i + 1], rs[i + 2]) && Items(rs, i + 3))))
      case _ => Items(rs, i + 1)
  }

  predicate Linked(rs: seq<Report>) {
    forall i :: 0 < i < |rs| ==> rs[i].previousDigest == rs[i - 1].chainDigest
  }

  predicate TimeOrdered(rs: seq<Report>) {
    forall i, j :: 0 <= i <= j < |rs| ==> rs[i].occurredAt <= rs[j].occurredAt
  }

  /** No action id is proposed twice. */
  predicate ProposedOnce(rs: seq<Report>) {
    forall i, j :: 0 <= i < j < |rs| && rs[i].kind == ActionProposed && rs[j].kind == ActionProposed
      ==> rs[i].actionId != rs[j].actionId
  }

  /** A row in its place: in the window of its contract, with an action id exactly on the three
      kinds of action report, and an actor on these. */
  predicate InPlace(c: Contract, r: Report, position: int) {
    && r.sequence == position
    && c.createdAt <= r.occurredAt && r.occurredAt <= r.recordedAt && r.recordedAt <= c.deadline
    && (r.actionId.Some? <==> r.kind == ActionProposed || r.kind == PolicyDecided || r.kind == ActionExecuted)
    && (r.actionId.Some? ==> r.actorSlot.Some?)
  }

  /** The digest a log starts from. */
  predicate IsGenesis(digest: string) {
    digest == "sha256:0000000000000000000000000000000000000000000000000000000000000000"
  }

  predicate Grammar(c: Contract, rs: seq<Report>) {
    && |rs| <= 10_000_000
    && (forall i :: 0 <= i < |rs| ==> InPlace(c, rs[i], i + 1))
    && (rs != [] ==> rs[0].kind == ExecutionStarted && IsGenesis(rs[0].previousDigest))
    && Items(rs, 1)
    && Linked(rs)
    && TimeOrdered(rs)
    && ProposedOnce(rs)
  }

  /** The stored rows of a log, keyed by sequence. */
  function Table(rs: seq<Report>): map<int, Report> {
    map q | 1 <= q <= |rs| :: At(rs, q)
  }

  function At(rs: seq<Report>, q: int): Report
    requires 1 <= q <= |rs|
  {
    rs[q - 1]
  }

  // ------------------------------------------------- look-back is the grammar

  /** The part of the look-back that concerns kinds only. */
  predicate Follows(rs: seq<Report>, r: Report)
    requires rs != []
  {
    var p := rs[|rs| - 1];
    && r.kind != ExecutionStarted
    && p.kind != ExecutionCompleted
    && (p.kind == ActionProposed <==> r.kind == PolicyDecided)
    && (r.kind == PolicyDecided ==> SameAction(p, r))
    && (p.kind == PolicyDecided ==> r.kind in {ActionExecuted, ExecutionBlocked})
    && (r.kind == ActionExecuted ==>
          && p.kind == PolicyDecided && p.decision == Some("ALLOW") && SameAction(p, r)
          && |rs| >= 2
          && var q := rs[|rs| - 2];
          && q.kind == ActionProposed && SameAction(q, r) && q.action == r.action)
  }

  lemma {:induction false} ItemsExtend(rs: seq<Report>, i: nat, r: Report)
    requires 1 <= i <= |rs| && Items(rs, i)
    requires rs[i - 1].kind !in {ActionProposed, PolicyDecided, ExecutionCompleted}
    ensures Items(rs + [r], i) <==> Follows(rs, r)
    decreases |rs| - i
  {
    var t := rs + [r];
    if i < |rs| && rs[i].kind == ActionProposed {
      if i + 2 < |rs| { ItemsExtend(rs, i + 3, r); }
      assert i + 2 == |rs| ==> (Items(t, i) <==> Settles(rs[i], rs[i + 1], r) && Items(t, i + 3));
    } else if i < |rs| && rs[i].kind != ExecutionCompleted {
      ItemsExtend(rs, i + 1, r);
    }
  }

  lemma {:induction false} ItemsPrefix(rs: seq<Report>, i: nat, r: Report)
    requires Items(rs + [r], i)
    ensures Items(rs, i)
    decreases |rs| - i
  {
    if i < |rs| {
      var t := rs + [r];
      assert t[i] == rs[i];
      if rs[i].kind == ActionProposed {
        if i + 2 < |rs| { ItemsPrefix(rs, i + 3, r); }
      } else if rs[i].kind != ExecutionCompleted {
        ItemsPrefix(rs, i + 1, r);
      }
    }
  }

  /** Every report that carries an action id belongs to an earlier-or-equal proposal,
      one place back for a decision and two for a receipt. */
  lemma {:induction false} ActionHasProposal(rs: seq<Report>, i: nat, j: nat)
    requires Items(rs, i) && i <= j < |rs| && IsAction(rs[j].kind)
    ensures rs[j].kind == PolicyDecided ==>
      && j > i && rs[j - 1].kind == ActionProposed
      && rs[j].actionId == rs[j - 1].actionId && rs[j].actorSlot == rs[j - 1].actorSlot
    ensures rs[j].kind == ActionExecuted ==>
      && j > i + 1 && rs[j - 2].kind == ActionProposed
      && rs[j].actionId == rs[j - 2].actionId && rs[j].actorSlot == rs[j - 2].actorSlot
      && rs[j].action == rs[j - 2].action
      && rs[j - 1].kind == PolicyDecided && rs[j - 1].decision == Some("ALLOW")
      && rs[j].actionId == rs[j - 1].actionId && rs[j].actorSlot == rs[j - 1].actorSlot
    decreases |rs| - i
  {
    if rs[i].kind == ActionProposed {
      if j >= i + 3 { ActionHasProposal(rs, i + 3, j); }
    } else {
      ActionHasProposal(rs, i + 1, j);
    }
  }

  /** In a log, an action id that occurs at all has been proposed. */
  lemma IdsComeFromProposals(c: Contract, rs: seq<Report>, j: nat) returns (p: nat)
    requires Grammar(c, rs) && j < |rs| && rs[j].actionId.Some?
    ensures p <= j && rs[p].kind == ActionProposed && rs[p].actionId == rs[j].actionId
    ensures p == j - (if rs[j].kind == ActionProposed then 0 else if rs[j].kind == PolicyDecided then 1 else 2)
  {
    assert InPlace(c, rs[j], j + 1);
    ActionHasProposal(rs, 1, j);
    p := if rs[j].kind == ActionProposed then j else if rs[j].kind == PolicyDecided then j - 1 else j - 2;
  }

  /** A fresh proposal's id is free of every stored report exactly when no stored
      proposal has it. */
  lemma FreshProposal(c: Contract, rs: seq<Report>, id: Option<int>)
    requires Grammar(c, rs) && id.Some?
    ensures (forall q :: q in Table(rs) ==> Table(rs)[q].actionId != id)
       <==> (forall i :: 0 <= i < |rs| && rs[i].kind == ActionProposed ==> rs[i].actionId != id)
  {
    var t := Table(rs);
    if forall i :: 0 <= i < |rs| && rs[i].kind == ActionProposed ==> rs[i].actionId != id {
      forall q | q in t ensures t[q].actionId != id {
        if t[q].actionId == id { var p := IdsComeFromProposals(c, rs, q - 1); }
      }
    } else {
      var i :| 0 <= i < |rs| && rs[i].kind == ActionProposed && rs[i].actionId == id;
      assert i + 1 in t && t[i + 1] == rs[i];
    }
  }

  /** The (action id, kind) unique index never rejects a row the grammar allows. */
  lemma UniqueIndexIsImplied(c: Contract, rs: seq<Report>, r: Report)
    requires Grammar(c, rs) && Grammar(c, rs + [r])
    ensures ActionKindUnique(Table(rs), r)
  {
    var all := rs + [r];
    forall q | q in Table(rs) && r.actionId.Some?
      ensures !(Table(rs)[q].actionId == r.actionId && Table(rs)[q].kind == r.kind)
    {
      if Table(rs)[q].actionId == r.actionId && Table(rs)[q].kind == r.kind {
        assert all[q - 1] == rs[q - 1] == Table(rs)[q];
        assert all[|rs|] == r;
        var p := IdsComeFromProposals(c, all, q - 1);
        var s := IdsComeFromProposals(c, all, |rs|);
      }
    }
  }

  /** One insert: the guard with all constraints accepts a report if and only if the
      log extended by it is again a log of the grammar. */
  lemma GuardIsGrammar(c: Contract, rs: seq<Report>, r: Report)
    requires Grammar(c, rs)
    ensures Accepts(c, Table(rs), r) <==> Grammar(c, rs + [r])
    ensures Accepts(c, Table(rs), r) ==> Table(rs)[r.sequence := r] == Table(rs + [r])
  {
    var all := rs + [r];
    if Accepts(c, Table(rs), r) {
      AcceptedIsGrammar(c, rs, r);
      assert Table(rs)[r.sequence := r] == Table(all);
    }
    if Grammar(c, all) {
      GrammarIsAccepted(c, rs, r);
    }
  }

  lemma AcceptedIsGrammar(c: Contract, rs: seq<Report>, r: Report)
    requires Grammar(c, rs) && Accepts(c, Table(rs), r)
    ensures Grammar(c, rs + [r])
  {
    assert r.sequence == |rs| + 1;
    if rs != [] {
      AcceptedFollows(c, rs, r);
      ItemsExtend(rs, 1, r);
      AcceptedExtends(c, rs, r);
    }
  }

  lemma LastRows(rs: seq<Report>)
    requires rs != []
    ensures Table(rs)[|rs|] == rs[|rs| - 1]
    ensures |rs| - 1 in Table(rs) <==> |rs| >= 2
    ensures |rs| >= 2 ==> Table(rs)[|rs| - 1] == rs[|rs| - 2]
  {
  }

  lemma AcceptedFollows(c: Contract, rs: seq<Report>, r: Report)
    requires Grammar(c, rs) && rs != [] && r.sequence == |rs| + 1 && Accepts(c, Table(rs), r)
    ensures Follows(rs, r)
  {
    LastRows(rs);
  }

  lemma AcceptedExtends(c: Contract, rs: seq<Report>, r: Report)
    requires Grammar(c, rs) && rs != [] && r.sequence == |rs| + 1 && Accepts(c, Table(rs), r)
    ensures Linked(rs + [r]) && TimeOrdered(rs + [r]) && ProposedOnce(rs + [r])
  {
    LastRows(rs);
    if r.kind == ActionProposed { FreshProposal(c, rs, r.actionId); }
    forall i | 0 <= i < |rs| ensures rs[i].occurredAt <= r.occurredAt {
      assert rs[i].occurredAt <= rs[|rs| - 1].occurredAt;
    }
  }

  lemma GrammarIsAccepted(c: Contract, rs: seq<Report>, r: Report)
    requires Grammar(c, rs) && Grammar(c, rs + [r])
    ensures Accepts(c, Table(rs), r)
  {
    var all := rs + [r];
    assert all[|rs|] == r;
    UniqueIndexIsImplied(c, rs, r);
    if rs != [] {
      assert Table(rs)[|rs|] == rs[|rs| - 1] == all[|rs| - 1];
      assert |rs| >= 2 ==> Table(rs)[|rs| - 1] == rs[|rs| - 2];
      ItemsExtend(rs, 1, r);
      if r.kind == ActionProposed {
        assert forall i :: 0 <= i < |rs| ==> all[i] == rs[i];
        FreshProposal(c, rs, r.actionId);
      }
    }
  }

  /** Inserting the reports one after another into an empty table. */
  predicate AcceptsAll(c: Contract, rs: seq<Report>) {
    rs == [] ||
    (var n := |rs| - 1; AcceptsAll(c, rs[..n]) && Accepts(c, Table(rs[..n]), rs[n]))
  }

  /** Whole runs: a sequence of reports is accepted insert by insert if and only if it
      is a log of the grammar. */
  lemma {:induction false} AcceptedRunsAreGrammar(c: Contract, rs: seq<Report>)
    ensures AcceptsAll(c, rs) <==> Grammar(c, rs)
  {
    if rs != [] {
      var init, last := rs[..|rs| - 1], rs[|rs| - 1];
      AcceptedRunsAreGrammar(c, init);
      assert rs == init + [last];
      GrammarStep(c, init, last);
    }
  }

  lemma GrammarStep(c: Contract, rs: seq<Report>, r: Report)
    ensures Grammar(c, rs + [r]) <==> Grammar(c, rs) && Accepts(c, Table(rs), r)
  {
    if Grammar(c, rs + [r]) { GrammarPrefix(c, rs, r); }
    if Grammar(c, rs) { GuardIsGrammar(c, rs, r); }
  }

  lemma GrammarPrefix(c: Contract, rs: seq<Report>, r: Report)
    requires Grammar(c, rs + [r])
    ensures Grammar(c, rs)
  {
    var all := rs + [r];
    assert forall i :: 0 <= i < |rs| ==> all[i] == rs[i];
    ItemsPrefix(rs, 1, r);
  }

  // ----------------------------------------------------- what a log tells you

  /** In every log built by accepted inserts a decision or receipt speaks about the same action
      of the same actor as the proposal right before it. */
  lemma ActionsBelongTogether(c: Contract, rs: seq<Report>, j: nat)
    requires AcceptsAll(c, rs) && j < |rs|
    ensures rs[j].kind == PolicyDecided ==>
      && j > 1 && rs[j - 1].kind == ActionProposed && rs[j].actionId.Some? && rs[j].actorSlot.Some?
      && rs[j].actionId == rs[j - 1].actionId && rs[j].actorSlot == rs[j - 1].actorSlot
    ensures rs[j].kind == ActionExecuted ==>
      && j > 2 && rs[j - 2].kind == ActionProposed && rs[j].actionId.Some? && rs[j].actorSlot.Some?
      && rs[j].actionId == rs[j - 2].actionId && rs[j].actorSlot == rs[j - 2].actorSlot
      && rs[j].action == rs[j - 2].action && rs[j - 1].decision == Some("ALLOW")
  {
    AcceptedRunsAreGrammar(c, rs);
    assert rs[0].kind == ExecutionStarted && InPlace(c, rs[j], j + 1);
    if IsAction(rs[j].kind) { ActionHasProposal(rs, 1, j); }
  }

  /** In a completed log every proposal was decided and then settled in place. */
  lemma {:induction false} ProposalOutcome(rs: seq<Report>, i: nat, j: nat)
    requires Items(rs, i) && i <= j < |rs| && rs[j].kind == ActionProposed
    requires rs[|rs| - 1].kind == ExecutionCompleted
    ensures j + 3 < |rs|
    ensures rs[j + 1].kind == PolicyDecided
    ensures rs[j + 1].actionId == rs[j].actionId && rs[j + 1].actorSlot == rs[j].actorSlot
    ensures rs[j + 2].kind == ActionExecuted || rs[j + 2].kind == ExecutionBlocked
    ensures rs[j + 2].kind == ActionExecuted ==>
      && rs[j + 1].decision == Some("ALLOW") && rs[j + 2].action == rs[j].action
      && rs[j + 2].actionId == rs[j].actionId && rs[j + 2].actorSlot == rs[j].actorSlot
    decreases |rs| - i
  {
    if rs[i].kind == ActionProposed {
      if j > i { ProposalOutcome(rs, i + 3, j); }
    } else {
      ProposalOutcome(rs, i + 1, j);
    }
  }

  /** A receipt is the only receipt of its action id. */
  lemma ReceiptIsUnique(c: Contract, rs: seq<Report>, j: nat, k: nat)
    requires Grammar(c, rs) && j < |rs| && k < |rs|
    requires rs[j].kind == rs[k].kind && rs[j].actionId == rs[k].actionId && rs[j].actionId.Some?
    ensures j == k
  {
    var p := IdsComeFromProposals(c, rs, j);
    var q := IdsComeFromProposals(c, rs, k);
    assert p == q;
  }

  // ------------------------------------------------------------ the log table

  class ReportLog {
    const contract: Contract
    var reports: map<int, Report>
    ghost var chain: seq<Report>

    ghost predicate Valid()
      reads this
    {
      Grammar(contract, chain) && reports == Table(chain)
    }

    constructor (contract: Contract)
      ensures Valid() && this.contract == contract && chain == []
    {
      this.contract := contract;
      reports := map[];
      chain := [];
    }

    /** Insert under a run that is RUNNING, uncanceled and bound to this contract. */
    method Insert(running: bool, r: Report) returns (ok: bool)
      requires Valid()
      modifies this
      ensures Valid()
      ensures ok <==> running && Grammar(contract, old(chain) + [r])
      ensures chain == if ok then old(chain) + [r] else old(chain)
    {
      GuardIsGrammar(contract, chain, r);
      ok := running && Accepts(contract, reports, r);
      if ok {
        reports := reports[r.sequence := r];
        chain := chain + [r];
      }
    }
  }
}
