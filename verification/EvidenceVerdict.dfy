/** The verdict a manifest may carry, derived from stored assertion results, the
    artifacts the manifest lists, and the report log. */
module EvidenceVerdict {
  import opened Sets
  import opened Sql
  import RC = ReportChain

  /** One declared assertion of the frozen Test IR; a JSON field may be missing. */
  datatype Spec = Spec(
    assertionId: Option<string>, nodeId: Option<string>, strength: Option<string>, evaluator: Option<string>)

  datatype Status = Passed | Failed | Inconclusive

  datatype Result = Result(
    id: int, assertionId: string, nodeId: string, strength: string, evaluator: string,
    status: Status, refs: seq<int>, observedAt: int, createdAt: int)

  datatype Integrity = Verified | Invalid

  datatype Artifact = Artifact(id: int, integrity: Integrity, required: bool, facts: string)

  datatype Completeness = Complete | Partial | Missing

  datatype Manifest = Manifest(
    outcome: Status, completeness: Completeness, integrity: Integrity,
    passed: int, failed: int, inconclusive: int,
    results: seq<Result>, missing: seq<string>, artifacts: seq<Artifact>,
    eventCount: int, headDigest: string, finalizationDigest: Option<string>)

  // ------------------------------------------------------------ stored results

  /** `a <> b` where only b is known not to be NULL: the test fires when both are known. */
  predicate Differs(a: Option<string>, b: string) { Eq(a, Some(b)).Not().Holds() }

  predicate Matches(spec: Spec, r: Result) {
    && spec.assertionId == Some(r.assertionId)
    && !Differs(spec.nodeId, r.nodeId)
    && !Differs(spec.strength, r.strength)
    && !Differs(spec.evaluator, r.evaluator)
  }

  predicate Distinct<T(==)>(s: seq<T>) { forall i, j :: 0 <= i < j < |s| ==> s[i] != s[j] }

  /** No earlier declaration has the same id. */
  predicate IsFirst(ir: seq<Spec>, i: nat)
    requires i < |ir|
  {
    forall j :: 0 <= j < i ==> ir[j].assertionId != ir[i].assertionId
  }

  /** What the insert guard and the column checks of a result demand.  The guard's query takes
      one declaration with the result's id, the first if there were several. */
  predicate Admissible(c: RC.Contract, ir: seq<Spec>, r: Result) {
    && (exists i :: 0 <= i < |ir| && IsFirst(ir, i) && Matches(ir[i], r))
    && r.strength in {"hard", "soft", "diagnostic"}
    && Distinct(r.refs) && |r.refs| <= 64
    && c.createdAt <= r.observedAt <= r.createdAt <= c.deadline
  }

  /** Results of one contract, keyed by the unique assertion id. */
  type Results = map<string, Result>

  predicate Insertable(c: RC.Contract, ir: seq<Spec>, results: Results, r: Result) {
    && Admissible(c, ir, r)
    && r.assertionId !in results
    && forall k :: k in results ==> results[k].id != r.id
  }

  predicate Stored(c: RC.Contract, ir: seq<Spec>, results: Results) {
    && (forall k :: k in results ==> results[k].assertionId == k && Admissible(c, ir, results[k]))
    && (forall j, k :: j in results && k in results && j != k ==> results[j].id != results[k].id)
  }

  lemma InsertKeepsStored(c: RC.Contract, ir: seq<Spec>, results: Results, r: Result)
    requires Stored(c, ir, results) && Insertable(c, ir, results, r)
    ensures Stored(c, ir, results[r.assertionId := r])
  {
  }

  // ------------------------------------------------------------- the derivation

  predicate Declared(ir: seq<Spec>, id: string) {
    exists i :: 0 <= i < |ir| && ir[i].assertionId == Some(id)
  }

  predicate HardSpecUnanswered(ir: seq<Spec>, results: Results) {
    exists i :: 0 <= i < |ir| && ir[i].strength == Some("hard")
      && !(ir[i].assertionId.Some? && ir[i].assertionId.value in results)
  }

  function DerivedCompleteness(ir: seq<Spec>, results: Results): Completeness {
    if HardSpecUnanswered(ir, results)
      || (exists k :: k in results && results[k].strength == "hard" && results[k].refs == [])
    then Missing
    else if |results| < |ir| || (exists k :: k in results && results[k].refs == []) then Partial
    else Complete
  }

  function DerivedIntegrity(listed: seq<Artifact>): Integrity {
    if exists i :: 0 <= i < |listed| && listed[i].integrity == Invalid then Invalid else Verified
  }

  function DerivedOutcome(ir: seq<Spec>, results: Results, listed: seq<Artifact>): Status {
    if exists k :: k in results && results[k].strength == "hard" && results[k].status == Failed then Failed
    else if (forall i :: 0 <= i < |ir| ==> ir[i].strength != Some("hard"))
      || (exists k :: k in results && results[k].strength == "hard" && results[k].status == Inconclusive)
      || DerivedCompleteness(ir, results) != Complete
      || DerivedIntegrity(listed) != Verified
    then Inconclusive
    else Passed
  }

  function WithStatus(results: Results, s: Status): set<string> {
    set k | k in results && results[k].status == s
  }

  predicate CountsAgree(results: Results, m: Manifest) {
    && m.passed == |WithStatus(results, Passed)|
    && m.failed == |WithStatus(results, Failed)|
    && m.inconclusive == |WithStatus(results, Inconclusive)|
    && |results| == m.passed + m.failed + m.inconclusive
    && |results| == |m.results|
  }

  ghost predicate ResultsListed(results: Results, m: Manifest) {
    && (forall i, j :: 0 <= i < j < |m.results| ==> m.results[i].id != m.results[j].id)
    && (forall i :: 0 <= i < |m.results| ==> exists k :: k in results && results[k] == m.results[i])
  }

  predicate ArtifactsListed(artifacts: map<int, Artifact>, m: Manifest) {
    && (forall i, j :: 0 <= i < j < |m.artifacts| ==> m.artifacts[i].id != m.artifacts[j].id)
    && (forall i :: 0 <= i < |m.artifacts| ==>
          m.artifacts[i].id in artifacts && artifacts[m.artifacts[i].id] == m.artifacts[i])
  }

  predicate MissingExact(ir: seq<Spec>, results: Results, m: Manifest) {
    && Distinct(m.missing)
    && (forall i :: 0 <= i < |ir| ==>
          ir[i].assertionId.Some? && (ir[i].assertionId.value in results || ir[i].assertionId.value in m.missing))
    && (forall id :: id in m.missing ==> Declared(ir, id) && id !in results)
  }

  ghost predicate RefsListed(results: Results, artifacts: map<int, Artifact>, m: Manifest) {
    forall k, ref :: k in results && ref in results[k].refs ==> ref in artifacts && Lists(m, ref)
  }

  predicate VerdictDerived(ir: seq<Spec>, results: Results, m: Manifest) {
    && m.completeness == DerivedCompleteness(ir, results)
    && m.integrity == DerivedIntegrity(m.artifacts)
    && m.outcome == DerivedOutcome(ir, results, m.artifacts)
  }

  /** The first manifest trigger: counts, listed results and artifacts, missing ids,
      evidence references and the derived verdict. */
  ghost predicate DerivationAccepts(ir: seq<Spec>, results: Results, artifacts: map<int, Artifact>, m: Manifest) {
    && CountsAgree(results, m)
    && ResultsListed(results, m)
    && ArtifactsListed(artifacts, m)
    && MissingExact(ir, results, m)
    && RefsListed(results, artifacts, m)
    && VerdictDerived(ir, results, m)
  }

  ghost predicate Lists(m: Manifest, ref: int) {
    exists i :: 0 <= i < |m.artifacts| && m.artifacts[i].id == ref
  }

  predicate Unsafe(chain: seq<RC.Report>) {
    exists i :: 0 <= i < |chain| &&
      (chain[i].kind == RC.ExecutionBlocked
       || (chain[i].kind == RC.ActionExecuted && chain[i].status != Some("SUCCEEDED")))
  }

  /** The second manifest trigger: the report log is complete, and an unsafe execution
      leaves every assertion inconclusive. */
  predicate ChainAccepts(results: Results, chain: seq<RC.Report>, m: Manifest) {
    && chain != [] && m.finalizationDigest.Some?
    && var last := chain[|chain| - 1];
    && last.kind == RC.ExecutionCompleted
    && m.eventCount == |chain|
    && m.headDigest == last.chainDigest
    && (Unsafe(chain) ==>
          && m.outcome == Inconclusive && m.passed == 0 && m.failed == 0
          && (forall k :: k in results ==> results[k].status == Inconclusive)
          && (forall i :: 0 <= i < |m.results| ==> m.results[i].status == Inconclusive))
  }

  // ------------------------------------------------------------------ pigeonhole

  function Ids(ir: seq<Spec>): (ids: set<string>)
    ensures forall k :: k in ids <==> Declared(ir, k)
  {
    if ir == [] then {} else
      assert ir == [ir[0]] + ir[1..];
      assert forall k :: Declared(ir[1..], k) ==> Declared(ir, k);
      Ids(ir[1..]) + (if ir[0].assertionId.Some? then {ir[0].assertionId.value} else {})
  }

  predicate IdsDistinct(ir: seq<Spec>) {
    && (forall i :: 0 <= i < |ir| ==> ir[i].assertionId.Some?)
    && (forall i, j :: 0 <= i < j < |ir| ==> ir[i].assertionId != ir[j].assertionId)
  }

  /** There are at most as many ids as declarations, and as many only when no id
      repeats. */
  lemma {:induction false} IdsBound(ir: seq<Spec>)
    ensures |Ids(ir)| <= |ir|
    ensures |Ids(ir)| == |ir| ==> IdsDistinct(ir)
  {
    if ir != [] {
      var rest := ir[1..];
      IdsBound(rest);
      if |Ids(ir)| == |ir| {
        assert ir[0].assertionId.Some? && ir[0].assertionId.value !in Ids(rest);
        forall j | 1 <= j < |ir| ensures ir[j].assertionId.Some? && ir[j].assertionId != ir[0].assertionId {
          assert ir[j] == rest[j - 1];
        }
        forall i, j | 1 <= i < j < |ir| ensures ir[i].assertionId != ir[j].assertionId {
          assert ir[i] == rest[i - 1] && ir[j] == rest[j - 1];
        }
      }
    }
  }

  lemma {:induction false} DistinctIds(ir: seq<Spec>)
    requires IdsDistinct(ir)
    ensures |Ids(ir)| == |ir|
  {
    if ir != [] {
      assert forall j :: 0 <= j < |ir[1..]| ==> ir[1..][j] == ir[j + 1];
      DistinctIds(ir[1..]);
      assert ir[0].assertionId.value !in Ids(ir[1..]);
    }
  }

  /** Stored results answer declared assertions only. */
  lemma ResultsAreDeclared(c: RC.Contract, ir: seq<Spec>, results: Results)
    requires Stored(c, ir, results)
    ensures results.Keys <= Ids(ir) && |results| <= |ir|
    ensures |results| == |ir| ==> results.Keys == Ids(ir) && IdsDistinct(ir)
  {
    forall k | k in results ensures k in Ids(ir) {
      var i :| 0 <= i < |ir| && Matches(ir[i], results[k]);
    }
    IdsBound(ir);
    SubsetSize(results.Keys, Ids(ir));
    assert |results| == |results.Keys|;
  }

  // ------------------------------------------------------------ PASSED soundness

  /** The result bears the declaration's id and repeats whatever else it declares. */
  predicate Answers(spec: Spec, r: Result) {
    && spec.assertionId.Some? && spec.assertionId.value == r.assertionId
    && (spec.nodeId.Some? ==> spec.nodeId.value == r.nodeId)
    && (spec.strength.Some? ==> spec.strength.value == r.strength)
    && (spec.evaluator.Some? ==> spec.evaluator.value == r.evaluator)
  }

  /** Every declaration has an id of its own and its one matching result, and there are
      no other results. */
  predicate AnsweredOnce(ir: seq<Spec>, results: Results) {
    && IdsDistinct(ir)
    && (forall k :: k in results ==> Declared(ir, k))
    && (forall i :: 0 <= i < |ir| ==>
          ir[i].assertionId.value in results && Answers(ir[i], results[ir[i].assertionId.value]))
  }

  predicate HardPassed(ir: seq<Spec>, results: Results)
    requires AnsweredOnce(ir, results)
  {
    && (exists i :: 0 <= i < |ir| && ir[i].strength == Some("hard"))
    && (forall i :: 0 <= i < |ir| && ir[i].strength == Some("hard") ==>
          results[ir[i].assertionId.value].status == Passed)
  }

  ghost predicate CitesVerified(results: Results, m: Manifest) {
    && (forall k :: k in results ==> results[k].refs != [])
    && (forall k, ref :: k in results && ref in results[k].refs ==> ListsVerified(m, ref))
  }

  ghost predicate ListsVerified(m: Manifest, ref: int) {
    exists i :: 0 <= i < |m.artifacts| && m.artifacts[i].id == ref && m.artifacts[i].integrity == Verified
  }

  /** An accepted PASSED manifest: every declared assertion has exactly one result, every
      hard one passed, and every result cites only listed, verified artifacts, at least
      one.  Distinctness of the declared ids is a consequence, not an assumption. */
  lemma PassedResultsAreTrustworthy(
      c: RC.Contract, ir: seq<Spec>, results: Results, artifacts: map<int, Artifact>, m: Manifest)
    requires Stored(c, ir, results) && DerivationAccepts(ir, results, artifacts, m)
    requires m.outcome == Passed
    ensures AnsweredOnce(ir, results) && HardPassed(ir, results) && CitesVerified(results, m)
    ensures m.completeness == Complete && m.integrity == Verified && m.missing == []
  {
    PassedParts(ir, results, m.artifacts);
    AnswersMatch(c, ir, results);
    HardResultsPassed(ir, results);
    PassedRefsVerified(results, artifacts, m);
    NothingMissing(ir, results, m);
  }

  /** What a PASSED derivation is made of ... */
  predicate CompleteAnswers(ir: seq<Spec>, results: Results) {
    && |results| >= |ir|
    && !HardSpecUnanswered(ir, results)
    && (exists i :: 0 <= i < |ir| && ir[i].strength == Some("hard"))
    && (forall k :: k in results ==> results[k].refs != [])
    && (forall k :: k in results && results[k].strength == "hard" ==> results[k].status == Passed)
  }

  predicate NothingInvalid(listed: seq<Artifact>) {
    forall i :: 0 <= i < |listed| ==> listed[i].integrity == Verified
  }

  /** ... no more and no less. */
  lemma PassedParts(ir: seq<Spec>, results: Results, listed: seq<Artifact>)
    ensures DerivedOutcome(ir, results, listed) == Passed <==> CompleteAnswers(ir, results) && NothingInvalid(listed)
  {
  }

  /** With as many results as declarations, each declaration is matched by its own. */
  lemma AnswersMatch(c: RC.Contract, ir: seq<Spec>, results: Results)
    requires Stored(c, ir, results) && |results| >= |ir|
    ensures AnsweredOnce(ir, results)
  {
    ResultsAreDeclared(c, ir, results);
    forall i | 0 <= i < |ir|
      ensures ir[i].assertionId.value in results && Answers(ir[i], results[ir[i].assertionId.value])
    {
      var k := ir[i].assertionId.value;
      assert Declared(ir, k);
      assert k in Ids(ir);
      var j :| 0 <= j < |ir| && Matches(ir[j], results[k]);
      assert ir[j].assertionId == ir[i].assertionId;
      MatchesMeans(ir[j], results[k]);
    }
    forall k | k in results ensures Declared(ir, k) { assert k in Ids(ir); }
  }

  lemma MatchesMeans(spec: Spec, r: Result)
    ensures Matches(spec, r) <==> Answers(spec, r)
  {
  }

  lemma HardResultsPassed(ir: seq<Spec>, results: Results)
    requires AnsweredOnce(ir, results) && CompleteAnswers(ir, results)
    ensures HardPassed(ir, results)
  {
  }

  lemma NothingMissing(ir: seq<Spec>, results: Results, m: Manifest)
    requires AnsweredOnce(ir, results) && MissingExact(ir, results, m)
    ensures m.missing == []
  {
    assert First(m.missing) in m.missing <==> m.missing != [];
  }

  function First(s: seq<string>): string { if s == [] then "" else s[0] }

  lemma PassedRefsVerified(results: Results, artifacts: map<int, Artifact>, m: Manifest)
    requires RefsListed(results, artifacts, m) && NothingInvalid(m.artifacts)
    requires forall k :: k in results ==> results[k].refs != []
    ensures CitesVerified(results, m)
  {
    forall k, ref | k in results && ref in results[k].refs ensures ListsVerified(m, ref) {
      assert Lists(m, ref);
    }
  }

  function ListedAs(rs: seq<Result>, s: Status): set<string> {
    set i | 0 <= i < |rs| && rs[i].status == s :: rs[i].assertionId
  }

  /** A manifest lists exactly the stored results, each once, and counts the listed ones. */
  lemma ManifestListsStoredResults(c: RC.Contract, ir: seq<Spec>, results: Results, m: Manifest)
    requires Stored(c, ir, results) && CountsAgree(results, m) && ResultsListed(results, m)
    ensures forall r :: r in m.results <==> r.assertionId in results && results[r.assertionId] == r
    ensures forall i, j :: 0 <= i < j < |m.results| ==> m.results[i].assertionId != m.results[j].assertionId
    ensures m.passed == |ListedAs(m.results, Passed)| && m.failed == |ListedAs(m.results, Failed)|
    ensures m.inconclusive == |ListedAs(m.results, Inconclusive)|
  {
    StoredAreListed(c, ir, results, m);
    forall s: Status ensures ListedAs(m.results, s) == WithStatus(results, s) { SameStatus(results, m.results, s); }
  }

  lemma SameStatus(results: Results, rs: seq<Result>, s: Status)
    requires forall k :: k in results ==> results[k].assertionId == k && results[k] in rs
    requires forall i :: 0 <= i < |rs| ==> rs[i].assertionId in results && results[rs[i].assertionId] == rs[i]
    ensures ListedAs(rs, s) == WithStatus(results, s)
  {
    forall k | k in WithStatus(results, s) ensures k in ListedAs(rs, s) { assert results[k] in rs; }
  }

  lemma StoredAreListed(c: RC.Contract, ir: seq<Spec>, results: Results, m: Manifest)
    requires Stored(c, ir, results) && CountsAgree(results, m) && ResultsListed(results, m)
    ensures forall k :: k in results ==> results[k] in m.results
    ensures forall i :: 0 <= i < |m.results| ==>
      m.results[i].assertionId in results && results[m.results[i].assertionId] == m.results[i]
    ensures forall i, j :: 0 <= i < j < |m.results| ==> m.results[i].assertionId != m.results[j].assertionId
  {
    var names := set i | 0 <= i < |m.results| :: m.results[i].assertionId;
    forall i | 0 <= i < |m.results|
      ensures m.results[i].assertionId in results && results[m.results[i].assertionId] == m.results[i]
    {
      var k :| k in results && results[k] == m.results[i];
    }
    DistinctNames(m.results);
    assert names == Names(m.results);
    SubsetSize(names, results.Keys);
    assert |results| == |results.Keys|;
    forall k | k in results ensures results[k] in m.results {
      assert k in names;
      var i :| 0 <= i < |m.results| && m.results[i].assertionId == k;
    }
  }

  function Names(rs: seq<Result>): set<string> { set i | 0 <= i < |rs| :: rs[i].assertionId }

  lemma {:induction false} DistinctNames(rs: seq<Result>)
    requires forall i, j :: 0 <= i < j < |rs| ==> rs[i].assertionId != rs[j].assertionId
    ensures |Names(rs)| == |rs|
  {
    if rs != [] {
      var init := rs[..|rs| - 1];
      DistinctNames(init);
      assert Names(rs) == Names(init) + {rs[|rs| - 1].assertionId};
    }
  }

  predicate IsReceiptOf(e: RC.Report, proposal: RC.Report) {
    e.kind == RC.ActionExecuted && e.actionId == proposal.actionId
  }

  /** The proposal at j was allowed, and the report after that is its one receipt: of the same
      actor and action, and successful. */
  predicate AllowedAndSucceeded(chain: seq<RC.Report>, j: nat)
    requires j + 2 < |chain|
  {
    var proposal, decision, receipt := chain[j], chain[j + 1], chain[j + 2];
    && decision.kind == RC.PolicyDecided && decision.decision == Some("ALLOW")
    && decision.actionId == proposal.actionId && decision.actorSlot == proposal.actorSlot
    && receipt.kind == RC.ActionExecuted && receipt.status == Some("SUCCEEDED")
    && receipt.actionId == proposal.actionId && receipt.actorSlot == proposal.actorSlot
    && receipt.action == proposal.action
    && forall k :: 0 <= k < |chain| && IsReceiptOf(chain[k], proposal) ==> k == j + 2
  }

  /** ... and every proposed action was allowed and carries exactly one receipt, which
      succeeded. */
  lemma PassedActionsSucceeded(c: RC.Contract, results: Results, chain: seq<RC.Report>, m: Manifest, j: nat)
    requires RC.Grammar(c, chain) && ChainAccepts(results, chain, m) && m.outcome == Passed
    requires j < |chain| && chain[j].kind == RC.ActionProposed
    ensures j + 3 < |chain| && AllowedAndSucceeded(chain, j)
  {
    assert chain[0].kind == RC.ExecutionStarted;
    RC.ProposalOutcome(chain, 1, j);
    assert RC.InPlace(c, chain[j], j + 1);
    forall k | 0 <= k < |chain| && IsReceiptOf(chain[k], chain[j]) ensures k == j + 2 {
      RC.ReceiptIsUnique(c, chain, k, j + 2);
    }
  }

  /** The other way round: when a proposal was not allowed, or its receipt does not read
      SUCCEEDED, the verdict and every stored result are INCONCLUSIVE. */
  lemma UnsafeRunsAreInconclusive(
      c: RC.Contract, ir: seq<Spec>, results: Results, artifacts: map<int, Artifact>, chain: seq<RC.Report>,
      m: Manifest, j: nat)
    requires RC.AcceptsAll(c, chain)
    requires DerivationAccepts(ir, results, artifacts, m) && ChainAccepts(results, chain, m)
    requires j < |chain| && chain[j].kind == RC.ActionProposed
    ensures j + 2 < |chain|
    ensures chain[j + 1].decision != Some("ALLOW") || chain[j + 2].status != Some("SUCCEEDED") ==>
      && m.outcome == Inconclusive && m.passed == m.failed == 0
      && forall k :: k in results ==> results[k].status == Inconclusive
  {
    RC.AcceptedRunsAreGrammar(c, chain);
    assert chain[0].kind == RC.ExecutionStarted;
    RC.ProposalOutcome(chain, 1, j);
    assert !Unsafe(chain) ==> chain[j + 2].kind != RC.ExecutionBlocked;
  }

  /** End to end: both manifest triggers, over a report log built by accepted inserts. */
  lemma PassedIsTrustworthy(
      c: RC.Contract, ir: seq<Spec>, results: Results, artifacts: map<int, Artifact>, chain: seq<RC.Report>,
      m: Manifest)
    requires Stored(c, ir, results) && RC.AcceptsAll(c, chain)
    requires DerivationAccepts(ir, results, artifacts, m) && ChainAccepts(results, chain, m) && m.outcome == Passed
    ensures AnsweredOnce(ir, results) && HardPassed(ir, results) && CitesVerified(results, m)
    ensures m.completeness == Complete && m.integrity == Verified && m.missing == []
    ensures m.eventCount == |chain| && m.headDigest == chain[|chain| - 1].chainDigest
    ensures forall j: nat :: j < |chain| && chain[j].kind == RC.ActionProposed ==>
      j + 2 < |chain| && AllowedAndSucceeded(chain, j)
  {
    PassedResultsAreTrustworthy(c, ir, results, artifacts, m);
    RC.AcceptedRunsAreGrammar(c, chain);
    forall j: nat | j < |chain| && chain[j].kind == RC.ActionProposed
      ensures j + 2 < |chain| && AllowedAndSucceeded(chain, j)
    {
      PassedActionsSucceeded(c, results, chain, m, j);
    }
  }

  // ------------------------------------------------------------ what a verdict says

  /** Read off an accepted manifest: FAILED means that some hard result failed; COMPLETE that
      every declaration has its one answer, with evidence; MISSING that a hard declaration is
      listed as missing or a hard result lacks evidence; INVALID that a stored INVALID artifact
      is listed.  The missing ids are exactly the declared ones without a result, the listed
      artifacts are as stored, and neither list repeats an id. */
  lemma VerdictMeans(
      c: RC.Contract, ir: seq<Spec>, results: Results, artifacts: map<int, Artifact>, m: Manifest)
    requires Stored(c, ir, results) && DerivationAccepts(ir, results, artifacts, m)
    ensures m.outcome == Failed <==>
      exists k :: k in results && results[k].strength == "hard" && results[k].status == Failed
    ensures m.completeness == Complete <==>
      AnsweredOnce(ir, results) && forall k :: k in results ==> results[k].refs != []
    ensures m.completeness == Missing <==>
      || (exists i :: 0 <= i < |ir| && ir[i].strength == Some("hard") && ir[i].assertionId.value in m.missing)
      || (exists k :: k in results && results[k].strength == "hard" && results[k].refs == [])
    ensures m.integrity == Invalid <==>
      exists x :: x in artifacts && artifacts[x].integrity == Invalid && Lists(m, x)
    ensures forall id :: id in m.missing <==>
      id !in results && exists i :: 0 <= i < |ir| && ir[i].assertionId == Some(id)
    ensures forall i, j :: 0 <= i < |m.missing| && 0 <= j < |m.missing| && m.missing[i] == m.missing[j] ==> i == j
    ensures forall a :: a in m.artifacts ==> a.id in artifacts && artifacts[a.id] == a
    ensures forall i, j :: 0 <= i < j < |m.artifacts| ==> m.artifacts[i].id != m.artifacts[j].id
  {
    CompleteMeans(c, ir, results);
    MissingMeans(ir, results, m);
    InvalidMeans(artifacts, m);
  }

  lemma CompleteMeans(c: RC.Contract, ir: seq<Spec>, results: Results)
    requires Stored(c, ir, results)
    ensures DerivedCompleteness(ir, results) == Complete <==>
      AnsweredOnce(ir, results) && forall k :: k in results ==> results[k].refs != []
  {
    if |results| >= |ir| { AnswersMatch(c, ir, results); }
    if AnsweredOnce(ir, results) {
      AnsweredIsEnough(ir, results);
      assert HardSpecUnanswered(ir, results) ==> false;
    }
  }

  lemma AnsweredIsEnough(ir: seq<Spec>, results: Results)
    requires AnsweredOnce(ir, results)
    ensures |results| == |ir|
  {
    DistinctIds(ir);
    assert results.Keys == Ids(ir) by {
      forall k ensures k in results <==> k in Ids(ir) { assert k in Ids(ir) <==> Declared(ir, k); }
    }
    assert |results| == |results.Keys|;
  }

  lemma MissingMeans(ir: seq<Spec>, results: Results, m: Manifest)
    requires MissingExact(ir, results, m)
    ensures forall id :: id in m.missing <==>
      id !in results && exists i :: 0 <= i < |ir| && ir[i].assertionId == Some(id)
    ensures HardSpecUnanswered(ir, results) <==>
      exists i :: 0 <= i < |ir| && ir[i].strength == Some("hard") && ir[i].assertionId.value in m.missing
  {
  }

  lemma InvalidMeans(artifacts: map<int, Artifact>, m: Manifest)
    requires ArtifactsListed(artifacts, m)
    ensures DerivedIntegrity(m.artifacts) == Invalid <==>
      exists x :: x in artifacts && artifacts[x].integrity == Invalid && Lists(m, x)
  {
    forall i | 0 <= i < |m.artifacts| ensures Lists(m, m.artifacts[i].id) {}
  }

  // ------------------------------------------------------------------ fail closed

  predicate WeakerResults(results': Results, results: Results) {
    && results'.Keys <= results.Keys
    && forall k :: k in results' ==>
         && results'[k].(refs := results[k].refs) == results[k]
         && forall ref :: ref in results'[k].refs ==> ref in results[k].refs
  }

  predicate WeakerList(listed': seq<Artifact>, listed: seq<Artifact>) {
    && |listed'| == |listed|
    && forall i :: 0 <= i < |listed| ==> listed'[i] == listed[i] || listed'[i] == listed[i].(integrity := Invalid)
  }

  /** Weakening evidence - results removed, references dropped, artifacts downgraded - never
      produces a PASSED derivation. */
  lemma VerdictIsFailClosed(
      c: RC.Contract, ir: seq<Spec>,
      results': Results, listed': seq<Artifact>, results: Results, listed: seq<Artifact>)
    requires Stored(c, ir, results) && WeakerResults(results', results) && WeakerList(listed', listed)
    requires DerivedOutcome(ir, results', listed') == Passed
    ensures DerivedOutcome(ir, results, listed) == Passed
    ensures results'.Keys == results.Keys && listed' == listed
  {
    PassedParts(ir, results', listed');
    PassedParts(ir, results, listed);
    WeakerKeys(c, ir, results', results);
    WeakerAnswers(ir, results', results);
    VerifiedList(listed', listed);
  }

  lemma WeakerKeys(c: RC.Contract, ir: seq<Spec>, results': Results, results: Results)
    requires Stored(c, ir, results) && results'.Keys <= results.Keys && |results'| >= |ir|
    ensures results'.Keys == results.Keys
  {
    ResultsAreDeclared(c, ir, results);
    assert |results'| == |results'.Keys| && |results| == |results.Keys|;
    SubsetSize(results'.Keys, results.Keys);
  }

  lemma VerifiedList(listed': seq<Artifact>, listed: seq<Artifact>)
    requires WeakerList(listed', listed) && NothingInvalid(listed')
    ensures listed' == listed && NothingInvalid(listed)
  {
    forall i | 0 <= i < |listed| ensures listed'[i] == listed[i] && listed[i].integrity == Verified {
      assert listed'[i].integrity == Verified;
    }
  }

  lemma WeakerAnswers(ir: seq<Spec>, results': Results, results: Results)
    requires CompleteAnswers(ir, results') && results'.Keys == results.Keys && WeakerResults(results', results)
    ensures CompleteAnswers(ir, results)
  {
    assert |results'| == |results'.Keys| && |results| == |results.Keys|;
    forall k | k in results
      ensures results[k].refs != []
      ensures results'[k].status == results[k].status && results'[k].strength == results[k].strength
    {
      assert k in results';
      var ref := results'[k].refs[0];
      assert ref in results'[k].refs;
    }
  }

  /** Over accepted manifests: the stored artifacts matter exactly when they are listed. */
  lemma PassedIffNothingInvalidListed(ir: seq<Spec>, results: Results, artifacts: map<int, Artifact>, m: Manifest)
    requires DerivationAccepts(ir, results, artifacts, m)
    ensures m.outcome == Passed <==>
      && CompleteAnswers(ir, results)
      && forall x :: x in artifacts && artifacts[x].integrity == Invalid ==> !Lists(m, x)
  {
    PassedParts(ir, results, m.artifacts);
    if forall x :: x in artifacts && artifacts[x].integrity == Invalid ==> !Lists(m, x) {
      forall i | 0 <= i < |m.artifacts| ensures m.artifacts[i].integrity == Verified {
        assert Lists(m, m.artifacts[i].id);
      }
    }
  }

  predicate Keyed(artifacts: map<int, Artifact>) { forall x :: x in artifacts ==> artifacts[x].id == x }

  predicate CitedAreVerified(results: Results, artifacts: map<int, Artifact>) {
    forall k, ref :: k in results && ref in results[k].refs ==> ref in artifacts && artifacts[ref].integrity == Verified
  }

  predicate Completed(chain: seq<RC.Report>) {
    chain != [] && chain[|chain| - 1].kind == RC.ExecutionCompleted && !Unsafe(chain)
  }

  ghost predicate AcceptedPassed(
      ir: seq<Spec>, results: Results, artifacts: map<int, Artifact>, chain: seq<RC.Report>, m: Manifest)
  {
    DerivationAccepts(ir, results, artifacts, m) && ChainAccepts(results, chain, m) && m.outcome == Passed
  }

  /** Some manifest is accepted as PASSED if and only if the answers are complete, every
      cited artifact is stored and VERIFIED, and the report log is complete and safe.  So a
      stored INVALID artifact, required or not, stops PASSED exactly when a result cites it:
      otherwise the manifest may leave it out. */
  lemma PassedIsAttainable(
      c: RC.Contract, ir: seq<Spec>, results: Results, artifacts: map<int, Artifact>, chain: seq<RC.Report>)
    requires Stored(c, ir, results) && Keyed(artifacts)
    ensures (exists m :: AcceptedPassed(ir, results, artifacts, chain, m)) <==>
      CompleteAnswers(ir, results) && CitedAreVerified(results, artifacts) && Completed(chain)
  {
    if m :| AcceptedPassed(ir, results, artifacts, chain, m) {
      PassedNeeds(ir, results, artifacts, chain, m);
    }
    if CompleteAnswers(ir, results) && CitedAreVerified(results, artifacts) && Completed(chain) {
      var m := PassedManifest(c, ir, results, artifacts, chain);
    }
  }

  lemma PassedNeeds(ir: seq<Spec>, results: Results, artifacts: map<int, Artifact>, chain: seq<RC.Report>, m: Manifest)
    requires AcceptedPassed(ir, results, artifacts, chain, m)
    ensures CompleteAnswers(ir, results) && CitedAreVerified(results, artifacts) && Completed(chain)
  {
    PassedParts(ir, results, m.artifacts);
    forall k, ref | k in results && ref in results[k].refs
      ensures ref in artifacts && artifacts[ref].integrity == Verified
    {
      assert Lists(m, ref);
    }
  }

  /** What must be stored before any manifest can be: a complete report log, an id in every
      declaration, the cited artifacts; and after an unsafe execution only INCONCLUSIVE
      results. */
  predicate Concludable(
      ir: seq<Spec>, results: Results, artifacts: map<int, Artifact>, chain: seq<RC.Report>)
  {
    && chain != [] && chain[|chain| - 1].kind == RC.ExecutionCompleted
    && (forall i :: 0 <= i < |ir| ==> ir[i].assertionId.Some?)
    && (forall k, ref :: k in results && ref in results[k].refs ==> ref in artifacts)
    && ((exists i :: 0 <= i < |chain| && (chain[i].kind == RC.ExecutionBlocked
           || (chain[i].kind == RC.ActionExecuted && chain[i].status != Some("SUCCEEDED"))))
        ==> forall k :: k in results ==> results[k].status == Inconclusive)
  }

  /** And that suffices: no combination of results, evidence and report log is left without
      an acceptable verdict. */
  lemma ManifestIsAttainable(
      c: RC.Contract, ir: seq<Spec>, results: Results, artifacts: map<int, Artifact>, chain: seq<RC.Report>)
    requires Stored(c, ir, results) && Keyed(artifacts)
    ensures (exists m :: DerivationAccepts(ir, results, artifacts, m) && ChainAccepts(results, chain, m)) <==>
      Concludable(ir, results, artifacts, chain)
  {
    if m :| DerivationAccepts(ir, results, artifacts, m) && ChainAccepts(results, chain, m) {
      ManifestNeeds(ir, results, artifacts, chain, m);
    }
    if Concludable(ir, results, artifacts, chain) {
      var m := DerivedManifest(c, ir, results, artifacts, chain);
    }
  }

  lemma ManifestNeeds(
      ir: seq<Spec>, results: Results, artifacts: map<int, Artifact>, chain: seq<RC.Report>, m: Manifest)
    requires MissingExact(ir, results, m) && RefsListed(results, artifacts, m) && ChainAccepts(results, chain, m)
    ensures Concludable(ir, results, artifacts, chain)
  {
  }

  /** The manifest that lists every result, every missing id and exactly the cited artifacts. */
  lemma DerivedManifest(
      c: RC.Contract, ir: seq<Spec>, results: Results, artifacts: map<int, Artifact>, chain: seq<RC.Report>)
    returns (m: Manifest)
    requires Stored(c, ir, results) && Keyed(artifacts) && Concludable(ir, results, artifacts, chain)
    ensures DerivationAccepts(ir, results, artifacts, m) && ChainAccepts(results, chain, m)
    ensures CitedAreVerified(results, artifacts) ==> NothingInvalid(m.artifacts)
  {
    var lists := DerivedLists(c, ir, results, artifacts);
    m := lists.(
      outcome := DerivedOutcome(ir, results, lists.artifacts), completeness := DerivedCompleteness(ir, results),
      integrity := DerivedIntegrity(lists.artifacts), passed := |WithStatus(results, Passed)|,
      failed := |WithStatus(results, Failed)|, inconclusive := |WithStatus(results, Inconclusive)|,
      eventCount := |chain|, headDigest := chain[|chain| - 1].chainDigest, finalizationDigest := Some(""));
    SameLists(ir, results, artifacts, lists, m);
    DerivedFits(c, ir, results, chain, m);
  }

  ghost predicate ListsFit(ir: seq<Spec>, results: Results, artifacts: map<int, Artifact>, m: Manifest) {
    && ResultsListed(results, m) && |m.results| == |results|
    && ArtifactsListed(artifacts, m) && RefsListed(results, artifacts, m) && MissingExact(ir, results, m)
  }

  lemma SameLists(ir: seq<Spec>, results: Results, artifacts: map<int, Artifact>, m: Manifest, n: Manifest)
    requires ListsFit(ir, results, artifacts, m)
    requires n.results == m.results && n.artifacts == m.artifacts && n.missing == m.missing
    ensures ListsFit(ir, results, artifacts, n)
  {
    forall k, ref | k in results && ref in results[k].refs ensures Lists(n, ref) { assert Lists(m, ref); }
  }

  lemma DerivedLists(c: RC.Contract, ir: seq<Spec>, results: Results, artifacts: map<int, Artifact>)
    returns (m: Manifest)
    requires Stored(c, ir, results) && Keyed(artifacts)
    requires forall i :: 0 <= i < |ir| ==> ir[i].assertionId.Some?
    requires forall k, ref :: k in results && ref in results[k].refs ==> ref in artifacts
    ensures ListsFit(ir, results, artifacts, m)
    ensures CitedAreVerified(results, artifacts) ==> NothingInvalid(m.artifacts)
  {
    var rs := AllResults(c, ir, results);
    var listed := CitedArtifacts(results, artifacts);
    var missing := Listing(Ids(ir) - results.Keys);
    m := Manifest(Passed, Complete, Verified, 0, 0, 0, rs, missing, listed, 0, "", None);
    assert RefsListed(results, artifacts, m) by { AllRefsListed(results, artifacts, m); }
    assert MissingExact(ir, results, m) by { AllMissing(ir, results, m); }
  }

  lemma DerivedFits(c: RC.Contract, ir: seq<Spec>, results: Results, chain: seq<RC.Report>, m: Manifest)
    requires Stored(c, ir, results) && ResultsListed(results, m) && |m.results| == |results|
    requires m.passed == |WithStatus(results, Passed)| && m.failed == |WithStatus(results, Failed)|
    requires m.inconclusive == |WithStatus(results, Inconclusive)|
    requires m.outcome == DerivedOutcome(ir, results, m.artifacts)
    requires chain != [] && chain[|chain| - 1].kind == RC.ExecutionCompleted && m.finalizationDigest.Some?
    requires m.eventCount == |chain| && m.headDigest == chain[|chain| - 1].chainDigest
    requires Unsafe(chain) ==> forall k :: k in results ==> results[k].status == Inconclusive
    ensures CountsAgree(results, m) && ChainAccepts(results, chain, m)
  {
    StatusesPartition(results);
    if Unsafe(chain) {
      InconclusiveAnswers(c, ir, results, m.artifacts);
      assert WithStatus(results, Passed) == {} == WithStatus(results, Failed);
    }
  }

  lemma AllMissing(ir: seq<Spec>, results: Results, m: Manifest)
    requires forall i :: 0 <= i < |ir| ==> ir[i].assertionId.Some?
    requires Distinct(m.missing) && forall id :: id in m.missing <==> id in Ids(ir) - results.Keys
    ensures MissingExact(ir, results, m)
  {
    forall i | 0 <= i < |ir| ensures ir[i].assertionId.value in results || ir[i].assertionId.value in m.missing {
      assert Declared(ir, ir[i].assertionId.value);
    }
  }

  lemma PassedManifest(
      c: RC.Contract, ir: seq<Spec>, results: Results, artifacts: map<int, Artifact>, chain: seq<RC.Report>)
    returns (m: Manifest)
    requires Stored(c, ir, results) && Keyed(artifacts)
    requires CompleteAnswers(ir, results) && CitedAreVerified(results, artifacts) && Completed(chain)
    ensures AcceptedPassed(ir, results, artifacts, chain, m)
  {
    assert forall i :: 0 <= i < |ir| ==> ir[i].assertionId.Some? by { AnswersMatch(c, ir, results); }
    SafeConcludes(ir, results, artifacts, chain);
    m := DerivedManifest(c, ir, results, artifacts, chain);
    assert m.outcome == Passed by { DerivedPasses(ir, results, m); }
  }

  lemma SafeConcludes(ir: seq<Spec>, results: Results, artifacts: map<int, Artifact>, chain: seq<RC.Report>)
    requires forall i :: 0 <= i < |ir| ==> ir[i].assertionId.Some?
    requires CitedAreVerified(results, artifacts) && Completed(chain)
    ensures Concludable(ir, results, artifacts, chain)
  {
    assert !Unsafe(chain);
  }

  lemma DerivedPasses(ir: seq<Spec>, results: Results, m: Manifest)
    requires VerdictDerived(ir, results, m) && CompleteAnswers(ir, results) && NothingInvalid(m.artifacts)
    ensures m.outcome == Passed
  {
    PassedParts(ir, results, m.artifacts);
  }

  lemma InconclusiveAnswers(c: RC.Contract, ir: seq<Spec>, results: Results, listed: seq<Artifact>)
    requires Stored(c, ir, results) && forall k :: k in results ==> results[k].status == Inconclusive
    ensures DerivedOutcome(ir, results, listed) == Inconclusive
  {
    if DerivedOutcome(ir, results, listed) == Passed {
      PassedParts(ir, results, listed);
      AnswersMatch(c, ir, results);
    }
  }

  lemma AllRefsListed(results: Results, artifacts: map<int, Artifact>, m: Manifest)
    requires forall k, ref :: k in results && ref in results[k].refs ==> ref in artifacts
    requires forall k, ref :: k in results && ref in results[k].refs ==>
      exists i :: 0 <= i < |m.artifacts| && m.artifacts[i].id == ref
    ensures RefsListed(results, artifacts, m)
  {
    forall k, ref | k in results && ref in results[k].refs ensures Lists(m, ref) {
      var i :| 0 <= i < |m.artifacts| && m.artifacts[i].id == ref;
    }
  }

  lemma AllResults(c: RC.Contract, ir: seq<Spec>, results: Results) returns (rs: seq<Result>)
    requires Stored(c, ir, results)
    ensures |rs| == |results|
    ensures forall i, j :: 0 <= i < j < |rs| ==> rs[i].id != rs[j].id
    ensures forall i :: 0 <= i < |rs| ==> exists k :: k in results && results[k] == rs[i]
  {
    var names := Listing(results.Keys);
    assert forall i :: 0 <= i < |names| ==> names[i] in names;
    rs := seq(|names|, i requires 0 <= i < |names| => results[names[i]]);
    assert |results| == |results.Keys|;
  }

  lemma CitedArtifacts(results: Results, artifacts: map<int, Artifact>) returns (listed: seq<Artifact>)
    requires Keyed(artifacts)
    requires forall k, ref :: k in results && ref in results[k].refs ==> ref in artifacts
    ensures CitedAreVerified(results, artifacts) ==> NothingInvalid(listed)
    ensures forall i, j :: 0 <= i < j < |listed| ==> listed[i].id != listed[j].id
    ensures forall i :: 0 <= i < |listed| ==> listed[i].id in artifacts && artifacts[listed[i].id] == listed[i]
    ensures forall k, ref :: k in results && ref in results[k].refs ==>
      exists i :: 0 <= i < |listed| && listed[i].id == ref
  {
    var cited := set k, ref | k in results && ref in results[k].refs :: ref;
    var ids := Listing(cited);
    assert forall i :: 0 <= i < |ids| ==> ids[i] in ids;
    listed := seq(|ids|, i requires 0 <= i < |ids| => artifacts[ids[i]]);
    forall k, ref | k in results && ref in results[k].refs
      ensures exists i :: 0 <= i < |listed| && listed[i].id == ref
    {
      assert ref in cited;
      var i :| 0 <= i < |ids| && ids[i] == ref;
      assert listed[i].id == ref;
    }
  }

  lemma StatusesPartition(results: Results)
    ensures |results| ==
      |WithStatus(results, Passed)| + |WithStatus(results, Failed)| + |WithStatus(results, Inconclusive)|
  {
    var p, f, i := WithStatus(results, Passed), WithStatus(results, Failed), WithStatus(results, Inconclusive);
    assert results.Keys == (p + f) + i;
    assert p !! f && (p + f) !! i;
    assert |results| == |results.Keys|;
  }

  /** The shortest complete report log. */
  lemma ShortLog(c: RC.Contract) returns (chain: seq<RC.Report>)
    requires c.createdAt <= 1 && 2 <= c.deadline
    ensures RC.AcceptsAll(c, chain) && Completed(chain) && |chain| == 2
  {
    chain := [
      RC.Report(1, RC.ExecutionStarted, None, None, None, None, None, RC.GENESIS, RC.GENESIS, 1, 1),
      RC.Report(2, RC.ExecutionCompleted, None, None, None, None, None, RC.GENESIS, RC.GENESIS, 2, 2)];
    RC.AcceptedRunsAreGrammar(c, chain);
  }

  /** An INVALID artifact, even a required one, that no result cites stays out of the list of
      an accepted PASSED manifest. */
  lemma OmittedArtifactCanPass()
    returns (
      c: RC.Contract, ir: seq<Spec>, results: Results, artifacts: map<int, Artifact>, chain: seq<RC.Report>,
      m: Manifest, bad: int)
    ensures bad in artifacts && artifacts[bad].integrity == Invalid && artifacts[bad].required
    ensures Stored(c, ir, results) && RC.AcceptsAll(c, chain)
    ensures AcceptedPassed(ir, results, artifacts, chain, m) && !Lists(m, bad)
  {
    c, bad := RC.Contract(0, 10), 2;
    ir := [Spec(Some("a"), None, Some("hard"), None)];
    artifacts := map[1 := Artifact(1, Verified, true, ""), 2 := Artifact(2, Invalid, true, "")];
    var r := Result(7, "a", "n", "hard", "e", Passed, [1], 1, 2);
    results := map["a" := r];
    chain := ShortLog(c);
    HardAnswer(c, ir, results, r);
    m := PassedManifest(c, ir, results, artifacts, chain);
    PassedIffNothingInvalidListed(ir, results, artifacts, m);
  }

  lemma HardAnswer(c: RC.Contract, ir: seq<Spec>, results: Results, r: Result)
    requires |ir| == 1 && ir[0].strength == Some("hard") && Matches(ir[0], r) && results == map[r.assertionId := r]
    requires r.strength == "hard" && r.status == Passed && r.refs == [1]
    requires c.createdAt <= r.observedAt <= r.createdAt <= c.deadline
    ensures Stored(c, ir, results) && CompleteAnswers(ir, results)
  {
    assert ir[0].strength == Some("hard");
    assert |results| == |results.Keys| == 1;
  }

  // ------------------------------------------------------------ after the verdict

  /** A declaration some result could match. */
  predicate Answerable(s: Spec) {
    s.assertionId.Some? && (s.strength.None? || s.strength.value in {"hard", "soft", "diagnostic"})
  }

  /** The i-th declaration is the one the guard looks at, can be answered, and is missing. */
  predicate StillOpen(ir: seq<Spec>, m: Manifest, i: nat)
    requires i < |ir|
  {
    IsFirst(ir, i) && Answerable(ir[i]) && ir[i].assertionId.value in m.missing
  }

  /** Results stay insertable after the manifest is stored, since the insert guard does
      not look at the run's lifecycle: they are insertable exactly while the declaration of
      a missing id is answerable. */
  lemma StillInsertable(c: RC.Contract, ir: seq<Spec>, results: Results, m: Manifest)
    requires c.createdAt <= c.deadline
    requires Stored(c, ir, results) && MissingExact(ir, results, m)
    ensures (exists r :: Insertable(c, ir, results, r)) <==> (exists i :: 0 <= i < |ir| && StillOpen(ir, m, i))
  {
    if r :| Insertable(c, ir, results, r) {
      var i := OpenFor(c, ir, results, m, r);
    }
    if i :| 0 <= i < |ir| && StillOpen(ir, m, i) {
      var r := AnswerTo(c, ir, results, m, i);
    }
  }

  lemma OpenFor(c: RC.Contract, ir: seq<Spec>, results: Results, m: Manifest, r: Result) returns (i: nat)
    requires Insertable(c, ir, results, r) && MissingExact(ir, results, m)
    ensures i < |ir| && StillOpen(ir, m, i)
  {
    i :| 0 <= i < |ir| && IsFirst(ir, i) && Matches(ir[i], r);
  }

  lemma AnswerTo(c: RC.Contract, ir: seq<Spec>, results: Results, m: Manifest, i: nat) returns (r: Result)
    requires c.createdAt <= c.deadline && MissingExact(ir, results, m) && i < |ir| && StillOpen(ir, m, i)
    ensures Insertable(c, ir, results, r)
  {
    var id := FreshId(results);
    r := Answer(ir[i], id, c.createdAt);
    assert IsFirst(ir, i) && Matches(ir[i], r);
  }

  function Answer(s: Spec, id: int, at: int): Result
    requires s.assertionId.Some?
  {
    Result(id, s.assertionId.value, Or(s.nodeId, ""), Or(s.strength, "soft"), Or(s.evaluator, ""), Passed, [], at, at)
  }

  function Or(a: Option<string>, fallback: string): string {
    if a.Some? then a.value else fallback
  }

  lemma FreshId(results: Results) returns (id: int)
    ensures forall k :: k in results ==> results[k].id < id
  {
    id := 0;
    var todo := results.Keys;
    while todo != {}
      invariant todo <= results.Keys
      invariant forall k :: k in results && k !in todo ==> results[k].id < id
      decreases todo
    {
      var k :| k in todo;
      todo := todo - {k};
      id := if results[k].id < id then id else results[k].id + 1;
    }
  }

  /** A PASSED verdict cannot be overtaken: no result and no report is accepted after it,
      so the facts it was derived from are final. */
  lemma PassedIsFinal(
      c: RC.Contract, ir: seq<Spec>, results: Results, artifacts: map<int, Artifact>,
      chain: seq<RC.Report>, m: Manifest, r: Result, report: RC.Report)
    requires Stored(c, ir, results) && DerivationAccepts(ir, results, artifacts, m)
    requires RC.Grammar(c, chain) && ChainAccepts(results, chain, m) && m.outcome == Passed
    ensures !Insertable(c, ir, results, r)
    ensures !RC.Accepts(c, RC.Table(chain), report)
  {
    PassedResultsAreTrustworthy(c, ir, results, artifacts, m);
    if Admissible(c, ir, r) {
      assert Declared(ir, r.assertionId);
      assert r.assertionId in Ids(ir);
    }
    CompletedIsFinal(c, chain, report);
  }

  lemma CompletedIsFinal(c: RC.Contract, chain: seq<RC.Report>, report: RC.Report)
    requires RC.Grammar(c, chain) && chain != [] && chain[|chain| - 1].kind == RC.ExecutionCompleted
    ensures !RC.Accepts(c, RC.Table(chain), report)
  {
    RC.GuardIsGrammar(c, chain, report);
    RC.ItemsExtend(chain, 1, report);
  }

  /** An INCONCLUSIVE manifest, accepted by both triggers, can be overtaken: the missing soft
      result arrives later and a PASSED manifest over the new facts would be accepted, were
      the first not already stored. */
  lemma InconclusiveCanBeOvertaken()
    returns (
      c: RC.Contract, ir: seq<Spec>, results: Results, artifacts: map<int, Artifact>, m: Manifest,
      chain: seq<RC.Report>, late: Result, later: Results, n: Manifest)
    ensures Stored(c, ir, results) && RC.AcceptsAll(c, chain)
    ensures DerivationAccepts(ir, results, artifacts, m) && ChainAccepts(results, chain, m)
    ensures m.outcome == Inconclusive && Insertable(c, ir, results, late)
    ensures later == results[late.assertionId := late] && AcceptedPassed(ir, later, artifacts, chain, n)
  {
    var r, shot;
    c := RC.Contract(0, 10);
    ir, shot, r, late := EarlyFacts(c);
    artifacts, results := map[1 := shot], map["a" := r];
    later := results[late.assertionId := late];
    chain := ShortLog(c);
    m := EarlyManifest(ir, results, artifacts, r, shot, chain);
    LateAnswers(ir, results, late);
    InsertKeepsStored(c, ir, results, late);
    n := PassedManifest(c, ir, later, artifacts, chain);
  }

  /** One hard assertion, answered, and one soft one, still unanswered. */
  lemma EarlyFacts(c: RC.Contract) returns (ir: seq<Spec>, shot: Artifact, r: Result, late: Result)
    requires c == RC.Contract(0, 10)
    ensures |ir| == 2 && ir[0].assertionId == Some("a") && ir[1].assertionId == Some("b")
    ensures ir[0].strength == Some("hard") && ir[1].strength == Some("soft")
    ensures shot.id == 1 && shot.integrity == Verified
    ensures r.assertionId == "a" && r.status == Passed && r.refs == [1]
    ensures late.assertionId == "b" && late.strength == "soft" && late.refs == [1]
    ensures Stored(c, ir, map["a" := r]) && Insertable(c, ir, map["a" := r], late)
  {
    ir := [Spec(Some("a"), None, Some("hard"), None), Spec(Some("b"), None, Some("soft"), None)];
    shot := Artifact(1, Verified, true, "");
    r := Result(7, "a", "n", "hard", "e", Passed, [1], 1, 2);
    late := Result(8, "b", "n", "soft", "e", Passed, [1], 3, 4);
    assert IsFirst(ir, 0) && Matches(ir[0], r);
    assert IsFirst(ir, 1) && Matches(ir[1], late);
  }

  lemma EarlyManifest(
      ir: seq<Spec>, results: Results, artifacts: map<int, Artifact>, r: Result, shot: Artifact, chain: seq<RC.Report>)
    returns (m: Manifest)
    requires |ir| == 2 && ir[0].assertionId == Some("a") && ir[1].assertionId == Some("b")
    requires ir[0].strength == Some("hard") && ir[1].strength == Some("soft")
    requires results == map["a" := r] && r.assertionId == "a" && r.status == Passed && r.refs == [1]
    requires artifacts == map[1 := shot] && shot.id == 1 && shot.integrity == Verified && Completed(chain)
    ensures DerivationAccepts(ir, results, artifacts, m) && ChainAccepts(results, chain, m) && m.outcome == Inconclusive
  {
    var head := chain[|chain| - 1].chainDigest;
    m := Manifest(Inconclusive, Partial, Verified, 1, 0, 0, [r], ["b"], [shot], |chain|, head, Some(head));
    assert ChainAccepts(results, chain, m);
    EarlyLists(results, artifacts, m, r, shot);
    EarlyMissing(ir, results, m);
    EarlyVerdict(ir, results, m);
  }

  lemma EarlyLists(results: Results, artifacts: map<int, Artifact>, m: Manifest, r: Result, shot: Artifact)
    requires results == map["a" := r] && r.assertionId == "a" && r.status == Passed && r.refs == [1]
    requires artifacts == map[1 := shot] && shot.id == 1
    requires m.results == [r] && m.artifacts == [shot] && m.passed == 1 && m.failed == m.inconclusive == 0
    ensures CountsAgree(results, m) && ResultsListed(results, m)
    ensures ArtifactsListed(artifacts, m) && RefsListed(results, artifacts, m)
  {
    assert WithStatus(results, Passed) == {"a"};
    assert WithStatus(results, Failed) == {} == WithStatus(results, Inconclusive);
    assert results["a"] == m.results[0];
    assert m.artifacts[0].id == 1 && Lists(m, 1);
  }

  lemma EarlyMissing(ir: seq<Spec>, results: Results, m: Manifest)
    requires |ir| == 2 && ir[0].assertionId == Some("a") && ir[1].assertionId == Some("b")
    requires results.Keys == {"a"} && m.missing == ["b"]
    ensures MissingExact(ir, results, m)
  {
    assert ir[1].assertionId == Some("b") && m.missing[0] == "b";
  }

  lemma EarlyVerdict(ir: seq<Spec>, results: Results, m: Manifest)
    requires |ir| == 2 && ir[0].assertionId == Some("a")
    requires ir[0].strength == Some("hard") && ir[1].strength == Some("soft")
    requires results.Keys == {"a"} && results["a"].refs != [] && results["a"].status == Passed
    requires m.completeness == Partial && m.integrity == Verified
    requires m.outcome == Inconclusive && NothingInvalid(m.artifacts)
    ensures VerdictDerived(ir, results, m)
  {
    assert |results| == |results.Keys| == 1;
  }

  lemma LateAnswers(ir: seq<Spec>, results: Results, late: Result)
    requires |ir| == 2 && ir[0].assertionId == Some("a")
    requires ir[0].strength == Some("hard") && ir[1].strength == Some("soft")
    requires results.Keys == {"a"} && results["a"].refs != [] && results["a"].status == Passed
    requires late.assertionId == "b" && late.strength == "soft" && late.refs != []
    ensures CompleteAnswers(ir, results[late.assertionId := late])
  {
    var after := results[late.assertionId := late];
    assert after.Keys == {"a", "b"};
    assert |after| == |after.Keys| == 2;
    assert ir[0].strength == Some("hard");
  }
}
