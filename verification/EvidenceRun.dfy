/** One debug run with its contract, actors, report log, assertion results, artifacts and
    manifest: what it means, for ever, that the run reads PASSED. */
module EvidenceRun {
  import opened Sql
  import opened EvidenceVerdict
  import DR = DebugRun
  import RC = ReportChain
  import Sets

  datatype World = World(
    base: DR.World, chain: seq<RC.Report>, results: Results, artifacts: map<int, Artifact>,
    evidence: map<int, Manifest>)

  predicate Start(w: World) {
    DR.Start(w.base) && w.chain == [] && w.results == map[] && w.artifacts == map[] && w.evidence == map[]
  }

  /** `current` stands for the checks that read other tables. */
  datatype Event =
    | Change(e: DR.Event)
    | InsertReport(contract: int, report: RC.Report)
    | InsertResult(contract: int, result: Result)
    | InsertArtifact(contract: int, artifact: Artifact, current: bool)
    | InsertManifest(id: int, header: DR.Manifest, manifest: Manifest, current: bool)

  function Window(c: DR.Contract): RC.Contract { RC.Contract(c.createdAt, c.deadline) }

  predicate SameOutcome(a: DR.Outcome, b: Status) {
    match b
    case Passed => a == DR.Passed
    case Failed => a == DR.Failed
    case Inconclusive => a == DR.Inconclusive
  }

  predicate SameCompleteness(a: DR.Completeness, b: Completeness) {
    match b
    case Complete => a == DR.Complete
    case Partial => a == DR.Partial
    case Missing => a == DR.Missing
  }

  /** The columns of a manifest repeat its document. */
  predicate Agrees(h: DR.Manifest, m: Manifest) {
    && SameOutcome(h.outcome, m.outcome) && SameCompleteness(h.completeness, m.completeness)
    && (h.verified <==> m.integrity == Verified)
  }

  /** The insert guards.  Reports need a running, uncanceled run; results and artifacts only
      the contract. */
  ghost predicate Admitted(ir: seq<Spec>, w: World, e: Event) {
    var contracts := w.base.facts.contracts;
    match e
    case Change(d) => !d.StoreManifest? && DR.Admitted(w.base, d)
    case InsertReport(c, r) =>
      && c in contracts && w.base.run.lifecycle == DR.Running && w.base.run.cancel.None?
      && RC.Accepts(Window(contracts[c]), RC.Table(w.chain), r)
    case InsertResult(c, r) => c in contracts && Insertable(Window(contracts[c]), ir, w.results, r)
    case InsertArtifact(c, a, current) => current && c in contracts && a.id !in w.artifacts
    case InsertManifest(id, h, m, current) =>
      && DR.Admitted(w.base, DR.StoreManifest(id, h, current)) && Agrees(h, m)
      && DerivationAccepts(ir, w.results, w.artifacts, m) && ChainAccepts(w.results, w.chain, m)
  }

  ghost function Next(ir: seq<Spec>, w: World, e: Event): World {
    if !Admitted(ir, w, e) then w
    else match e
      case Change(d) => w.(base := DR.Next(w.base, d))
      case InsertReport(_, r) => w.(chain := w.chain + [r])
      case InsertResult(_, r) => w.(results := w.results[r.assertionId := r])
      case InsertArtifact(_, a, _) => w.(artifacts := w.artifacts[a.id := a])
      case InsertManifest(id, h, m, current) =>
        w.(base := DR.Next(w.base, DR.StoreManifest(id, h, current)), evidence := w.evidence[id := m])
  }

  ghost function After(ir: seq<Spec>, w: World, es: seq<Event>): World
    decreases |es|
  {
    if es == [] then w else Next(ir, After(ir, w, es[..|es| - 1]), es[|es| - 1])
  }

  /** The run itself goes through transactions of its own, so all results about debug runs
      hold here. */
  lemma {:induction false} Projects(ir: seq<Spec>, start: World, es: seq<Event>) returns (ds: seq<DR.Event>)
    ensures DR.After(start.base, ds) == After(ir, start, es).base
    decreases |es|
  {
    ds := [];
    if es != [] {
      var w, e := After(ir, start, es[..|es| - 1]), es[|es| - 1];
      ds := Projects(ir, start, es[..|es| - 1]);
      if Admitted(ir, w, e) && (e.Change? || e.InsertManifest?) {
        var d := if e.Change? then e.e else DR.StoreManifest(e.id, e.header, e.current);
        var more := ds + [d];
        assert more[..|more| - 1] == ds;
        ds := more;
      }
    }
  }

  // ------------------------------------------------------------------------ invariants

  predicate OneContract(contracts: map<int, DR.Contract>) {
    forall c, d :: c in contracts && d in contracts ==> c == d
  }

  /** Log and results fit the window of the one contract, and before it there are none. */
  predicate FactsFit(ir: seq<Spec>, contracts: map<int, DR.Contract>, chain: seq<RC.Report>, results: Results) {
    && OneContract(contracts)
    && (contracts == map[] ==> chain == [] && results == map[])
    && forall c :: c in contracts ==>
         RC.Grammar(Window(contracts[c]), chain) && Stored(Window(contracts[c]), ir, results)
  }

  /** A stored PASSED manifest is still what both triggers would accept over today's facts. */
  ghost predicate EvidenceFits(ir: seq<Spec>, w: World) {
    && w.evidence.Keys == w.base.facts.manifests.Keys
    && forall m {:trigger EvidenceAt(ir, w, m)} :: m in w.evidence ==> EvidenceAt(ir, w, m)
  }

  ghost predicate EvidenceAt(ir: seq<Spec>, w: World, m: int)
    requires m in w.evidence && m in w.base.facts.manifests
  {
    && Agrees(w.base.facts.manifests[m], w.evidence[m])
    && (w.evidence[m].outcome == Passed ==>
          && w.base.facts.contracts != map[]
          && AcceptedPassed(ir, w.results, w.artifacts, w.chain, w.evidence[m]))
  }

  ghost predicate Valid(ir: seq<Spec>, w: World) {
    && DR.Valid(w.base) && FactsFit(ir, w.base.facts.contracts, w.chain, w.results)
    && Keyed(w.artifacts) && EvidenceFits(ir, w)
  }

  lemma NextKeepsFacts(ir: seq<Spec>, w: World, e: Event)
    requires FactsFit(ir, w.base.facts.contracts, w.chain, w.results)
    ensures var n := Next(ir, w, e); FactsFit(ir, n.base.facts.contracts, n.chain, n.results)
  {
    if Admitted(ir, w, e) {
      var contracts := w.base.facts.contracts;
      if e.InsertReport? {
        forall c | c in contracts ensures RC.Grammar(Window(contracts[c]), w.chain + [e.report]) {
          assert c == e.contract;
          RC.GuardIsGrammar(Window(contracts[c]), w.chain, e.report);
        }
      } else if e.InsertResult? {
        forall c | c in contracts
          ensures Stored(Window(contracts[c]), ir, w.results[e.result.assertionId := e.result])
        {
          assert c == e.contract;
          InsertKeepsStored(Window(contracts[c]), ir, w.results, e.result);
        }
      } else if e.Change? {
        NewContract(ir, w.base, e.e, w.chain, w.results);
      }
    }
  }

  lemma NewContract(ir: seq<Spec>, w: DR.World, d: DR.Event, chain: seq<RC.Report>, results: Results)
    requires FactsFit(ir, w.facts.contracts, chain, results)
    ensures FactsFit(ir, DR.Next(w, d).facts.contracts, chain, results)
  {
  }

  lemma MoreArtifacts(
      ir: seq<Spec>, results: Results, artifacts: map<int, Artifact>, chain: seq<RC.Report>, m: Manifest, a: Artifact)
    requires AcceptedPassed(ir, results, artifacts, chain, m) && a.id !in artifacts
    ensures AcceptedPassed(ir, results, artifacts[a.id := a], chain, m)
  {
    var more := artifacts[a.id := a];
    assert ArtifactsListed(more, m);
    assert RefsListed(results, more, m);
  }

  /** After a PASSED manifest the report log and the results do not change any more. */
  lemma PassedFreezes(ir: seq<Spec>, w: World, e: Event, m: int)
    requires Valid(ir, w) && m in w.evidence && w.evidence[m].outcome == Passed
    ensures Next(ir, w, e).chain == w.chain && Next(ir, w, e).results == w.results
  {
    var contracts := w.base.facts.contracts;
    assert EvidenceAt(ir, w, m);
    if Admitted(ir, w, e) && (e.InsertReport? || e.InsertResult?) {
      var c := Window(contracts[e.contract]);
      if e.InsertReport? {
        CompletedIsFinal(c, w.chain, e.report);
      } else {
        NoLateResult(c, ir, w.results, w.artifacts, w.chain, w.evidence[m], e.result);
      }
    }
  }

  lemma NoLateResult(
      c: RC.Contract, ir: seq<Spec>, results: Results, artifacts: map<int, Artifact>, chain: seq<RC.Report>,
      m: Manifest, r: Result)
    requires Stored(c, ir, results) && AcceptedPassed(ir, results, artifacts, chain, m)
    ensures !Insertable(c, ir, results, r)
  {
    PassedResultsAreTrustworthy(c, ir, results, artifacts, m);
    if Admissible(c, ir, r) {
      var i :| 0 <= i < |ir| && Matches(ir[i], r);
      assert ir[i].assertionId.value in results;
    }
  }

  predicate KeepsStored(a: World, b: World) {
    && b.evidence.Keys == b.base.facts.manifests.Keys
    && (a.base.facts.contracts != map[] ==> b.base.facts.contracts != map[])
    && forall m :: m in a.evidence && m in a.base.facts.manifests ==>
         && m in b.evidence && b.evidence[m] == a.evidence[m]
         && b.base.facts.manifests[m] == a.base.facts.manifests[m]
  }

  lemma ChangeKeepsManifests(w: DR.World, d: DR.Event)
    requires !d.StoreManifest?
    ensures DR.Next(w, d).facts.manifests == w.facts.manifests
    ensures w.facts.contracts != map[] ==> DR.Next(w, d).facts.contracts != map[]
  {
  }

  /** Stored contracts and manifests stay. */
  lemma NextGrows(ir: seq<Spec>, w: World, e: Event)
    requires w.evidence.Keys == w.base.facts.manifests.Keys
    ensures KeepsStored(w, Next(ir, w, e))
  {
    if e.Change? && Admitted(ir, w, e) { ChangeKeepsManifests(w.base, e.e); }
  }

  lemma OldEvidence(ir: seq<Spec>, w: World, e: Event, m: int)
    requires Valid(ir, w) && m in w.evidence
    requires KeepsStored(w, Next(ir, w, e))
    ensures EvidenceAt(ir, Next(ir, w, e), m)
  {
    assert EvidenceAt(ir, w, m);
    if w.evidence[m].outcome == Passed {
      PassedFreezes(ir, w, e, m);
      if e.InsertArtifact? && Admitted(ir, w, e) {
        MoreArtifacts(ir, w.results, w.artifacts, w.chain, w.evidence[m], e.artifact);
      }
    }
  }

  lemma NewEvidence(ir: seq<Spec>, w: World, e: Event)
    requires Admitted(ir, w, e) && e.InsertManifest?
    ensures var n := Next(ir, w, e);
      e.id in n.evidence && e.id in n.base.facts.manifests && EvidenceAt(ir, n, e.id)
  {
  }

  lemma NextKeepsEvidence(ir: seq<Spec>, w: World, e: Event)
    requires Valid(ir, w)
    ensures EvidenceFits(ir, Next(ir, w, e))
  {
    var n := Next(ir, w, e);
    NextGrows(ir, w, e);
    forall m | m in n.evidence ensures EvidenceAt(ir, n, m) {
      if m in w.evidence { OldEvidence(ir, w, e, m); } else { NewEvidence(ir, w, e); }
    }
  }

  lemma NextKeepsRun(ir: seq<Spec>, w: World, e: Event)
    requires DR.Valid(w.base)
    ensures DR.Valid(Next(ir, w, e).base)
  {
    if Admitted(ir, w, e) && (e.Change? || e.InsertManifest?) {
      DR.NextKeepsValid(w.base, if e.Change? then e.e else DR.StoreManifest(e.id, e.header, e.current));
    }
  }

  lemma {:induction false} RunsKeepValid(ir: seq<Spec>, w: World, es: seq<Event>)
    requires Valid(ir, w)
    ensures Valid(ir, After(ir, w, es))
    decreases |es|
  {
    if es != [] {
      var v, e := After(ir, w, es[..|es| - 1]), es[|es| - 1];
      RunsKeepValid(ir, w, es[..|es| - 1]);
      NextKeepsValid(ir, v, e);
    }
  }

  lemma NextKeepsKeyed(ir: seq<Spec>, w: World, e: Event)
    requires Keyed(w.artifacts)
    ensures Keyed(Next(ir, w, e).artifacts)
  {
  }

  lemma NextKeepsValid(ir: seq<Spec>, w: World, e: Event)
    requires Valid(ir, w)
    ensures Valid(ir, Next(ir, w, e))
  {
    NextKeepsRun(ir, w, e);
    NextKeepsFacts(ir, w, e);
    NextKeepsKeyed(ir, w, e);
    NextKeepsEvidence(ir, w, e);
  }

  // ------------------------------------------------------------------------ the meaning

  /** The conclusion drawn from a PASSED run with manifest m. */
  ghost predicate Trustworthy(ir: seq<Spec>, w: World, m: Manifest) {
    && AnsweredOnce(ir, w.results) && HardPassed(ir, w.results) && CitesVerified(w.results, m)
    && m.completeness == Complete && m.integrity == Verified && m.missing == []
    && w.chain != [] && m.eventCount == |w.chain| && m.headDigest == w.chain[|w.chain| - 1].chainDigest
    && forall j: nat :: j < |w.chain| && w.chain[j].kind == RC.ActionProposed ==>
         j + 2 < |w.chain| && AllowedAndSucceeded(w.chain, j)
  }

  lemma ValidPassedIsTrustworthy(ir: seq<Spec>, w: World)
    requires Valid(ir, w) && w.base.run.outcome == DR.Passed
    ensures w.base.run.manifest.Some? && w.base.run.manifest.value.0 in w.evidence
    ensures w.evidence[w.base.run.manifest.value.0].outcome == Passed
    ensures Trustworthy(ir, w, w.evidence[w.base.run.manifest.value.0])
  {
    var id := w.base.run.manifest.value.0;
    assert id in w.base.facts.manifests;
    assert EvidenceAt(ir, w, id);
    var m, contracts := w.evidence[id], w.base.facts.contracts;
    var c := Member(contracts.Keys);
    AcceptedIsTrustworthy(Window(contracts[c]), ir, w, m);
  }

  lemma Member(s: set<int>) returns (x: int)
    requires s != {}
    ensures x in s
  {
    assert |s| > 0;
    x := Sets.Member(s);
  }

  lemma AcceptedIsTrustworthy(c: RC.Contract, ir: seq<Spec>, w: World, m: Manifest)
    requires Stored(c, ir, w.results) && RC.Grammar(c, w.chain)
    requires AcceptedPassed(ir, w.results, w.artifacts, w.chain, m)
    ensures Trustworthy(ir, w, m)
  {
    RC.AcceptedRunsAreGrammar(c, w.chain);
    PassedIsTrustworthy(c, ir, w.results, w.artifacts, w.chain, m);
  }

  /** Result, manifest, contract, results and report log are the same, and the evidence still
      stored. */
  predicate SamePassed(a: World, b: World) {
    && b.base.run.outcome == a.base.run.outcome && b.base.run.manifest == a.base.run.manifest
    && b.base.run.contract == a.base.run.contract
    && b.results == a.results && b.chain == a.chain
    && forall m :: m in a.evidence ==> m in b.evidence && b.evidence[m] == a.evidence[m]
  }

  /** A run that reads PASSED after any history of inserts and updates is trustworthy, and so
      it stays: in every continuation it reads PASSED with the same manifest over the same
      results and the same report log. */
  lemma PassedRunIsTrustworthy(ir: seq<Spec>, start: World, es: seq<Event>, more: seq<Event>)
    requires Start(start) && After(ir, start, es).base.run.outcome == DR.Passed
    ensures var w := After(ir, start, es);
      && w.base.run.manifest.Some? && w.base.run.manifest.value.0 in w.evidence
      && Trustworthy(ir, w, w.evidence[w.base.run.manifest.value.0])
      && SamePassed(w, After(ir, w, more))
      && Trustworthy(ir, After(ir, w, more), w.evidence[w.base.run.manifest.value.0])
  {
    var w := After(ir, start, es);
    assert Valid(ir, w) by {
      DR.StartIsValid(start.base);
      RunsKeepValid(ir, start, es);
    }
    ValidPassedIsTrustworthy(ir, w);
    PassedStays(ir, w, more);
    SameIsTrustworthy(ir, w, After(ir, w, more), w.evidence[w.base.run.manifest.value.0]);
  }

  lemma SameIsTrustworthy(ir: seq<Spec>, a: World, b: World, m: Manifest)
    requires SamePassed(a, b) && Trustworthy(ir, a, m)
    ensures Trustworthy(ir, b, m)
  {
  }

  lemma {:induction false} PassedStays(ir: seq<Spec>, w: World, es: seq<Event>)
    requires Valid(ir, w) && w.base.run.outcome == DR.Passed
    ensures Valid(ir, After(ir, w, es)) && SamePassed(w, After(ir, w, es))
    decreases |es|
  {
    if es != [] {
      var init, e := es[..|es| - 1], es[|es| - 1];
      PassedStays(ir, w, init);
      PassedStep(ir, After(ir, w, init), e);
      NextKeepsValid(ir, After(ir, w, init), e);
    }
  }

  lemma PassedStep(ir: seq<Spec>, w: World, e: Event)
    requires Valid(ir, w) && w.base.run.outcome == DR.Passed
    ensures SamePassed(w, Next(ir, w, e))
  {
    ValidPassedIsTrustworthy(ir, w);
    PassedFreezes(ir, w, e, w.base.run.manifest.value.0);
    NextGrows(ir, w, e);
    ResultStays(ir, w, e);
  }

  lemma ResultStays(ir: seq<Spec>, w: World, e: Event)
    requires w.base.run.lifecycle == DR.Terminated
    ensures var a, b := w.base.run, Next(ir, w, e).base.run;
      b.outcome == a.outcome && b.manifest == a.manifest && b.contract == a.contract
  {
    if e.Change? { DR.NextKeepsTerminated(w.base, e.e); }
  }

  // ----------------------------------------------------------- when facts were stored

  /** What an insert of a report needed. */
  ghost predicate LiveInsert(v: World, e: Event, r: RC.Report) {
    && e.InsertReport? && e.report == r
    && v.base.run.lifecycle == DR.Running && v.base.run.cancel.None?
    && e.contract in v.base.facts.contracts
    && var c := v.base.facts.contracts[e.contract];
    c.createdAt <= r.occurredAt && r.occurredAt <= r.recordedAt && r.recordedAt <= c.deadline
  }

  lemma NewReport(ir: seq<Spec>, v: World, e: Event)
    ensures var n := Next(ir, v, e).chain;
      n == v.chain || (e.InsertReport? && n == v.chain + [e.report] && LiveInsert(v, e, e.report))
  {
  }

  /** Every report of a log was stored while its run was RUNNING and not to be canceled, in the
      window of its contract. */
  lemma {:induction false} ReportWasLive(ir: seq<Spec>, start: World, es: seq<Event>, j: nat) returns (q: nat)
    requires Start(start) && j < |After(ir, start, es).chain|
    ensures q < |es|
    ensures LiveInsert(After(ir, start, es[..q]), es[q], After(ir, start, es).chain[j])
    ensures |After(ir, start, es[..q]).chain| == j
    decreases |es|
  {
    var init := es[..|es| - 1];
    NewReport(ir, After(ir, start, init), es[|es| - 1]);
    if j < |After(ir, start, init).chain| {
      q := ReportWasLive(ir, start, init, j);
      assert es[..q] == init[..q];
    } else {
      q := |es| - 1;
    }
  }

  /** In every such history, a result is accepted exactly if its assertion and its id are new, the
      first declaration of the assertion does not contradict it, and it cites at most 64 distinct
      artifacts and was observed and stored in the window of its contract. */
  lemma ResultsInsertExactly(ir: seq<Spec>, start: World, es: seq<Event>, c: int, r: Result)
    requires Start(start)
    ensures var w := After(ir, start, es);
      Admitted(ir, w, InsertResult(c, r)) <==>
        && c in w.base.facts.contracts
        && (forall k :: k in w.results ==> k != r.assertionId && w.results[k].id != r.id)
        && (exists i :: 0 <= i < |ir| && Answers(ir[i], r)
              && forall j :: 0 <= j < i ==> ir[j].assertionId != Some(r.assertionId))
        && (r.strength == "hard" || r.strength == "soft" || r.strength == "diagnostic")
        && |r.refs| <= 64 && (forall i, j :: 0 <= i < j < |r.refs| ==> r.refs[i] != r.refs[j])
        && w.base.facts.contracts[c].createdAt <= r.observedAt <= r.createdAt
        && r.createdAt <= w.base.facts.contracts[c].deadline
  {
    forall i: nat | i < |ir|
      ensures IsFirst(ir, i) && Matches(ir[i], r) <==>
        Answers(ir[i], r) && forall j :: 0 <= j < i ==> ir[j].assertionId != Some(r.assertionId)
    {
      MatchesMeans(ir[i], r);
    }
  }

  /** The columns say what the document says. */
  predicate Repeats(h: DR.Manifest, m: Manifest) {
    && ((h.outcome == DR.Passed && m.outcome == Passed) || (h.outcome == DR.Failed && m.outcome == Failed)
        || (h.outcome == DR.Inconclusive && m.outcome == Inconclusive))
    && ((h.completeness == DR.Complete && m.completeness == Complete)
        || (h.completeness == DR.Partial && m.completeness == Partial)
        || (h.completeness == DR.Missing && m.completeness == Missing))
    && (h.verified <==> m.integrity == Verified)
  }

  /** A manifest is stored exactly for a RUNNING run that has none, under its stored contract and
      its frozen digests, if the columns repeat the document and both triggers accept this. */
  lemma ManifestsInsertExactly(
      ir: seq<Spec>, start: World, es: seq<Event>, id: int, h: DR.Manifest, m: Manifest, current: bool)
    requires Start(start)
    ensures var w := After(ir, start, es);
      Admitted(ir, w, InsertManifest(id, h, m, current)) <==>
        && current && w.base.run.lifecycle == DR.Running && w.base.facts.manifests == map[]
        && w.base.run.contract.Some? && w.base.run.contract.value == h.contract
        && h.contract.0 in w.base.facts.contracts
        && h.testIrDigest == w.base.run.frozen.testIrDigest && h.planDigest == w.base.run.frozen.planDigest
        && Repeats(h, m)
        && DerivationAccepts(ir, w.results, w.artifacts, m) && ChainAccepts(w.results, w.chain, m)
  {
    var w := After(ir, start, es);
    AgreesMeans(h, m);
    if DerivationAccepts(ir, w.results, w.artifacts, m) { PassedColumns(ir, w.results, m); }
  }

  lemma AgreesMeans(h: DR.Manifest, m: Manifest)
    ensures Agrees(h, m) <==> Repeats(h, m)
  {
  }

  lemma PassedColumns(ir: seq<Spec>, results: Results, m: Manifest)
    requires VerdictDerived(ir, results, m)
    ensures m.outcome == Passed ==> m.completeness == Complete && m.integrity == Verified
  {
    PassedParts(ir, results, m.artifacts);
  }

  /** The columns of every stored manifest say what its document says. */
  lemma ColumnsRepeatTheDocument(ir: seq<Spec>, start: World, es: seq<Event>, id: int)
    requires Start(start) && id in After(ir, start, es).evidence
    ensures var w := After(ir, start, es);
      && id in w.base.facts.manifests
      && Repeats(w.base.facts.manifests[id], w.evidence[id])
  {
    DR.StartIsValid(start.base);
    RunsKeepValid(ir, start, es);
    assert EvidenceAt(ir, After(ir, start, es), id);
  }
}
