/** A debug run can pass: one complete history that ends PASSED. */
module EvidenceExample {
  import opened Sql
  import opened EvidenceVerdict
  import opened EvidenceRun
  import DR = DebugRun
  import RC = ReportChain

  const CONTRACT := DR.Contract("c", ["actor"], 0, 10)
  const BOUND := DR.Facts(map[1 := CONTRACT], {(1, "actor")}, map[])

  /** The run in each lifecycle, bound to contract 1. */
  function Example(l: DR.Lifecycle, revision: int): DR.Run {
    DR.Run(DR.Frozen("t", "p", 0, 0, 10), l, DR.NotSet, Some((1, "c")), None, None, Some(1), None, None, None, revision)
  }

  function Fresh(): DR.Run {
    DR.Run(DR.Frozen("t", "p", 0, 0, 10), DR.Created, DR.NotSet, None, None, None, None, None, None, None, 1)
  }

  function Begin(): World {
    World(DR.World(Fresh(), DR.Facts(map[], {}, map[]), [Fresh()], map[]), [], map[], map[], map[])
  }

  ghost predicate Reaches(ir: seq<Spec>, es: seq<Event>, w: World) { After(ir, Begin(), es) == w }

  lemma Then(ir: seq<Spec>, es: seq<Event>, w: World, e: Event) returns (fs: seq<Event>)
    requires Reaches(ir, es, w)
    ensures Reaches(ir, fs, Next(ir, w, e))
  {
    fs := es + [e];
    assert fs[..|fs| - 1] == es;
  }

  lemma Changed(ir: seq<Spec>, es: seq<Event>, w: World, next: DR.Run) returns (fs: seq<Event>)
    requires Reaches(ir, es, w) && DR.Accepted(w.base.facts, w.base.run, next)
    ensures Reaches(ir, fs, w.(base := w.base.(run := next, past := w.base.past + [next])))
  {
    fs := Then(ir, es, w, Change(DR.Update(next)));
  }

  /** Contract stored and its actor bound while CREATED. */
  lemma BoundRun(ir: seq<Spec>) returns (es: seq<Event>)
    ensures Reaches(ir, es, Begin().(base := Begin().base.(facts := BOUND)))
  {
    var w := Begin();
    es := Then(ir, [], w, Change(DR.StoreContract(1, CONTRACT, true)));
    var stored := w.(base := w.base.(facts := DR.Facts(map[1 := CONTRACT], {}, map[])));
    assert Next(ir, w, Change(DR.StoreContract(1, CONTRACT, true))) == stored;
    es := Then(ir, es, stored, Change(DR.BindActor(1, "actor", true)));
    assert {} + {(1, "actor")} == BOUND.bound;
  }

  lemma RunningRun(ir: seq<Spec>) returns (es: seq<Event>, w: World)
    ensures Reaches(ir, es, w) && w.base.run == Example(DR.Running, 4) && w.base.facts == BOUND
    ensures w.chain == [] && w.results == map[] && w.artifacts == map[] && w.evidence == map[] && w.base.past != []
  {
    es := BoundRun(ir);
    w := Begin().(base := Begin().base.(facts := BOUND));
    assert DR.Bound(BOUND, 1) == {"actor"};
    es := Changed(ir, es, w, Example(DR.Binding, 2));
    w := w.(base := w.base.(run := Example(DR.Binding, 2), past := w.base.past + [Example(DR.Binding, 2)]));
    es := Changed(ir, es, w, Example(DR.Ready, 3));
    w := w.(base := w.base.(run := Example(DR.Ready, 3), past := w.base.past + [Example(DR.Ready, 3)]));
    es := Changed(ir, es, w, Example(DR.Running, 4));
    w := w.(base := w.base.(run := Example(DR.Running, 4), past := w.base.past + [Example(DR.Running, 4)]));
  }

  lemma Reported(ir: seq<Spec>, es: seq<Event>, w: World, r: RC.Report) returns (fs: seq<Event>)
    requires Reaches(ir, es, w) && w.base.facts == BOUND && w.base.run == Example(DR.Running, 4)
    requires RC.Grammar(RC.Contract(0, 10), w.chain) && RC.Grammar(RC.Contract(0, 10), w.chain + [r])
    ensures Reaches(ir, fs, w.(chain := w.chain + [r]))
  {
    RC.GuardIsGrammar(RC.Contract(0, 10), w.chain, r);
    fs := Then(ir, es, w, InsertReport(1, r));
  }

  lemma WholeLog(ir: seq<Spec>, es: seq<Event>, w: World) returns (fs: seq<Event>, chain: seq<RC.Report>)
    requires Reaches(ir, es, w) && w.base.facts == BOUND && w.base.run == Example(DR.Running, 4) && w.chain == []
    ensures Reaches(ir, fs, w.(chain := chain)) && Completed(chain)
  {
    var c := RC.Contract(0, 10);
    chain := ShortLog(c);
    var first := chain[..1];
    RC.AcceptedRunsAreGrammar(c, chain);
    RC.AcceptedRunsAreGrammar(c, first);
    RC.AcceptedRunsAreGrammar(c, []);
    assert first == [] + [chain[0]] && chain == first + [chain[1]];
    fs := Reported(ir, es, w, chain[0]);
    fs := Reported(ir, fs, w.(chain := first), chain[1]);
  }

  lemma Evidenced(ir: seq<Spec>, es: seq<Event>, w: World, shot: Artifact, r: Result) returns (fs: seq<Event>)
    requires Reaches(ir, es, w) && w.base.facts == BOUND && w.artifacts == map[] && w.results == map[]
    requires Insertable(RC.Contract(0, 10), ir, map[], r)
    ensures Reaches(ir, fs, w.(artifacts := map[shot.id := shot], results := map[r.assertionId := r]))
  {
    var v := w.(artifacts := map[shot.id := shot]);
    fs := Then(ir, es, w, InsertArtifact(1, shot, true));
    assert Next(ir, w, InsertArtifact(1, shot, true)) == v;
    fs := Then(ir, fs, v, InsertResult(1, r));
    assert Next(ir, v, InsertResult(1, r)) == v.(results := map[r.assertionId := r]);
  }

  lemma Answered() returns (ir: seq<Spec>, shot: Artifact, r: Result)
    ensures Insertable(RC.Contract(0, 10), ir, map[], r) && shot.integrity == Verified && r.refs == [shot.id]
    ensures Stored(RC.Contract(0, 10), ir, map[r.assertionId := r]) && CompleteAnswers(ir, map[r.assertionId := r])
  {
    ir := [Spec(Some("a"), None, Some("hard"), None)];
    shot := Artifact(1, Verified, true, "");
    r := Result(7, "a", "n", "hard", "e", Passed, [1], 1, 2);
    assert Matches(ir[0], r);
    HardAnswer(RC.Contract(0, 10), ir, map["a" := r], r);
  }

  lemma EvidencedRun(ir: seq<Spec>, shot: Artifact, r: Result) returns (es: seq<Event>, w: World)
    requires Insertable(RC.Contract(0, 10), ir, map[], r)
    ensures Reaches(ir, es, w) && w.base.facts == BOUND && w.base.run == Example(DR.Running, 4) && w.evidence == map[]
    ensures w.artifacts == map[shot.id := shot] && w.results == map[r.assertionId := r] && Completed(w.chain)
  {
    var chain;
    es, w := RunningRun(ir);
    es, chain := WholeLog(ir, es, w);
    w := w.(chain := chain);
    es := Evidenced(ir, es, w, shot, r);
    w := w.(artifacts := map[shot.id := shot], results := map[r.assertionId := r]);
  }

  lemma EvidencePasses(ir: seq<Spec>, w: World, shot: Artifact, r: Result) returns (m: Manifest)
    requires w.artifacts == map[shot.id := shot] && w.results == map[r.assertionId := r] && Completed(w.chain)
    requires Stored(RC.Contract(0, 10), ir, w.results) && CompleteAnswers(ir, w.results)
    requires shot.integrity == Verified && r.refs == [shot.id]
    ensures AcceptedPassed(ir, w.results, w.artifacts, w.chain, m)
  {
    assert Keyed(w.artifacts) && CitedAreVerified(w.results, w.artifacts);
    m := PassedManifest(RC.Contract(0, 10), ir, w.results, w.artifacts, w.chain);
  }

  lemma Passes(ir: seq<Spec>, shot: Artifact, r: Result) returns (es: seq<Event>)
    requires Insertable(RC.Contract(0, 10), ir, map[], r) && shot.integrity == Verified && r.refs == [shot.id]
    requires Stored(RC.Contract(0, 10), ir, map[r.assertionId := r]) && CompleteAnswers(ir, map[r.assertionId := r])
    ensures After(ir, Begin(), es).base.run.outcome == DR.Passed
  {
    var w;
    es, w := EvidencedRun(ir, shot, r);
    var m := EvidencePasses(ir, w, shot, r);
    es := Concluded(ir, es, w, m);
  }

  /** The run passes. */
  lemma SomeRunPasses() returns (ir: seq<Spec>, start: World, es: seq<Event>)
    ensures Start(start) && After(ir, start, es).base.run.outcome == DR.Passed
  {
    start := Begin();
    var shot, r;
    ir, shot, r := Answered();
    es := Passes(ir, shot, r);
  }

  lemma ManifestStored(ir: seq<Spec>, es: seq<Event>, w: World, m: Manifest, h: DR.Manifest)
    returns (fs: seq<Event>, v: World)
    requires Reaches(ir, es, w) && w.base.facts == BOUND && w.base.run == Example(DR.Running, 4)
    requires w.evidence == map[] && AcceptedPassed(ir, w.results, w.artifacts, w.chain, m)
    requires h == DR.Manifest("m", (1, "c"), "t", "p", DR.Passed, DR.Complete, true)
    ensures Reaches(ir, fs, v) && v.base.run == w.base.run && v.base.facts == BOUND.(manifests := map[5 := h])
  {
    PassedParts(ir, w.results, m.artifacts);
    fs := Then(ir, es, w, InsertManifest(5, h, m, true));
    v := Next(ir, w, InsertManifest(5, h, m, true));
  }

  lemma Concluded(ir: seq<Spec>, es: seq<Event>, w: World, m: Manifest) returns (fs: seq<Event>)
    requires Reaches(ir, es, w) && w.base.facts == BOUND && w.base.run == Example(DR.Running, 4)
    requires w.evidence == map[] && AcceptedPassed(ir, w.results, w.artifacts, w.chain, m)
    ensures After(ir, Begin(), fs).base.run.outcome == DR.Passed
  {
    var v;
    fs, v := ManifestStored(ir, es, w, m, DR.Manifest("m", (1, "c"), "t", "p", DR.Passed, DR.Complete, true));
    fs := Changed(ir, fs, v, Example(DR.Finalizing, 5));
    v := v.(base := v.base.(run := Example(DR.Finalizing, 5), past := v.base.past + [Example(DR.Finalizing, 5)]));
    fs := Changed(ir, fs, v,
      Example(DR.Terminated, 6).(outcome := DR.Passed, manifest := Some((5, "m")), completedAt := Some(9)));
  }
}
