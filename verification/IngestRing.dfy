/** The ingestion pipeline's place on the ring: four stages in a row. */
module IngestRing {
  import opened Common
  import Flow = FlowModel
  import FlowInvariant
  import FlowTheorems
  import Ingest

  /** Validate, prepare, commit, complete: each stage depends on the one before it. */
  function Pipeline(capacity: nat, maxBytes: nat): (r: Flow.Config) {
    Flow.Config(capacity, maxBytes, [[], [0], [1], [2]])
  }

  /** An ingestion state whose frontiers are those of the ring's stages. */
  ghost predicate Projects<V>(s: Flow.State<V>, t: Ingest.State) {
    && |s.stages| == 4 && |t.events| == |s.claims|
    && t.v == s.stages[0].finished && t.p == s.stages[1].finished && t.c == s.stages[2].finished
    && t.d == s.stages[3].finished
  }

  /**
   * In every run of the ring under the pipeline's dependencies, a stage holds only sequences its
   * predecessor has finished, it has been handed exactly the published stream up to there, and no more
   * than the capacity is claimed and incomplete.
   */
  lemma InOrder<V(!new)>(capacity: nat, maxBytes: nat, producers: nat, states: seq<Flow.State<V>>, k: nat, i: nat)
    requires Flow.Run(Pipeline(capacity, maxBytes), producers, states) && k < |states| && i < 4
    ensures var s := states[k];
      && |s.stages| == 4 && s.stages[i].Got() <= |s.claims|
      && s.stages[i].Got() <= (if i == 0 then |s.claims| else s.stages[i - 1].finished)
      && |s.claims| <= s.stages[i].finished + capacity
      && (forall q :: 0 <= q < s.stages[i].Got() ==> s.claims[q].phase.Published?)
      && (!s.stages[i].abandoned ==> s.stages[i].seen == FlowTheorems.Stream(s.claims, s.stages[i].Got()))
  {
    hide Flow.Do, Flow.Enabled, Flow.Init;
    var config, s := Pipeline(capacity, maxBytes), states[k];
    FlowTheorems.RunKeeps(config, producers, states, k);
    FlowTheorems.DeliversTheStream(config, producers, states, k, i);
    assert FlowInvariant.StageOk(config, s, i);
    if i > 0 {
      assert config.deps[i][0] == i - 1;
      assert FlowInvariant.Parent(config, s, i, 0) == s.stages[i - 1].finished;
    }
  }

  /** So the frontiers the pipeline model starts from are always in order and within the capacity. */
  lemma FrontiersInOrder<V(!new)>(capacity: nat, maxBytes: nat, producers: nat, states: seq<Flow.State<V>>, k: nat,
                                  t: Ingest.State)
    requires Flow.Run(Pipeline(capacity, maxBytes), producers, states) && k < |states| && Projects(states[k], t)
    ensures t.d <= t.c <= t.p <= t.v <= |t.events| <= t.d + capacity
  {
    hide Flow.Run;
    InOrder(capacity, maxBytes, producers, states, k, 0);
    InOrder(capacity, maxBytes, producers, states, k, 1);
    InOrder(capacity, maxBytes, producers, states, k, 2);
    InOrder(capacity, maxBytes, producers, states, k, 3);
  }
}
