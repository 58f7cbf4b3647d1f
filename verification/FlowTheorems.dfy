/** What a ring promises over every run. */
module FlowTheorems {
  import opened Common
  import opened FlowModel
  import opened FlowInvariant
  import opened FlowSteps

  lemma InitInv<V>(config: Config, producers: nat)
    requires config.Valid()
    ensures Inv<V>(config, Init(config, producers))
  {
    hide Index;
    var s: State<V> := Init(config, producers);
    LastIsSink(config);
    assert s.stages[|s.stages| - 1].finished == 0;
    NoReservations(s.producers);
    forall i | 0 <= i < |s.stages| ensures StageOk(config, s, i) {
      assert config.DepsOk(i);
    }
  }

  lemma {:induction false} NoReservations(producers: seq<Producer>)
    requires forall p :: 0 <= p < |producers| ==> producers[p].Idle?
    ensures Reservations(producers) == 0
  {
    if producers != [] {
      NoReservations(producers[1..]);
    }
  }

  /** Every state of every run satisfies the invariant. */
  lemma {:induction false} RunKeeps<V(!new)>(config: Config, producers: nat, states: seq<State<V>>, k: nat)
    requires Run(config, producers, states) && k < |states|
    ensures Inv(config, states[k])
  {
    hide Inv, Do, Enabled, Init;
    if k == 0 {
      InitInv<V>(config, producers);
    } else {
      RunKeeps(config, producers, states, k - 1);
      assert Step(config, states[k - 1], states[k]);
      var a :| Enabled(config, states[k - 1], a) && states[k] == Do(config, states[k - 1], a);
      StepKeeps(config, states[k - 1], a);
    }
  }

  /** No `expect` fails and no credit subtraction underflows, in any run. */
  lemma NeverPanics<V(!new)>(config: Config, producers: nat, states: seq<State<V>>, k: nat)
    requires Run(config, producers, states) && k < |states|
    ensures !states[k].panicked
  {
    hide Do, Enabled, Init;
    RunKeeps(config, producers, states, k);
  }

  /** Gating reclamation on the sinks is gating it on every stage. */
  lemma SinksGateAll<V(!new)>(config: Config, producers: nat, states: seq<State<V>>, k: nat, m: nat)
    requires Run(config, producers, states) && k < |states|
    ensures Below(config, states[k], |states[k].stages|, m)
       <==> forall i :: 0 <= i < |states[k].stages| ==> m <= states[k].stages[i].finished
  {
    hide Do, Enabled, Init;
    var s := states[k];
    RunKeeps(config, producers, states, k);
    if Below(config, s, |s.stages|, m) {
      forall i | 0 <= i < |s.stages| ensures m <= s.stages[i].finished { SinksBoundAll(config, s, m, i); }
    }
  }

  /** A slot is emptied only after every stage finished its sequence. */
  lemma ClearedAfterAll<V(!new)>(config: Config, producers: nat, states: seq<State<V>>, k: nat, i: nat)
    requires Run(config, producers, states) && k < |states| && i < |states[k].stages|
    requires var s := states[k];
             (s.gate.Sweep? && s.reclaimed < s.gate.min) || s.gate.Taken? || s.gate.Cleared? || s.gate.Refunded?
    ensures states[k].reclaimed + 1 <= states[k].stages[i].finished
  {
    hide Do, Enabled, Init;
    RunKeeps(config, producers, states, k);
    SinksBoundAll(config, states[k], states[k].gate.min, i);
  }

  /** A slot is written for sequence `q` only after every stage finished its previous tenant. */
  lemma ReusedAfterAll<V(!new)>(config: Config, producers: nat, states: seq<State<V>>, k: nat, p: nat, i: nat)
    requires Run(config, producers, states) && k < |states|
    requires p < |states[k].producers| && states[k].producers[p].Holding? && i < |states[k].stages|
    ensures states[k].producers[p].sequence <= states[k].stages[i].finished + config.cap
  {
    hide Do, Enabled, Init;
    var s := states[k];
    RunKeeps(config, producers, states, k);
    WriterOwns(config, s, p);
    assert StageOk(config, s, i);
  }

  /** The values published so far for the sequences 1, 2, 3, …, n. */
  function Stream<V>(claims: seq<Claim<V>>, n: nat): (r: seq<Option<V>>)
    requires n <= |claims| && forall q :: 0 <= q < n ==> claims[q].phase.Published?
    ensures |r| == n
  {
    seq(n, q requires 0 <= q < n => claims[q].phase.value)
  }

  /** Each stage is handed sequences 1, 2, 3, … with exactly their published values or cancellations. */
  lemma DeliversTheStream<V(!new)>(config: Config, producers: nat, states: seq<State<V>>, k: nat, i: nat)
    requires Run(config, producers, states) && k < |states| && i < |states[k].stages|
    ensures var s, it := states[k], states[k].stages[i];
            && |it.seen| <= |s.claims| && (forall q :: 0 <= q < |it.seen| ==> s.claims[q].phase.Published?)
            && it.seen == Stream(s.claims, |it.seen|)
            && (!it.abandoned ==> |it.seen| == it.finished + |it.values|)
  {
    hide Do, Enabled, Init;
    RunKeeps(config, producers, states, k);
    assert StageOk(config, states[k], i);
  }

  /** Once published, a sequence keeps its value for the rest of the run. */
  lemma {:induction false} PublishedForever<V(!new)>(config: Config, producers: nat, states: seq<State<V>>, k: nat,
                                                     m: nat, q: nat)
    requires Run(config, producers, states) && k <= m < |states|
    requires q < |states[k].claims| && states[k].claims[q].phase.Published?
    ensures q < |states[m].claims| && states[m].claims[q].phase == states[k].claims[q].phase
    decreases m
  {
    hide Do, Enabled, Init, Inv;
    if k < m {
      PublishedForever(config, producers, states, k, m - 1, q);
      RunKeeps(config, producers, states, m - 1);
      assert Step(config, states[m - 1], states[m]);
      var a :| Enabled(config, states[m - 1], a) && states[m] == Do(config, states[m - 1], a);
      PublishedStays(config, states[m - 1], a, q);
    }
  }

  lemma PublishedStays<V>(config: Config, s: State<V>, a: Action<V>, q: nat)
    requires Inv(config, s) && Enabled(config, s, a) && q < |s.claims| && s.claims[q].phase.Published?
    ensures var t := Do(config, s, a); q < |t.claims| && t.claims[q].phase == s.claims[q].phase
  {
    hide CreditOk, SlotsOk, GateOk, Frontiers;
    if a.Fill? || a.Publish? {
      WriterOwns(config, s, a.p);
    }
  }

  /** Charged credit is the charge of every unreclaimed claim plus the reservations in flight, within the bound. */
  lemma CreditConserved<V(!new)>(config: Config, producers: nat, states: seq<State<V>>, k: nat)
    requires Run(config, producers, states) && k < |states|
    ensures var s := states[k];
            && s.reclaimed <= |s.claims| <= s.reclaimed + config.cap
            && s.charged + GivenBack(s) == Charges(s.claims[s.reclaimed..]) + Reservations(s.producers)
            && s.charged <= config.maxBytes
  {
    hide Do, Enabled, Init;
    RunKeeps(config, producers, states, k);
  }

  /**
   * No reclamation is lost: with the gate free and no sink waiting, every sequence all stages finished is
   * reclaimed.
   */
  lemma NothingLeftBehind<V(!new)>(config: Config, producers: nat, states: seq<State<V>>, k: nat)
    requires Run(config, producers, states) && k < |states|
    requires states[k].gate.Free? && !Pending(config, states[k])
    ensures exists i :: 0 <= i < |states[k].stages| && states[k].stages[i].finished == states[k].reclaimed
    ensures forall i :: 0 <= i < |states[k].stages| ==> states[k].reclaimed <= states[k].stages[i].finished
  {
    hide Do, Enabled, Init;
    var s := states[k];
    RunKeeps(config, producers, states, k);
    forall i | 0 <= i < |s.stages| ensures s.reclaimed <= s.stages[i].finished { assert StageOk(config, s, i); }
  }

  /** A drained ring: every stage finished every claim and rests, and no producer is between claim and publish. */
  predicate Drained<V>(s: State<V>) {
    && s.gate.Free?
    && (forall i :: 0 <= i < |s.stages| ==> s.stages[i].probe.Resting? && s.stages[i].finished == |s.claims|)
    && (forall p :: 0 <= p < |s.producers| ==> s.producers[p].Idle?)
  }

  /** Draining gives everything back: all credit, every slot, every claim. */
  lemma DrainedIsEmpty<V(!new)>(config: Config, producers: nat, states: seq<State<V>>, k: nat)
    requires Run(config, producers, states) && k < |states| && Drained(states[k])
    ensures var s := states[k];
            && s.charged == 0 && s.reclaimed == |s.claims|
            && (forall x :: 0 <= x < config.cap ==> x < |s.slots| && s.slots[x] == Slot(0, None))
  {
    hide Do, Enabled, Init;
    var s := states[k];
    RunKeeps(config, producers, states, k);
    NothingLeftBehind(config, producers, states, k);
    NoReservations(s.producers);
    assert s.claims[s.reclaimed..] == [];
    forall x | 0 <= x < config.cap ensures s.slots[x] == Slot(0, None) {
      var q := Covers(s.reclaimed, x, config.cap);
      assert s.slots[Index(q, config.cap)] == SlotFor(s, q);
    }
  }

  /** Every slot belongs to one sequence of the window. */
  lemma {:induction false} Covers(base: nat, x: nat, cap: nat) returns (q: nat)
    requires x < cap
    ensures base < q <= base + cap && Index(q, cap) == x
  {
    if base == 0 {
      q := x + 1;
      Unique(x, cap, 0, x);
    } else {
      q := Covers(base - 1, x, cap);
      if q == base {
        Wraps(base, cap);
        q := base + cap;
      }
    }
  }

  /** `bounded`: reject bad shapes, and mark the stages nobody depends on. */
  method Bounded(capacity: nat, maxBytes: nat, dependencies: seq<seq<nat>>) returns (r: Option<seq<bool>>)
    ensures r.Some? <==> Config(capacity, maxBytes, dependencies).Valid()
    ensures r.Some? ==>
      && |r.value| == |dependencies|
      && forall i :: 0 <= i < |dependencies| ==> (r.value[i] <==> Config(capacity, maxBytes, dependencies).Sink(i))
  {
    var config := Config(capacity, maxBytes, dependencies);
    if capacity == 0 || capacity > MAX_CAPACITY || maxBytes == 0 || |dependencies| == 0 || |dependencies| > MAX_STAGES {
      return None;
    }
    for index := 0 to |dependencies|
      invariant forall i :: 0 <= i < index ==> config.DepsOk(i)
    {
      var parents := dependencies[index];
      if |parents| > MAX_STAGES {
        assert !config.DepsOk(index);
        return None;
      }
      for offset := 0 to |parents|
        invariant forall k :: 0 <= k < offset ==> parents[k] < index
        invariant forall k, m :: 0 <= k < m < offset ==> parents[k] != parents[m]
      {
        if parents[offset] >= index || parents[offset] in parents[..offset] {
          assert !config.DepsOk(index);
          return None;
        }
      }
    }
    var gates: seq<bool> := [];
    for index := 0 to |dependencies|
      invariant |gates| == index && forall i :: 0 <= i < index ==> (gates[i] <==> config.Sink(i))
    {
      var sink := true;
      for child := 0 to |dependencies|
        invariant sink <==> forall j :: 0 <= j < child ==> index !in dependencies[j]
      {
        sink := sink && index !in dependencies[child];
      }
      gates := gates + [sink];
    }
    r := Some(gates);
  }
}
