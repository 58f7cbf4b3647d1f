/** What every interleaving of ring steps keeps. */
module FlowInvariant {
  import opened Common
  import opened FlowModel

  /** Order of the frontiers, and the ring's window. */
  ghost predicate Frontiers<V>(config: Config, s: State<V>)
    requires Shape(config, s)
  {
    && s.reclaimed <= |s.claims| <= s.reclaimed + config.cap
    && |s.claims| <= SEQUENCE_MASK
    && forall i :: 0 <= i < |s.stages| ==> StageOk(config, s, i)
  }

  /** A stage trails its dependencies, has only taken published sequences, and is not overtaken by reclamation. */
  ghost predicate StageOk<V>(config: Config, s: State<V>, i: nat)
    requires Shape(config, s) && i < |s.stages|
  {
    var it := s.stages[i];
    && s.reclaimed <= it.finished && it.Got() <= |s.claims|
    && (forall q :: 0 <= q < it.Got() ==> s.claims[q].phase.Published?)
    && (forall k :: 0 <= k < |config.deps[i]| ==> Parent(config, s, i, k) >= it.Got())
    && (it.probe.Deps? ==> forall k :: 0 <= k < it.probe.count ==> Parent(config, s, i, k) > it.Got())
    && (it.probe.Seen? ==>
          && it.Got() < |s.claims| && s.claims[it.Got()].phase.Published?
          && forall k :: 0 <= k < |config.deps[i]| ==> Parent(config, s, i, k) > it.Got())
    && (it.probe.WaitGate? || it.probe.Reclaiming? ==> it.values == [] && config.Sink(i))
    && (it.probe.Reclaiming? <==> !s.gate.Free? && s.gate.owner == i)
    && SeenOk(s, it)
  }

  /** Deliveries are exactly the published values of sequences 1, 2, 3, … in order. */
  ghost predicate SeenOk<V>(s: State<V>, it: Stage<V>) {
    && |it.seen| <= |s.claims|
    && (!it.abandoned ==> |it.seen| == it.Got())
    && (it.abandoned ==> s.fenced && it.values == [] && !it.probe.Deps? && !it.probe.Seen?)
    && forall q :: 0 <= q < |it.seen| ==> s.claims[q].phase == Published(it.seen[q])
  }

  /** The completed sequence of the k-th dependency of stage i. */
  function Parent<V>(config: Config, s: State<V>, i: nat, k: nat): (r: nat)
    requires Shape(config, s) && i < |s.stages| && k < |config.deps[i]|
  {
    assert config.DepsOk(i);
    s.stages[config.deps[i][k]].finished
  }

  /** A claim not yet published belongs to the producer that is writing it. */
  ghost predicate ClaimsOk<V>(config: Config, s: State<V>)
    requires Shape(config, s)
  {
    && (forall q :: 0 <= q < |s.claims| ==> ClaimOk(s, q))
    && (forall p :: 0 <= p < |s.producers| ==> ProducerOk(s, p))
  }

  ghost predicate ClaimOk<V>(s: State<V>, q: nat)
    requires q < |s.claims|
  {
    var c := s.claims[q];
    && (c.phase.Open? ==> c.owner < |s.producers| && s.producers[c.owner] == Holding(q + 1))
    && (c.phase.Written? ==> c.owner < |s.producers| && s.producers[c.owner] == Filled(q + 1))
    && (q < s.reclaimed ==> c.phase.Published?)
  }

  ghost predicate ProducerOk<V>(s: State<V>, p: nat)
    requires p < |s.producers|
  {
    match s.producers[p]
    case Loaded(_, head, _) => head <= |s.claims|
    case Ready(_, head, tail) => head <= |s.claims| && tail <= s.reclaimed && head != SEQUENCE_MASK
    case Holding(q) => 1 <= q <= |s.claims| && s.claims[q - 1].phase.Open? && s.claims[q - 1].owner == p
    case Filled(q) => 1 <= q <= |s.claims| && s.claims[q - 1].phase.Written? && s.claims[q - 1].owner == p
    case _ => true
  }

  /** What the slot of sequence `q` holds while `q` is in the window. */
  function SlotFor<V>(s: State<V>, q: nat): (r: Slot<V>)
    requires q > 0
  {
    if q > |s.claims| then Slot(0, None)
    else
      var c := s.claims[q - 1];
      var full :=
        match c.phase
        case Open => Slot(0, None)
        case Written(value) => Slot(0, Some(Entry(c.charge, value)))
        case Published(value) => Slot(q, Some(Entry(c.charge, value)));
      if q != s.reclaimed + 1 then full
      else if s.gate.Taken? then full.(entry := None)
      else if s.gate.Cleared? || s.gate.Refunded? then Slot(0, None)
      else full
  }

  ghost predicate SlotsOk<V>(config: Config, s: State<V>)
    requires Shape(config, s)
  {
    forall q :: s.reclaimed < q <= s.reclaimed + config.cap ==> s.slots[Index(q, config.cap)] == SlotFor(s, q)
  }

  /** Some sink still has to look at the frontiers under the gate. */
  ghost predicate Pending<V>(config: Config, s: State<V>) {
    exists j :: 0 <= j < |s.stages| && config.Sink(j) && s.stages[j].probe.WaitGate?
  }

  ghost predicate Below<V>(config: Config, s: State<V>, bound: nat, m: nat)
    requires bound <= |s.stages|
  {
    forall j :: 0 <= j < bound && config.Sink(j) ==> m <= s.stages[j].finished
  }

  ghost predicate Attained<V>(config: Config, s: State<V>, bound: nat, m: nat)
    requires bound <= |s.stages|
  {
    exists j :: 0 <= j < bound && config.Sink(j) && s.stages[j].finished == m
  }

  /** The gate holder's minimum is at most every sink's frontier, and exact unless another sink is waiting. */
  ghost predicate GateOk<V>(config: Config, s: State<V>)
    requires Shape(config, s)
  {
    var n := |s.stages|;
    match s.gate
    case Free => Pending(config, s) || Attained(config, s, n, s.reclaimed)
    case Scan(_, k, least) =>
      && k <= n
      && (least.None? ==> forall j :: 0 <= j < k ==> !config.Sink(j))
      && (least.Some? ==> Below(config, s, k, least.value))
      && (least.Some? ==> Pending(config, s) || Attained(config, s, k, least.value))
    case Sweep(_, min) => SweepOk(config, s, min)
    case Taken(_, min, charge) => SweepOk(config, s, min) && Retiring(s, min) && charge == s.claims[s.reclaimed].charge
    case Cleared(_, min, charge) => SweepOk(config, s, min) && Retiring(s, min)
        && charge == s.claims[s.reclaimed].charge
    case Refunded(_, min) => SweepOk(config, s, min) && Retiring(s, min)
  }

  ghost predicate SweepOk<V>(config: Config, s: State<V>, min: nat) {
    && s.reclaimed <= min && Below(config, s, |s.stages|, min)
    && (Pending(config, s) || Attained(config, s, |s.stages|, min))
  }

  ghost predicate Retiring<V>(s: State<V>, min: nat) {
    s.reclaimed < min && s.reclaimed < |s.claims|
  }

  function Charges<V>(claims: seq<Claim<V>>): (r: nat) {
    if claims == [] then 0 else claims[0].charge + Charges(claims[1..])
  }

  function Held(it: Producer): (r: nat) {
    match it
    case Reserved(charge) => charge
    case Loaded(charge, _, _) => charge
    case Ready(charge, _, _) => charge
    case _ => 0
  }

  function Reservations(producers: seq<Producer>): (r: nat) {
    if producers == [] then 0 else Held(producers[0]) + Reservations(producers[1..])
  }

  /** The charge already given back for the slot being retired. */
  function GivenBack<V>(s: State<V>): (r: nat) {
    if s.gate.Refunded? && s.reclaimed < |s.claims| then s.claims[s.reclaimed].charge else 0
  }

  /** Credit is conserved: claimed but unreclaimed charges plus reservations in flight. */
  ghost predicate CreditOk<V>(config: Config, s: State<V>) {
    && s.reclaimed <= |s.claims|
    && s.charged + GivenBack(s) == Charges(s.claims[s.reclaimed..]) + Reservations(s.producers)
    && s.charged <= config.maxBytes
  }

  ghost predicate Inv<V>(config: Config, s: State<V>) {
    && Shape(config, s) && !s.panicked
    && Frontiers(config, s) && ClaimsOk(config, s) && SlotsOk(config, s) && GateOk(config, s) && CreditOk(config, s)
  }
}
