/**
 * The bounded broadcast ring as a transition system. Each action is one atomic step of a producer,
 * of a stage owner, of the holder of the reclaim gate, or of the control handle; a run is any
 * interleaving of them. `claims` remembers every sequence ever claimed, so its length is `head`.
 */
module FlowModel {
  import opened Common

  const MAX_CAPACITY: nat := 1_000_000
  const MAX_STAGES: nat := 64
  const SEQUENCE_MASK: nat := 0x7fff_ffff_ffff_ffff

  datatype Config = Config(cap: nat, maxBytes: nat, deps: seq<seq<nat>>) {
    /** What `bounded` accepts. */
    predicate Valid() {
      && 0 < cap <= MAX_CAPACITY && 0 < maxBytes && 0 < |deps| <= MAX_STAGES
      && forall i :: 0 <= i < |deps| ==> DepsOk(i)
    }

    predicate DepsOk(i: nat)
      requires i < |deps|
    {
      && |deps[i]| <= MAX_STAGES
      && (forall k :: 0 <= k < |deps[i]| ==> deps[i][k] < i)
      && (forall k, m :: 0 <= k < m < |deps[i]| ==> deps[i][k] != deps[i][m])
    }

    /** A stage gates reclamation when no other stage depends on it. */
    predicate Sink(i: nat) {
      forall j :: 0 <= j < |deps| ==> i !in deps[j]
    }
  }

  /** A value of None is a cancelled claim. */
  datatype Entry<V> = Entry(charge: nat, value: Option<V>)

  datatype Slot<V> = Slot(published: nat, entry: Option<Entry<V>>)

  datatype Phase<V> = Open | Written(value: Option<V>) | Published(value: Option<V>)

  datatype Claim<V> = Claim(charge: nat, owner: nat, phase: Phase<V>)

  /** Where a producer is inside `try_claim` and `publish`. */
  datatype Producer =
    | Idle
    | Admitting(charge: nat)
    | Reserved(charge: nat)
    | Loaded(charge: nat, head: nat, shut: bool)
    | Ready(charge: nat, head: nat, tail: nat)
    | Holding(sequence: nat)
    | Filled(sequence: nat)

  /** Where a stage owner is: checking dependencies, about to read an entry, or reclaiming. */
  datatype Probe = Resting | Deps(count: nat) | Seen | WaitGate | Reclaiming

  /** `values` is the unfinished delivery; `seen` is everything ever delivered. */
  datatype Stage<V> = Stage(finished: nat, values: seq<Option<V>>, probe: Probe, seen: seq<Option<V>>,
                            abandoned: bool) {
    function Got(): (r: nat) {
      finished + |values|
    }
  }

  datatype Gate =
    | Free
    | Scan(owner: nat, next: nat, least: Option<nat>)
    | Sweep(owner: nat, min: nat)
    | Taken(owner: nat, min: nat, charge: nat)
    | Cleared(owner: nat, min: nat, charge: nat)
    | Refunded(owner: nat, min: nat)

  datatype State<V> = State(
    slots: seq<Slot<V>>,
    claims: seq<Claim<V>>,
    closed: bool,
    fenced: bool,
    reclaimed: nat,
    charged: nat,
    producers: seq<Producer>,
    stages: seq<Stage<V>>,
    gate: Gate,
    panicked: bool)

  datatype Action<V> =
    | Begin(p: nat, charge: nat) | Refuse(p: nat) | Reserve(p: nat) | LoadHead(p: nat) | LoadTail(p: nat)
    | GiveUp(p: nat) | Cas(p: nat) | Retry(p: nat) | Fill(p: nat, value: Option<V>) | Publish(p: nat)
    | StartProbe(i: nat) | CheckDep(i: nat) | SeePublished(i: nat) | Miss(i: nat)
    | TakeValue(i: nat) | Decline(i: nat) | Finish(i: nat) | Abandon(i: nat)
    | Lock(i: nat) | LoadSink | EndScan | TakeEntry | Clear | Refund | Advance | Release
    | Close | Fence

  function Index(q: nat, cap: nat): (r: nat)
    requires cap > 0 && q > 0
    ensures r < cap
  {
    (q - 1) % cap
  }

  function Init<V>(config: Config, producers: nat): (s: State<V>) {
    State(seq(config.cap, _ => Slot(0, None)), [], false, false, 0, 0, seq(producers, _ => Idle),
          seq(|config.deps|, _ => Stage(0, [], Resting, [], false)), Free, false)
  }

  /** Indices are in range in every state. */
  predicate Shape<V>(config: Config, s: State<V>) {
    && config.Valid() && |s.slots| == config.cap && |s.stages| == |config.deps|
    && (!s.gate.Free? ==> s.gate.owner < |s.stages|)
    && (s.gate.Scan? ==> s.gate.next <= |s.stages|)
    && (forall p :: 0 <= p < |s.producers| ==> ProducerShape(s, p))
    && (forall i :: 0 <= i < |s.stages| && s.stages[i].probe.Deps? ==> s.stages[i].probe.count <= |config.deps[i]|)
  }

  predicate ProducerShape<V>(s: State<V>, p: nat)
    requires p < |s.producers|
  {
    (s.producers[p].Holding? || s.producers[p].Filled?) ==> 1 <= s.producers[p].sequence <= |s.claims|
  }

  /** `try_claim` would have to refund: closed, exhausted, or full for the loaded head and tail. */
  predicate MustGiveUp<V>(config: Config, s: State<V>, p: nat)
    requires p < |s.producers|
  {
    var it := s.producers[p];
    || (it.Loaded? && (it.shut || it.head == SEQUENCE_MASK))
    || (it.Ready? && it.tail <= it.head && it.head - it.tail >= config.cap)
  }

  predicate Enabled<V>(config: Config, s: State<V>, a: Action<V>)
    requires Shape(config, s)
  {
    match a
    case Begin(p, charge) => p < |s.producers| && s.producers[p].Idle? && charge <= config.maxBytes
    case Refuse(p) => p < |s.producers| && s.producers[p].Admitting?
    case Reserve(p) =>
      p < |s.producers| && s.producers[p].Admitting? && s.charged + s.producers[p].charge <= config.maxBytes
    case LoadHead(p) => p < |s.producers| && s.producers[p].Reserved?
    case LoadTail(p) => p < |s.producers| && s.producers[p].Loaded? && !MustGiveUp(config, s, p)
    case GiveUp(p) => p < |s.producers| && MustGiveUp(config, s, p)
    case Cas(p) => p < |s.producers| && s.producers[p].Ready? && !MustGiveUp(config, s, p)
    case Retry(p) => p < |s.producers| && s.producers[p].Ready?
    case Fill(p, _) => p < |s.producers| && s.producers[p].Holding?
    case Publish(p) => p < |s.producers| && s.producers[p].Filled?
    case StartProbe(i) => i < |s.stages| && s.stages[i].probe.Resting? && !s.fenced && |s.stages[i].values| < config.cap
    case CheckDep(i) =>
      && i < |s.stages| && s.stages[i].probe.Deps? && s.stages[i].probe.count < |config.deps[i]|
      && config.deps[i][s.stages[i].probe.count] < i
      && s.stages[config.deps[i][s.stages[i].probe.count]].finished >= s.stages[i].Got() + 1
    case SeePublished(i) =>
      && i < |s.stages| && s.stages[i].probe.Deps? && s.stages[i].probe.count == |config.deps[i]|
      && s.slots[Index(s.stages[i].Got() + 1, config.cap)].published == s.stages[i].Got() + 1
    case Miss(i) => i < |s.stages| && s.stages[i].probe.Deps?
    case TakeValue(i) => i < |s.stages| && s.stages[i].probe.Seen?
    case Decline(i) => i < |s.stages| && s.stages[i].probe.Seen? && s.stages[i].values != []
    case Finish(i) => i < |s.stages| && s.stages[i].probe.Resting? && s.stages[i].values != []
    case Abandon(i) => i < |s.stages| && s.stages[i].probe.Resting?
    case Lock(i) => i < |s.stages| && s.stages[i].probe.WaitGate? && s.gate.Free?
    case LoadSink => s.gate.Scan? && s.gate.next < |s.stages|
    case EndScan => s.gate.Scan? && s.gate.next == |s.stages|
    case TakeEntry => s.gate.Sweep? && s.reclaimed < s.gate.min
    case Clear => s.gate.Taken?
    case Refund => s.gate.Cleared?
    case Advance => s.gate.Refunded?
    case Release => s.gate.Sweep? && s.reclaimed >= s.gate.min
    case Close => true
    case Fence => true
  }

  function Do<V>(config: Config, s: State<V>, a: Action<V>): (r: State<V>)
    requires Shape(config, s) && Enabled(config, s, a)
  {
    match a
    case Begin(p, charge) => s.(producers := s.producers[p := Admitting(charge)])
    case Refuse(p) => s.(producers := s.producers[p := Idle])
    case Reserve(p) => var charge := s.producers[p].charge;
      s.(charged := s.charged + charge, producers := s.producers[p := Reserved(charge)])
    case LoadHead(p) => s.(producers := s.producers[p := Loaded(s.producers[p].charge, |s.claims|, s.closed)])
    case LoadTail(p) => s.(producers := s.producers[p := Ready(s.producers[p].charge, s.producers[p].head,
                                                               s.reclaimed)])
    case GiveUp(p) => DoGiveUp(s, p)
    case Cas(p) => DoCas(s, p)
    case Retry(p) => s.(producers := s.producers[p := Reserved(s.producers[p].charge)])
    case Fill(p, value) => DoFill(config, s, p, value)
    case Publish(p) => DoPublish(config, s, p)
    case StartProbe(i) => s.(stages := s.stages[i := s.stages[i].(probe := Deps(0))])
    case CheckDep(i) => s.(stages := s.stages[i := s.stages[i].(probe := Deps(s.stages[i].probe.count + 1))])
    case SeePublished(i) => s.(stages := s.stages[i := s.stages[i].(probe := Seen)])
    case Miss(i) => s.(stages := s.stages[i := s.stages[i].(probe := Resting)])
    case TakeValue(i) => DoTakeValue(config, s, i)
    case Decline(i) =>
      s.(stages := s.stages[i := s.stages[i].(probe := Resting)],
         panicked := s.panicked || s.slots[Index(s.stages[i].Got() + 1, config.cap)].entry.None?)
    case Finish(i) => DoFinish(config, s, i)
    case Abandon(i) =>
      s.(stages := s.stages[i := s.stages[i].(values := [], abandoned := true)], fenced := true)
    case Lock(i) => s.(stages := s.stages[i := s.stages[i].(probe := Reclaiming)], gate := Scan(i, 0, None))
    case LoadSink => DoLoadSink(config, s)
    case EndScan => DoEndScan(s)
    case TakeEntry => DoTakeEntry(config, s)
    case Clear =>
      var x := Index(s.reclaimed + 1, config.cap);
      s.(slots := s.slots[x := s.slots[x].(published := 0)], gate := Cleared(s.gate.owner, s.gate.min, s.gate.charge))
    case Refund =>
      if s.gate.charge > s.charged then s.(panicked := true)
      else s.(charged := s.charged - s.gate.charge, gate := Refunded(s.gate.owner, s.gate.min))
    case Advance => s.(reclaimed := s.reclaimed + 1, gate := Sweep(s.gate.owner, s.gate.min))
    case Release => LetGo(s)
    case Close => s.(closed := true)
    case Fence => s.(fenced := true)
  }

  /** The reservation is refunded; an exhausted sequence space also fences. Fencing closes in a later step. */
  function DoGiveUp<V>(s: State<V>, p: nat): (r: State<V>)
    requires p < |s.producers| && (s.producers[p].Loaded? || s.producers[p].Ready?)
  {
    var charge := s.producers[p].charge;
    var exhausted := s.producers[p].Loaded? && !s.producers[p].shut;
    if charge > s.charged then s.(panicked := true)
    else s.(charged := s.charged - charge, producers := s.producers[p := Idle],
            fenced := s.fenced || exhausted)
  }

  /** Compare-and-swap of `head`: a lost race loads the head again, as does a spurious failure (Retry). */
  function DoCas<V>(s: State<V>, p: nat): (r: State<V>)
    requires p < |s.producers| && s.producers[p].Ready?
  {
    var it := s.producers[p];
    if |s.claims| == it.head && !s.closed then
      s.(claims := s.claims + [Claim(it.charge, p, Open)], producers := s.producers[p := Holding(it.head + 1)])
    else
      s.(producers := s.producers[p := Reserved(it.charge)])
  }

  function DoFill<V>(config: Config, s: State<V>, p: nat, value: Option<V>): (r: State<V>)
    requires Shape(config, s) && p < |s.producers| && s.producers[p].Holding?
  {
    assert ProducerShape(s, p);
    var q := s.producers[p].sequence;
    var x := Index(q, config.cap);
    var claim := s.claims[q - 1];
    s.(slots := s.slots[x := s.slots[x].(entry := Some(Entry(claim.charge, value)))],
       claims := s.claims[q - 1 := claim.(phase := Written(value))],
       producers := s.producers[p := Filled(q)])
  }

  function DoPublish<V>(config: Config, s: State<V>, p: nat): (r: State<V>)
    requires Shape(config, s) && p < |s.producers| && s.producers[p].Filled?
  {
    assert ProducerShape(s, p);
    var q := s.producers[p].sequence;
    var x := Index(q, config.cap);
    var claim := s.claims[q - 1];
    s.(slots := s.slots[x := s.slots[x].(published := q)],
       claims := s.claims[q - 1 := claim.(phase := if claim.phase.Written? then Published(claim.phase.value)
           else claim.phase)],
       producers := s.producers[p := Idle])
  }

  /** Clone the entry of the next sequence into the delivery. */
  function DoTakeValue<V>(config: Config, s: State<V>, i: nat): (r: State<V>)
    requires Shape(config, s) && i < |s.stages|
  {
    var it := s.stages[i];
    var slot := s.slots[Index(it.Got() + 1, config.cap)];
    if slot.entry.None? then s.(panicked := true)
    else
      var value := slot.entry.value.value;
      s.(stages := s.stages[i := it.(values := it.values + [value], seen := it.seen + [value], probe := Resting)])
  }

  /** One completion barrier for the whole delivery; only sinks go on to reclaim. */
  function DoFinish<V>(config: Config, s: State<V>, i: nat): (r: State<V>)
    requires i < |s.stages|
  {
    var it := s.stages[i];
    s.(stages := s.stages[i := it.(finished := it.Got(), values := [],
                                   probe := if config.Sink(i) then WaitGate else Resting)])
  }

  function DoLoadSink<V>(config: Config, s: State<V>): (r: State<V>)
    requires s.gate.Scan? && s.gate.next < |s.stages|
  {
    var k := s.gate.next;
    var loaded := s.stages[k].finished;
    var least :=
      if !config.Sink(k) then s.gate.least
      else if s.gate.least.None? || loaded < s.gate.least.value then Some(loaded)
      else s.gate.least;
    s.(gate := Scan(s.gate.owner, k + 1, least))
  }

  function LetGo<V>(s: State<V>): (r: State<V>)
    requires !s.gate.Free? && s.gate.owner < |s.stages|
  {
    var i := s.gate.owner;
    s.(gate := Free, stages := s.stages[i := s.stages[i].(probe := Resting)])
  }

  function DoEndScan<V>(s: State<V>): (r: State<V>)
    requires s.gate.Scan? && s.gate.owner < |s.stages|
  {
    if s.gate.least.None? then s.(panicked := true)
    else if s.gate.least.value <= s.reclaimed then LetGo(s)
    else s.(gate := Sweep(s.gate.owner, s.gate.least.value))
  }

  function DoTakeEntry<V>(config: Config, s: State<V>): (r: State<V>)
    requires Shape(config, s) && s.gate.Sweep?
  {
    var x := Index(s.reclaimed + 1, config.cap);
    if s.slots[x].entry.None? then s.(panicked := true)
    else s.(slots := s.slots[x := s.slots[x].(entry := None)],
            gate := Taken(s.gate.owner, s.gate.min, s.slots[x].entry.value.charge))
  }

  /** One step of some thread. */
  ghost predicate Step<V(!new)>(config: Config, s: State<V>, t: State<V>) {
    Shape(config, s) && exists a: Action<V> :: Enabled(config, s, a) && t == Do(config, s, a)
  }

  /** A run: consecutive states are steps, starting from `bounded`'s initial state. */
  ghost predicate Run<V(!new)>(config: Config, producers: nat, states: seq<State<V>>) {
    && config.Valid() && |states| > 0 && states[0] == Init(config, producers)
    && forall k :: 0 < k < |states| ==> Step(config, states[k - 1], states[k])
  }
}
