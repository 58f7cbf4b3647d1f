/** Every atomic step of the ring keeps the invariant. */
module FlowSteps {
  import opened Common
  import opened FlowModel
  import opened FlowInvariant

  // ------------------------------------------------------------ frames

  /** The frontiers, the slots and the gate do not look at producers, credit or the closed flag. */
  lemma Frame<V>(config: Config, s: State<V>, t: State<V>)
    requires Shape(config, s) && Frontiers(config, s) && SlotsOk(config, s) && GateOk(config, s)
    requires t == s.(producers := t.producers, charged := t.charged, closed := t.closed, fenced := t.fenced)
    requires Shape(config, t) && (s.fenced ==> t.fenced)
    ensures Frontiers(config, t) && SlotsOk(config, t) && GateOk(config, t)
  {
    forall i | 0 <= i < |t.stages| ensures StageOk(config, t, i) {
      assert StageOk(config, s, i);
      assert forall k :: 0 <= k < |config.deps[i]| ==> Parent(config, t, i, k) == Parent(config, s, i, k);
    }
    forall q | t.reclaimed < q <= t.reclaimed + config.cap ensures t.slots[Index(q, config.cap)] == SlotFor(t, q) {
      assert s.slots[Index(q, config.cap)] == SlotFor(s, q);
    }
    assert Pending(config, s) <==> Pending(config, t);
    assert forall b, m :: 0 <= b <= |s.stages| ==> (Below(config, s, b, m) <==> Below(config, t, b, m));
    assert forall b, m :: 0 <= b <= |s.stages| ==> (Attained(config, s, b, m) <==> Attained(config, t, b, m));
  }

  // ------------------------------------------------------------ sums

  lemma {:induction false} ReservationsUpdate(producers: seq<Producer>, p: nat, it: Producer)
    requires p < |producers|
    ensures Reservations(producers[p := it]) + Held(producers[p]) == Reservations(producers) + Held(it)
  {
    if p == 0 {
      assert producers[0 := it][1..] == producers[1..];
    } else {
      ReservationsUpdate(producers[1..], p - 1, it);
      assert producers[p := it][1..] == producers[1..][p - 1 := it];
    }
  }

  lemma {:induction false} ChargesSnoc<V>(claims: seq<Claim<V>>, c: Claim<V>)
    ensures Charges(claims + [c]) == Charges(claims) + c.charge
  {
    if claims == [] {
      assert ([] + [c])[1..] == [];
    } else {
      assert (claims + [c])[1..] == claims[1..] + [c];
      ChargesSnoc(claims[1..], c);
    }
  }

  lemma {:induction false} ChargesSame<V>(a: seq<Claim<V>>, b: seq<Claim<V>>)
    requires |a| == |b| && forall q :: 0 <= q < |a| ==> a[q].charge == b[q].charge
    ensures Charges(a) == Charges(b)
  {
    if a != [] {
      ChargesSame(a[1..], b[1..]);
    }
  }

  // ------------------------------------------------------------ producers

  /** A producer step that claims nothing and publishes nothing. */
  lemma ProducerMove<V>(config: Config, s: State<V>, t: State<V>, p: nat, it: Producer)
    requires Inv(config, s) && p < |s.producers| && !s.producers[p].Holding? && !s.producers[p].Filled?
    requires t == s.(producers := s.producers[p := it], charged := t.charged, fenced := t.fenced)
    requires (s.fenced ==> t.fenced)
    requires !it.Holding? && !it.Filled? && ProducerOk(s.(producers := s.producers[p := it]), p)
    requires t.charged + Held(s.producers[p]) == s.charged + Held(it) && t.charged <= config.maxBytes
    ensures Inv(config, t)
  {
    hide Frontiers, SlotsOk, GateOk;
    assert forall r :: 0 <= r < |t.producers| && r != p ==> ProducerShape(s, r) && ProducerOk(s, r);
    assert Shape(config, t) by {
      forall r | 0 <= r < |t.producers| ensures ProducerShape(t, r) {
        assert r != p ==> ProducerShape(s, r);
      }
    }
    Frame(config, s, t);
    forall r | 0 <= r < |t.producers| ensures ProducerOk(t, r) {
      assert r != p ==> ProducerOk(s, r);
    }
    forall q | 0 <= q < |t.claims| ensures ClaimOk(t, q) {
      assert ClaimOk(s, q);
    }
    ReservationsUpdate(s.producers, p, it);
  }

  lemma HeldIsCharged<V>(config: Config, s: State<V>, p: nat)
    requires Inv(config, s) && p < |s.producers|
    ensures Held(s.producers[p]) <= s.charged
  {
    hide Frontiers, SlotsOk, ClaimsOk;
    ReservationsUpdate(s.producers, p, Idle);
    assert s.gate.Refunded? ==> s.claims[s.reclaimed..][0] == s.claims[s.reclaimed];
  }

  lemma ProducerStep<V>(config: Config, s: State<V>, a: Action<V>)
    requires Inv(config, s) && Enabled(config, s, a)
    requires a.Begin? || a.Refuse? || a.Reserve? || a.LoadHead? || a.LoadTail? || a.GiveUp? || a.Retry?
    ensures Inv(config, Do(config, s, a))
  {
    hide Frontiers, SlotsOk, GateOk, CreditOk;
    var t := Do(config, s, a);
    assert ProducerOk(s, a.p);
    HeldIsCharged(config, s, a.p);
    assert s.charged <= config.maxBytes by { CreditBound(config, s); }
    assert a.LoadTail? ==> s.producers[a.p].head != SEQUENCE_MASK;
    ProducerMove(config, s, t, a.p, t.producers[a.p]);
  }

  lemma CreditBound<V>(config: Config, s: State<V>)
    requires CreditOk(config, s)
    ensures s.charged <= config.maxBytes
  {
  }

  /** The stage being retired is published: some sink has finished it. */
  lemma RetiredIsPublished<V>(config: Config, s: State<V>)
    requires Inv(config, s) && (s.gate.Taken? || s.gate.Cleared? || s.gate.Refunded?)
    ensures s.reclaimed < |s.claims| && s.claims[s.reclaimed].phase.Published?
  {
    hide SlotsOk, ClaimsOk, CreditOk;
    var n := |s.stages|;
    LastIsSink(config);
    assert StageOk(config, s, n - 1);
  }

  lemma LastIsSink(config: Config)
    requires config.Valid()
    ensures config.Sink(|config.deps| - 1)
  {
    forall j | 0 <= j < |config.deps| ensures |config.deps| - 1 !in config.deps[j] {
      assert config.DepsOk(j);
    }
  }

  lemma Distinct(a: nat, b: nat, cap: nat)
    requires 0 < a < b < a + cap
    ensures Index(a, cap) != Index(b, cap)
  {
    var x, y := a - 1, b - 1;
    var d := y / cap - x / cap;
    if x % cap == y % cap {
      assert y - x == cap * d by { DivMod(x, cap); DivMod(y, cap); Spread(cap, y / cap, x / cap); }
      if d <= 0 { Small(cap, d); } else { Large(cap, d); }
    }
  }

  lemma DivMod(x: nat, cap: nat)
    requires cap > 0
    ensures x == cap * (x / cap) + x % cap
  {
  }

  lemma Spread(cap: nat, a: int, b: int)
    ensures cap * a - cap * b == cap * (a - b)
  {
  }

  lemma Small(cap: nat, d: int)
    requires d <= 0
    ensures cap * d <= 0
  {
  }

  lemma Large(cap: nat, d: int)
    requires d >= 1
    ensures cap * d >= cap
  {
  }

  /** Only the slot of `q` changes, from and to what its claim calls for. */
  lemma SlotChanged<V>(config: Config, s: State<V>, t: State<V>, q: nat)
    requires Shape(config, s) && Shape(config, t) && SlotsOk(config, s)
    requires s.reclaimed < q <= s.reclaimed + config.cap && t.reclaimed == s.reclaimed
    requires t.slots == s.slots[Index(q, config.cap) := SlotFor(t, q)]
    requires forall r :: s.reclaimed < r <= s.reclaimed + config.cap && r != q ==> SlotFor(t, r) == SlotFor(s, r)
    ensures SlotsOk(config, t)
  {
    hide SlotFor, Index;
    forall r | t.reclaimed < r <= t.reclaimed + config.cap ensures t.slots[Index(r, config.cap)] == SlotFor(t, r) {
      if r < q { Distinct(r, q, config.cap); } else if q < r { Distinct(q, r, config.cap); }
    }
  }

  lemma CasStep<V>(config: Config, s: State<V>, p: nat)
    requires Inv(config, s) && Enabled(config, s, Cas(p))
    ensures Inv(config, Do(config, s, Cas(p)))
  {
    hide SlotsOk, CreditOk, GateOk, StageOk;
    var it, t := s.producers[p], Do(config, s, Cas(p));
    assert ProducerOk(s, p);
    if |s.claims| == it.head && !s.closed {
      assert Shape(config, t) by {
        forall r | 0 <= r < |t.producers| ensures ProducerShape(t, r) { assert ProducerShape(s, r); }
      }
      forall r | 0 <= r < |t.producers| ensures ProducerOk(t, r) { assert ProducerOk(s, r); }
      forall q | 0 <= q < |t.claims| ensures ClaimOk(t, q) { assert q < |s.claims| ==> ClaimOk(s, q); }
      forall i | 0 <= i < |t.stages| ensures StageOk(config, t, i) { StageClaims(config, s, t, i); }
      ClaimedSlots(config, s, t);
      ClaimedGate(config, s, t);
      ClaimedCredit(config, s, p, t);
    } else {
      CreditBound(config, s);
      ProducerMove(config, s, t, p, Reserved(it.charge));
    }
  }

  /** More claims, or later phases of the same ones, leave a stage in order. */
  lemma StageClaims<V>(config: Config, s: State<V>, t: State<V>, i: nat)
    requires Shape(config, s) && Shape(config, t) && i < |s.stages| && StageOk(config, s, i)
    requires t == s.(claims := t.claims, producers := t.producers, slots := t.slots) && |s.claims| <= |t.claims|
    requires forall q :: 0 <= q < |s.claims| && s.claims[q].phase.Published? ==> t.claims[q].phase == s.claims[q].phase
    ensures StageOk(config, t, i)
  {
    assert forall k :: 0 <= k < |config.deps[i]| ==> Parent(config, t, i, k) == Parent(config, s, i, k);
  }

  lemma ClaimedSlots<V>(config: Config, s: State<V>, t: State<V>)
    requires Shape(config, s) && Shape(config, t) && SlotsOk(config, s) && GateOk(config, s)
    requires |t.claims| == |s.claims| + 1 && t.claims[..|s.claims|] == s.claims && t.claims[|s.claims|].phase.Open?
    requires t == s.(claims := t.claims, producers := t.producers)
    ensures SlotsOk(config, t)
  {
    forall q | t.reclaimed < q <= t.reclaimed + config.cap ensures t.slots[Index(q, config.cap)] == SlotFor(t, q) {
      assert s.slots[Index(q, config.cap)] == SlotFor(s, q);
      assert q <= |s.claims| ==> t.claims[q - 1] == t.claims[..|s.claims|][q - 1];
    }
  }

  lemma ClaimedGate<V>(config: Config, s: State<V>, t: State<V>)
    requires Shape(config, s) && Shape(config, t) && GateOk(config, s)
    requires t == s.(claims := t.claims, producers := t.producers, slots := t.slots) && |s.claims| <= |t.claims|
    requires s.reclaimed < |s.claims| ==> t.claims[s.reclaimed].charge == s.claims[s.reclaimed].charge
    ensures GateOk(config, t)
  {
    assert Pending(config, s) <==> Pending(config, t);
    assert forall b, m :: 0 <= b <= |s.stages| ==> (Below(config, s, b, m) <==> Below(config, t, b, m));
    assert forall b, m :: 0 <= b <= |s.stages| ==> (Attained(config, s, b, m) <==> Attained(config, t, b, m));
  }

  lemma ClaimedCredit<V>(config: Config, s: State<V>, p: nat, t: State<V>)
    requires Inv(config, s) && p < |s.producers| && s.producers[p].Ready?
    requires t == s.(claims := s.claims + [Claim(s.producers[p].charge, p, Open)],
                     producers := s.producers[p := Holding(|s.claims| + 1)])
    ensures CreditOk(config, t)
  {
    hide Frontiers, SlotsOk, ClaimsOk;
    var c: Claim<V> := Claim(s.producers[p].charge, p, Open);
    assert t.claims[s.reclaimed..] == s.claims[s.reclaimed..] + [c];
    ChargesSnoc(s.claims[s.reclaimed..], c);
    ReservationsUpdate(s.producers, p, Holding(|s.claims| + 1));
  }

  /** Writing the entry, then announcing it: the claim's phase and its slot move together. */
  lemma WriteStep<V>(config: Config, s: State<V>, a: Action<V>)
    requires Inv(config, s) && Enabled(config, s, a) && (a.Fill? || a.Publish?)
    ensures Inv(config, Do(config, s, a))
  {
    hide SlotsOk, CreditOk, GateOk, StageOk;
    var p, t := a.p, Do(config, s, a);
    assert ProducerOk(s, p);
    var q := s.producers[p].sequence;
    assert ClaimOk(s, q - 1);
    assert Shape(config, t) by {
      forall r | 0 <= r < |t.producers| ensures ProducerShape(t, r) { assert ProducerShape(s, r); }
    }
    forall r | 0 <= r < |t.producers| ensures ProducerOk(t, r) { assert ProducerOk(s, r); }
    forall r | 0 <= r < |t.claims| ensures ClaimOk(t, r) { assert ClaimOk(s, r); }
    forall i | 0 <= i < |t.stages| ensures StageOk(config, t, i) { StageClaims(config, s, t, i); }
    WrittenSlots(config, s, a);
    ClaimedGate(config, s, t);
    WrittenCredit(config, s, t, p, q);
  }

  lemma WrittenSlots<V>(config: Config, s: State<V>, a: Action<V>)
    requires Inv(config, s) && Enabled(config, s, a) && (a.Fill? || a.Publish?)
    requires Shape(config, Do(config, s, a))
    ensures SlotsOk(config, Do(config, s, a))
  {
    hide CreditOk, StageOk, ClaimsOk;
    var t := Do(config, s, a);
    var q := s.producers[a.p].sequence;
    WriterOwns(config, s, a.p);
    if s.gate.Taken? || s.gate.Cleared? || s.gate.Refunded? {
      RetiredIsPublished(config, s);
      assert q != s.reclaimed + 1;
    }
    assert s.slots[Index(q, config.cap)] == SlotFor(s, q);
    SlotChanged(config, s, t, q);
  }

  lemma WriterOwns<V>(config: Config, s: State<V>, p: nat)
    requires Inv(config, s) && p < |s.producers| && (s.producers[p].Holding? || s.producers[p].Filled?)
    ensures var q := s.producers[p].sequence;
            && s.reclaimed < q <= |s.claims| <= s.reclaimed + config.cap
            && (s.producers[p].Holding? ==> s.claims[q - 1].phase.Open?)
            && (s.producers[p].Filled? ==> s.claims[q - 1].phase.Written?)
  {
    hide SlotsOk, CreditOk, GateOk, StageOk;
    assert ProducerOk(s, p);
    assert ClaimOk(s, s.producers[p].sequence - 1);
  }

  lemma WrittenCredit<V>(config: Config, s: State<V>, t: State<V>, p: nat, q: nat)
    requires Inv(config, s) && p < |s.producers| && 0 < q <= |s.claims|
    requires p < |t.producers| && Held(s.producers[p]) == Held(t.producers[p]) == 0
    requires t == s.(producers := s.producers[p := t.producers[p]], slots := t.slots, claims := t.claims)
    requires |t.claims| == |s.claims| && forall r :: 0 <= r < |s.claims| ==> t.claims[r].charge == s.claims[r].charge
    ensures CreditOk(config, t)
  {
    hide Frontiers, SlotsOk, ClaimsOk;
    ChargesSame(s.claims[s.reclaimed..], t.claims[s.reclaimed..]);
    ReservationsUpdate(s.producers, p, t.producers[p]);
  }

  // ------------------------------------------------------------ stages

  /** Steps that touch neither a completed sequence nor the gate leave the gate's books alone. */
  lemma GateFrame<V>(config: Config, s: State<V>, t: State<V>, i: nat)
    requires Shape(config, s) && Shape(config, t) && GateOk(config, s) && i < |s.stages|
    requires t == s.(stages := s.stages[i := t.stages[i]], fenced := t.fenced)
    requires t.stages[i].finished == s.stages[i].finished
    requires (t.stages[i].probe.WaitGate? <==> s.stages[i].probe.WaitGate?)
    ensures GateOk(config, t)
  {
    assert forall j :: 0 <= j < |s.stages| ==>
      t.stages[j].finished == s.stages[j].finished && (t.stages[j].probe.WaitGate? <==> s.stages[j].probe.WaitGate?);
    assert Pending(config, s) <==> Pending(config, t);
    assert forall b, m :: 0 <= b <= |s.stages| ==> (Below(config, s, b, m) <==> Below(config, t, b, m));
    assert forall b, m :: 0 <= b <= |s.stages| ==> (Attained(config, s, b, m) <==> Attained(config, t, b, m));
  }

  /** What stages do not touch. */
  lemma StageFrame<V>(config: Config, s: State<V>, t: State<V>)
    requires Shape(config, s) && Shape(config, t) && ClaimsOk(config, s) && SlotsOk(config, s) && CreditOk(config, s)
    requires t == s.(stages := t.stages, fenced := t.fenced)
    ensures ClaimsOk(config, t) && SlotsOk(config, t) && CreditOk(config, t)
  {
    hide Index;
    forall q | 0 <= q < |t.claims| ensures ClaimOk(t, q) { assert ClaimOk(s, q); }
    forall p | 0 <= p < |t.producers| ensures ProducerOk(t, p) { assert ProducerOk(s, p); }
    forall q | t.reclaimed < q <= t.reclaimed + config.cap ensures t.slots[Index(q, config.cap)] == SlotFor(t, q) {
      assert s.slots[Index(q, config.cap)] == SlotFor(s, q);
    }
  }

  /** A stage's completed sequence does not go back, and nobody else's changes. */
  lemma OtherStages<V>(config: Config, s: State<V>, t: State<V>, i: nat, j: nat)
    requires Shape(config, s) && Shape(config, t) && Frontiers(config, s) && i < |s.stages| && j < |s.stages| && j != i
    requires t == s.(stages := s.stages[i := t.stages[i]], fenced := t.fenced, gate := t.gate)
    requires (s.fenced ==> t.fenced)
    requires t.stages[i].finished >= s.stages[i].finished
    requires (!t.gate.Free? && t.gate.owner == j) == (!s.gate.Free? && s.gate.owner == j)
    ensures StageOk(config, t, j)
  {
    assert StageOk(config, s, j) && config.DepsOk(j);
    assert forall k :: 0 <= k < |config.deps[j]| ==> Parent(config, t, j, k) >= Parent(config, s, j, k);
  }

  lemma SameParents<V>(config: Config, s: State<V>, t: State<V>, i: nat)
    requires Shape(config, s) && Shape(config, t) && i < |s.stages|
    requires |t.stages| == |s.stages| && forall j :: 0 <= j < i ==> t.stages[j] == s.stages[j]
    ensures forall k :: 0 <= k < |config.deps[i]| ==> Parent(config, t, i, k) == Parent(config, s, i, k)
  {
    assert config.DepsOk(i);
  }

  lemma StageShape<V>(config: Config, s: State<V>, t: State<V>, i: nat)
    requires Shape(config, s) && i < |s.stages| == |t.stages|
    requires t == s.(stages := s.stages[i := t.stages[i]], fenced := t.fenced, gate := t.gate)
    requires t.stages[i].probe.Deps? ==> t.stages[i].probe.count <= |config.deps[i]|
    requires !t.gate.Free? ==> t.gate.owner < |s.stages|
    requires t.gate.Scan? ==> t.gate.next <= |s.stages|
    ensures Shape(config, t)
  {
    forall p | 0 <= p < |t.producers| ensures ProducerShape(t, p) { assert ProducerShape(s, p); }
  }

  /** One stage moves without finishing anything. */
  lemma StageMove<V>(config: Config, s: State<V>, t: State<V>, i: nat)
    requires Inv(config, s) && i < |s.stages| == |t.stages|
    requires t == s.(stages := s.stages[i := t.stages[i]], fenced := t.fenced) && (s.fenced ==> t.fenced)
    requires Shape(config, t) && StageOk(config, t, i)
    requires t.stages[i].finished == s.stages[i].finished
    requires (t.stages[i].probe.WaitGate? <==> s.stages[i].probe.WaitGate?)
    ensures Inv(config, t)
  {
    hide SlotsOk, ClaimsOk, CreditOk, GateOk, StageOk;
    forall j | 0 <= j < |t.stages| && j != i ensures StageOk(config, t, j) { OtherStages(config, s, t, i, j); }
    StageFrame(config, s, t);
    GateFrame(config, s, t, i);
  }

  /** Probing and abandoning a delivery. */
  lemma ProbeStep<V>(config: Config, s: State<V>, a: Action<V>)
    requires Inv(config, s) && Enabled(config, s, a)
    requires a.StartProbe? || a.CheckDep? || a.SeePublished? || a.Miss? || a.Abandon?
    ensures Inv(config, Do(config, s, a))
  {
    hide SlotsOk, ClaimsOk, CreditOk, GateOk, Index;
    var i, t := a.i, Do(config, s, a);
    assert StageOk(config, s, i);
    if a.SeePublished? {
      PublishedSeen(config, s, i);
    }
    StageShape(config, s, t, i);
    SameParents(config, s, t, i);
    StageMove(config, s, t, i);
  }

  /** Reading the next entry, taken into the delivery or declined. */
  lemma ReadStep<V>(config: Config, s: State<V>, a: Action<V>)
    requires Inv(config, s) && Enabled(config, s, a) && (a.TakeValue? || a.Decline?)
    ensures Inv(config, Do(config, s, a))
  {
    hide SlotsOk, ClaimsOk, CreditOk, GateOk, Index;
    var i, t := a.i, Do(config, s, a);
    assert StageOk(config, s, i);
    EntryPresent(config, s, i);
    StageShape(config, s, t, i);
    SameParents(config, s, t, i);
    StageMove(config, s, t, i);
  }

  lemma FinishStep<V>(config: Config, s: State<V>, i: nat)
    requires Inv(config, s) && Enabled(config, s, Finish(i))
    ensures Inv(config, Do(config, s, Finish(i)))
  {
    hide SlotsOk, ClaimsOk, CreditOk, GateOk;
    var t := Do(config, s, Finish(i));
    assert StageOk(config, s, i);
    StageShape(config, s, t, i);
    SameParents(config, s, t, i);
    assert StageOk(config, t, i);
    forall j | 0 <= j < |t.stages| && j != i ensures StageOk(config, t, j) { OtherStages(config, s, t, i, j); }
    StageFrame(config, s, t);
    FinishedGate(config, s, t, i);
  }

  /** A sink that finishes more is waiting for the gate; any other stage leaves the sinks alone. */
  lemma FinishedGate<V>(config: Config, s: State<V>, t: State<V>, i: nat)
    requires Shape(config, s) && Shape(config, t) && GateOk(config, s) && i < |s.stages|
    requires t == s.(stages := s.stages[i := t.stages[i]])
    requires t.stages[i].finished >= s.stages[i].finished && !s.stages[i].probe.WaitGate?
    requires t.stages[i].probe.WaitGate? <==> config.Sink(i)
    ensures GateOk(config, t)
  {
    assert forall b, m :: 0 <= b <= |s.stages| && Below(config, s, b, m) ==> Below(config, t, b, m);
    if config.Sink(i) {
      assert Pending(config, t);
    } else {
      assert Pending(config, s) <==> Pending(config, t);
      assert forall b, m :: 0 <= b <= |s.stages| ==> (Attained(config, s, b, m) <==> Attained(config, t, b, m));
    }
  }

  /** A stage that saw its next sequence published finds the entry there, with the published value. */
  lemma EntryPresent<V>(config: Config, s: State<V>, i: nat)
    requires Inv(config, s) && i < |s.stages| && s.stages[i].probe.Seen?
    ensures var q := s.stages[i].Got();
            && q < |s.claims| && s.claims[q].phase.Published?
            && s.slots[Index(q + 1, config.cap)].entry == Some(Entry(s.claims[q].charge, s.claims[q].phase.value))
  {
    hide ClaimsOk, CreditOk, Index;
    assert StageOk(config, s, i);
    var q := s.stages[i].Got() + 1;
    assert s.slots[Index(q, config.cap)] == SlotFor(s, q);
    if s.gate.Taken? || s.gate.Cleared? || s.gate.Refunded? {
      SinksBoundAll(config, s, s.gate.min, i);
    }
  }

  lemma PublishedSeen<V>(config: Config, s: State<V>, i: nat)
    requires Inv(config, s) && i < |s.stages| && s.stages[i].probe.Deps?
    requires s.slots[Index(s.stages[i].Got() + 1, config.cap)].published == s.stages[i].Got() + 1
    ensures s.stages[i].Got() < |s.claims| && s.claims[s.stages[i].Got()].phase.Published?
  {
    hide ClaimsOk, CreditOk, GateOk, Index;
    assert StageOk(config, s, i);
    var q := s.stages[i].Got() + 1;
    WindowEdge(config, s);
    if q <= s.reclaimed + config.cap {
      assert s.slots[Index(q, config.cap)] == SlotFor(s, q);
    }
  }

  /** The first sequence beyond the window is not announced: its slot still serves the oldest one. */
  lemma WindowEdge<V>(config: Config, s: State<V>)
    requires Shape(config, s) && SlotsOk(config, s)
    ensures s.slots[Index(s.reclaimed + 1 + config.cap, config.cap)].published <= s.reclaimed + 1
  {
    hide Index;
    Wraps(s.reclaimed + 1, config.cap);
    assert s.slots[Index(s.reclaimed + 1, config.cap)] == SlotFor(s, s.reclaimed + 1);
  }

  lemma Wraps(q: nat, cap: nat)
    requires q > 0 && cap > 0
    ensures Index(q + cap, cap) == Index(q, cap)
  {
    var x := q - 1;
    assert (x + cap) % cap == x % cap by { ModAdd(x, cap); }
  }

  lemma ModAdd(x: nat, cap: nat)
    requires cap > 0
    ensures (x + cap) % cap == x % cap
  {
    var k, r := x / cap, x % cap;
    DivMod(x, cap);
    Unique(x + cap, cap, k + 1, r);
  }

  lemma Unique(x: nat, cap: nat, k: nat, r: nat)
    requires cap > 0 && r < cap && x == cap * k + r
    ensures x % cap == r
  {
    DivMod(x, cap);
    var d := x / cap - k;
    assert cap * d == r - x % cap by { Spread(cap, x / cap, k); }
    if d >= 1 { Large(cap, d); } else if d <= -1 { Large(cap, -d); Spread(cap, 0, d); }
  }

  // ------------------------------------------------------------ sinks stand for all stages

  /** What every sink has finished, every stage has finished. */
  lemma {:induction false} SinksBoundAll<V>(config: Config, s: State<V>, m: nat, i: nat)
    requires Shape(config, s) && Frontiers(config, s) && i < |s.stages|
    requires Below(config, s, |s.stages|, m)
    ensures m <= s.stages[i].finished
    decreases |s.stages| - i
  {
    if !config.Sink(i) {
      var j :| 0 <= j < |config.deps| && i in config.deps[j];
      assert config.DepsOk(j) && StageOk(config, s, j);
      var k :| 0 <= k < |config.deps[j]| && config.deps[j][k] == i;
      SinksBoundAll(config, s, m, j);
      assert Parent(config, s, j, k) == s.stages[i].finished;
    }
  }

  // ------------------------------------------------------------ reclamation

  /** Gate steps that touch no slot, no credit and no frontier. */
  lemma GateMove<V>(config: Config, s: State<V>, t: State<V>, i: nat)
    requires Inv(config, s) && i < |s.stages| == |t.stages|
    requires t == s.(gate := t.gate, stages := s.stages[i := s.stages[i].(probe := t.stages[i].probe)])
    requires s.gate.Free? || s.gate.Scan? || s.gate.Sweep?
    requires t.gate.Free? || (t.gate.owner == i && (t.gate.Scan? || t.gate.Sweep?))
    requires s.gate.Free? || s.gate.owner == i
    requires t.gate.Scan? ==> t.gate.next <= |s.stages|
    requires t.stages[i].probe == (if t.gate.Free? then Resting else Reclaiming)
    requires s.stages[i].probe == (if s.gate.Free? then WaitGate else Reclaiming)
    requires Shape(config, t) && GateOk(config, t)
    ensures Inv(config, t)
  {
    hide CreditOk, GateOk, Index;
    assert StageOk(config, s, i);
    SameParents(config, s, t, i);
    assert StageOk(config, t, i);
    forall j | 0 <= j < |t.stages| && j != i ensures StageOk(config, t, j) { OtherStages(config, s, t, i, j); }
    forall q | 0 <= q < |t.claims| ensures ClaimOk(t, q) { assert ClaimOk(s, q); }
    forall p | 0 <= p < |t.producers| ensures ProducerOk(t, p) { assert ProducerOk(s, p); }
    forall q | t.reclaimed < q <= t.reclaimed + config.cap ensures t.slots[Index(q, config.cap)] == SlotFor(t, q) {
      assert s.slots[Index(q, config.cap)] == SlotFor(s, q);
    }
    assert CreditOk(config, t) by { CreditFrame(config, s, t); }
  }

  lemma CreditFrame<V>(config: Config, s: State<V>, t: State<V>)
    requires CreditOk(config, s) && t == s.(gate := t.gate, stages := t.stages, slots := t.slots)
    requires s.gate.Refunded? == t.gate.Refunded?
    ensures CreditOk(config, t)
  {
  }

  lemma SameSinks<V>(config: Config, s: State<V>, t: State<V>)
    requires |s.stages| == |t.stages|
    requires forall j :: 0 <= j < |s.stages| ==> t.stages[j].finished == s.stages[j].finished
    ensures forall b, m :: 0 <= b <= |s.stages| ==> (Below(config, s, b, m) <==> Below(config, t, b, m))
    ensures forall b, m :: 0 <= b <= |s.stages| ==> (Attained(config, s, b, m) <==> Attained(config, t, b, m))
  {
  }

  lemma LockStep<V>(config: Config, s: State<V>, i: nat)
    requires Inv(config, s) && Enabled(config, s, Lock(i))
    ensures Inv(config, Do(config, s, Lock(i)))
  {
    hide SlotsOk, ClaimsOk, CreditOk, Frontiers;
    var t := Do(config, s, Lock(i));
    StageShape(config, s, t, i);
    GateMove(config, s, t, i);
  }

  lemma LoadSinkStep<V>(config: Config, s: State<V>)
    requires Inv(config, s) && Enabled(config, s, LoadSink)
    ensures Inv(config, Do(config, s, LoadSink))
  {
    hide SlotsOk, ClaimsOk, CreditOk;
    var t := Do(config, s, LoadSink);
    var i, k := s.gate.owner, s.gate.next;
    assert StageOk(config, s, i);
    assert t.stages == s.stages[i := s.stages[i].(probe := t.stages[i].probe)];
    StageShape(config, s, t, i);
    assert Pending(config, s) <==> Pending(config, t);
    assert t.gate.least.Some? ==> Below(config, t, k + 1, t.gate.least.value);
    if t.gate.least.Some? && !Pending(config, s) {
      if t.gate.least == s.gate.least {
        var j :| 0 <= j < k && config.Sink(j) && s.stages[j].finished == s.gate.least.value;
        assert t.stages[j].finished == t.gate.least.value;
      } else {
        assert t.stages[k].finished == t.gate.least.value;
      }
    }
    GateMove(config, s, t, i);
  }

  lemma StillPending<V>(config: Config, s: State<V>, t: State<V>)
    requires |s.stages| == |t.stages| == |config.deps|
    requires forall j :: 0 <= j < |s.stages| && s.stages[j].probe.WaitGate? ==> t.stages[j].probe.WaitGate?
    ensures Pending(config, s) ==> Pending(config, t)
  {
    if Pending(config, s) {
      var j :| 0 <= j < |s.stages| && config.Sink(j) && s.stages[j].probe.WaitGate?;
      assert t.stages[j].probe.WaitGate?;
    }
  }

  /** Giving up the gate: either another sink is waiting for it, or nothing is left to reclaim. */
  lemma EndStep<V>(config: Config, s: State<V>, a: Action<V>)
    requires Inv(config, s) && Enabled(config, s, a) && (a.EndScan? || a.Release?)
    ensures Inv(config, Do(config, s, a))
  {
    hide SlotsOk, ClaimsOk, CreditOk;
    var t, i, n := Do(config, s, a), s.gate.owner, |s.stages|;
    assert StageOk(config, s, i);
    LastIsSink(config);
    if a.EndScan? {
      assert s.gate.least.Some?;
      assert StageOk(config, s, n - 1);
    }
    assert t.stages == s.stages[i := s.stages[i].(probe := t.stages[i].probe)];
    StageShape(config, s, t, i);
    SameSinks(config, s, t);
    StillPending(config, s, t);
    if t.gate.Free? && !Pending(config, s) {
      var m := if a.EndScan? then s.gate.least.value else s.gate.min;
      var j :| 0 <= j < n && config.Sink(j) && s.stages[j].finished == m;
      assert StageOk(config, s, j);
      assert Attained(config, t, n, s.reclaimed);
    }
    GateMove(config, s, t, i);
  }

  /** Retiring one slot changes only that slot and the credit until the frontier moves. */
  lemma RetireFrame<V>(config: Config, s: State<V>, t: State<V>)
    requires Inv(config, s) && Shape(config, t)
    requires t == s.(slots := t.slots, charged := t.charged, gate := t.gate)
    requires !s.gate.Free? && !t.gate.Free? && s.gate.owner == t.gate.owner
    ensures Frontiers(config, t) && ClaimsOk(config, t)
  {
    hide SlotsOk, CreditOk, GateOk;
    forall i | 0 <= i < |t.stages| ensures StageOk(config, t, i) {
      assert StageOk(config, s, i);
      SameParents(config, s, t, i);
    }
    forall q | 0 <= q < |t.claims| ensures ClaimOk(t, q) { assert ClaimOk(s, q); }
    forall p | 0 <= p < |t.producers| ensures ProducerOk(t, p) { assert ProducerOk(s, p); }
  }

  lemma RetireShape<V>(config: Config, s: State<V>, t: State<V>)
    requires Shape(config, s) && |t.slots| == |s.slots|
    requires t == s.(slots := t.slots, charged := t.charged, gate := t.gate, reclaimed := t.reclaimed)
    requires !t.gate.Free? && t.gate.owner < |s.stages| && !t.gate.Scan?
    ensures Shape(config, t)
  {
    forall p | 0 <= p < |t.producers| ensures ProducerShape(t, p) { assert ProducerShape(s, p); }
  }

  /** The slot next in line still holds the entry its claim was published with. */
  lemma FinishedRetainsEntry<V>(config: Config, s: State<V>)
    requires Inv(config, s) && s.gate.Sweep? && s.reclaimed < s.gate.min
    ensures s.reclaimed < |s.claims| && s.claims[s.reclaimed].phase.Published?
    ensures s.slots[Index(s.reclaimed + 1, config.cap)]
         == Slot(s.reclaimed + 1, Some(Entry(s.claims[s.reclaimed].charge, s.claims[s.reclaimed].phase.value)))
  {
    hide ClaimsOk, CreditOk, Index;
    LastIsSink(config);
    assert StageOk(config, s, |s.stages| - 1);
    assert s.slots[Index(s.reclaimed + 1, config.cap)] == SlotFor(s, s.reclaimed + 1);
  }

  lemma TakeEntryStep<V>(config: Config, s: State<V>)
    requires Inv(config, s) && Enabled(config, s, TakeEntry)
    ensures Inv(config, Do(config, s, TakeEntry))
  {
    hide ClaimsOk, CreditOk, Frontiers, Index;
    var t := Do(config, s, TakeEntry);
    FinishedRetainsEntry(config, s);
    RetireShape(config, s, t);
    RetireFrame(config, s, t);
    SlotChanged(config, s, t, s.reclaimed + 1);
    CreditFrame(config, s, t);
    SameSinks(config, s, t);
    assert Pending(config, s) <==> Pending(config, t);
  }

  lemma ClearStep<V>(config: Config, s: State<V>)
    requires Inv(config, s) && Enabled(config, s, Clear)
    ensures Inv(config, Do(config, s, Clear))
  {
    hide ClaimsOk, CreditOk, Frontiers, Index;
    var t := Do(config, s, Clear);
    RetiredIsPublished(config, s);
    assert s.slots[Index(s.reclaimed + 1, config.cap)] == SlotFor(s, s.reclaimed + 1);
    RetireShape(config, s, t);
    RetireFrame(config, s, t);
    SlotChanged(config, s, t, s.reclaimed + 1);
    CreditFrame(config, s, t);
    SameSinks(config, s, t);
    assert Pending(config, s) <==> Pending(config, t);
  }

  lemma RefundStep<V>(config: Config, s: State<V>)
    requires Inv(config, s) && Enabled(config, s, Refund)
    ensures Inv(config, Do(config, s, Refund))
  {
    hide ClaimsOk, Frontiers, Index;
    var t := Do(config, s, Refund);
    assert s.claims[s.reclaimed..][0] == s.claims[s.reclaimed];
    assert s.gate.charge <= s.charged;
    RetireShape(config, s, t);
    RetireFrame(config, s, t);
    forall q | t.reclaimed < q <= t.reclaimed + config.cap ensures t.slots[Index(q, config.cap)] == SlotFor(t, q) {
      assert s.slots[Index(q, config.cap)] == SlotFor(s, q);
    }
    SameSinks(config, s, t);
    assert Pending(config, s) <==> Pending(config, t);
  }

  lemma AdvanceStep<V>(config: Config, s: State<V>)
    requires Inv(config, s) && Enabled(config, s, Advance)
    ensures Inv(config, Do(config, s, Advance))
  {
    hide CreditOk, GateOk, SlotsOk;
    var t := Do(config, s, Advance);
    RetireShape(config, s, t);
    RetiredIsPublished(config, s);
    GateFacts(config, s);
    forall i | 0 <= i < |t.stages| ensures StageOk(config, t, i) {
      assert StageOk(config, s, i);
      SinksBoundAll(config, s, s.gate.min, i);
      SameParents(config, s, t, i);
    }
    forall q | 0 <= q < |t.claims| ensures ClaimOk(t, q) { assert ClaimOk(s, q); }
    forall p | 0 <= p < |t.producers| ensures ProducerOk(t, p) { assert ProducerOk(s, p); }
    assert GateOk(config, t) by { AdvancedGate(config, s, t); }
    assert SlotsOk(config, t) by { AdvancedSlots(config, s, t); }
    assert CreditOk(config, t) by { AdvancedCredit(config, s, t); }
  }

  lemma GateFacts<V>(config: Config, s: State<V>)
    requires Shape(config, s) && GateOk(config, s) && s.gate.Refunded?
    ensures Below(config, s, |s.stages|, s.gate.min) && s.reclaimed < s.gate.min && s.reclaimed < |s.claims|
  {
  }

  lemma AdvancedGate<V>(config: Config, s: State<V>, t: State<V>)
    requires Shape(config, s) && Shape(config, t) && GateOk(config, s) && s.gate.Refunded?
    requires t == s.(reclaimed := s.reclaimed + 1, gate := Sweep(s.gate.owner, s.gate.min))
    ensures GateOk(config, t)
  {
    SameSinks(config, s, t);
    assert Pending(config, s) <==> Pending(config, t);
  }

  /** The freed slot is empty, as the sequence that enters the window needs it. */
  lemma AdvancedSlots<V>(config: Config, s: State<V>, t: State<V>)
    requires Shape(config, s) && Shape(config, t) && SlotsOk(config, s) && s.gate.Refunded?
    requires s.reclaimed < |s.claims| <= s.reclaimed + config.cap
    requires t == s.(reclaimed := s.reclaimed + 1, gate := Sweep(s.gate.owner, s.gate.min))
    ensures SlotsOk(config, t)
  {
    hide Index;
    Wraps(s.reclaimed + 1, config.cap);
    forall q | t.reclaimed < q <= t.reclaimed + config.cap ensures t.slots[Index(q, config.cap)] == SlotFor(t, q) {
      if q <= s.reclaimed + config.cap {
        assert s.slots[Index(q, config.cap)] == SlotFor(s, q);
      } else {
        assert s.slots[Index(s.reclaimed + 1, config.cap)] == SlotFor(s, s.reclaimed + 1);
      }
    }
  }

  lemma AdvancedCredit<V>(config: Config, s: State<V>, t: State<V>)
    requires CreditOk(config, s) && s.gate.Refunded? && s.reclaimed < |s.claims|
    requires t == s.(reclaimed := s.reclaimed + 1, gate := Sweep(s.gate.owner, s.gate.min))
    ensures CreditOk(config, t)
  {
    assert s.claims[s.reclaimed..][1..] == s.claims[s.reclaimed + 1..];
  }

  // ------------------------------------------------------------ every step

  lemma ControlStep<V>(config: Config, s: State<V>, a: Action<V>)
    requires Inv(config, s) && (a.Close? || a.Fence?)
    ensures Inv(config, Do(config, s, a))
  {
    hide CreditOk, GateOk, SlotsOk, Frontiers;
    var t := Do(config, s, a);
    forall p | 0 <= p < |t.producers| ensures ProducerShape(t, p) && ProducerOk(t, p) {
      assert ProducerShape(s, p) && ProducerOk(s, p);
    }
    Frame(config, s, t);
    forall q | 0 <= q < |t.claims| ensures ClaimOk(t, q) { assert ClaimOk(s, q); }
    assert CreditOk(config, t) by { SameCredit(config, s, t); }
  }

  lemma SameCredit<V>(config: Config, s: State<V>, t: State<V>)
    requires CreditOk(config, s) && t == s.(closed := t.closed, fenced := t.fenced)
    ensures CreditOk(config, t)
  {
  }

  lemma StepKeeps<V>(config: Config, s: State<V>, a: Action<V>)
    requires Inv(config, s) && Enabled(config, s, a)
    ensures Inv(config, Do(config, s, a))
  {
    hide Inv, Do, Enabled;
    match a
    case Begin(_, _) => ProducerStep(config, s, a);
    case Refuse(_) => ProducerStep(config, s, a);
    case Reserve(_) => ProducerStep(config, s, a);
    case LoadHead(_) => ProducerStep(config, s, a);
    case LoadTail(_) => ProducerStep(config, s, a);
    case GiveUp(_) => ProducerStep(config, s, a);
    case Retry(_) => ProducerStep(config, s, a);
    case Cas(p) => CasStep(config, s, p);
    case Fill(_, _) => WriteStep(config, s, a);
    case Publish(_) => WriteStep(config, s, a);
    case StartProbe(_) => ProbeStep(config, s, a);
    case CheckDep(_) => ProbeStep(config, s, a);
    case SeePublished(_) => ProbeStep(config, s, a);
    case Miss(_) => ProbeStep(config, s, a);
    case Abandon(_) => ProbeStep(config, s, a);
    case TakeValue(_) => ReadStep(config, s, a);
    case Decline(_) => ReadStep(config, s, a);
    case Finish(i) => FinishStep(config, s, i);
    case Lock(i) => LockStep(config, s, i);
    case LoadSink => LoadSinkStep(config, s);
    case EndScan => EndStep(config, s, a);
    case Release => EndStep(config, s, a);
    case TakeEntry => TakeEntryStep(config, s);
    case Clear => ClearStep(config, s);
    case Refund => RefundStep(config, s);
    case Advance => AdvanceStep(config, s);
    case Close => ControlStep(config, s, a);
    case Fence => ControlStep(config, s, a);
  }
}
