/** What every run of appends, checkpoints and crashes guarantees. */
module CheckpointTheorems {
  import opened Common
  import opened Rollup
  import opened Engine
  import opened EngineReplay
  import opened History
  import opened Checkpoint
  import opened CheckpointSteps

  ghost predicate Step(schema: Schema, m: Machine, n: Machine) {
    Formed(schema, m) && exists a: Action :: Enabled(schema, m, a) && n == Do(schema, m, a)
  }

  ghost predicate Run(schema: Schema, states: seq<Machine>) {
    && schema.Valid() && states != [] && states[0] == Checkpoint.Init(schema)
    && forall k :: 0 < k < |states| ==> Step(schema, states[k - 1], states[k])
  }

  lemma InitInv(schema: Schema)
    requires schema.Valid()
    ensures Inv(schema, Checkpoint.Init(schema))
  {
    var m := Checkpoint.Init(schema);
    forall name | name in schema.tables
      ensures RootOk(schema, name, m.root[name], m.hist, 0) && TabOk(schema, name, m.live[name], m.hist[..0], 0)
    {
      assert m.root[name] == EMPTY && m.live[name] == EMPTY;
      assert m.hist[..0] == [];
    }
  }

  lemma {:induction false} RunKeeps(schema: Schema, states: seq<Machine>, k: nat)
    requires Run(schema, states) && k < |states|
    ensures Inv(schema, states[k])
  {
    hide Inv, Do, Enabled, Formed, Checkpoint.Init;
    if k == 0 {
      InitInv(schema);
    } else {
      RunKeeps(schema, states, k - 1);
      assert Step(schema, states[k - 1], states[k]);
      InvFormed(schema, states[k - 1]);
      var a :| Enabled(schema, states[k - 1], a) && states[k] == Do(schema, states[k - 1], a);
      StepKeeps(schema, states[k - 1], a);
    }
  }

  /**
   * Rows, rollups and receipts of a table are those of the whole history, less what retention and the floor
   * retired.
   */
  ghost predicate HoldsAll(schema: Schema, name: string, t: Tab, hist: seq<Record>)
    requires schema.Valid() && name in schema.tables
  {
    && multiset(t.cold + Flat(t.hot)) == multiset(Since(Rows(hist, name), t.keep))
    && t.rollups == AddRows(map[], Rows(hist, name), schema.tables[name].widths, t.keep.rollups)
    && t.receipts == Unpruned(schema, name, Receipts(schema, hist, name), t.floor)
  }

  lemma TabHoldsAll(schema: Schema, name: string, t: Tab, hist: seq<Record>, c: nat)
    requires schema.Valid() && name in schema.tables && c <= |hist| && TabOk(schema, name, t, hist, c)
    ensures HoldsAll(schema, name, t, hist)
  {
    hide Rows, Receipts, Unpruned, AddRows, Flat, Since;
    SinceConcat(Rows(hist[..c], name), Flat(t.hot), t.keep);
    assert multiset(t.cold + Flat(t.hot)) == multiset(t.cold) + multiset(Flat(t.hot));
  }

  /**
   * Wherever a run is cut off, recovery accepts every durable record above the root and rebuilds
   * exactly what folding all durable records gives.
   */
  lemma CrashRecovers(schema: Schema, states: seq<Machine>, k: nat, name: string)
    requires Run(schema, states) && k < |states| && name in schema.tables
    ensures Formed(schema, states[k])
    ensures var m := states[k];
            && Recovers(schema, name, m.root[name], m.hist, m.rootSequence)
            && HoldsAll(schema, name, Recover(schema, m).live[name], m.hist)
            && Recover(schema, m).live[name].floor == m.root[name].floor
            && Recover(schema, m).live[name].keep == m.root[name].keep
  {
    hide TabOk, Do, Enabled, FlightOk, CaptureOk, Recovers, HoldsAll;
    var m := states[k];
    RunKeeps(schema, states, k);
    CrashStep(schema, m);
    var n := Recover(schema, m);
    assert n.hist[..n.sequence] == n.hist;
    TabHoldsAll(schema, name, n.live[name], n.hist, n.checkpoint);
  }

  /**
   * Between groups the live state is what recovery would rebuild: the same rollups, receipts and floor, and
   * the same rows.
   */
  lemma LiveAgrees(schema: Schema, states: seq<Machine>, k: nat, name: string)
    requires Run(schema, states) && k < |states| && name in schema.tables
    requires !states[k].fenced && states[k].flight.NoFlight?
    ensures Formed(schema, states[k])
    ensures var m := states[k];
            var live, recovered := m.live[name], Recover(schema, m).live[name];
            && HoldsAll(schema, name, live, m.hist)
            && live.rollups == recovered.rollups && live.receipts == recovered.receipts
            && live.floor == recovered.floor && live.keep == recovered.keep
            && multiset(live.cold + Flat(live.hot)) == multiset(recovered.cold + Flat(recovered.hot))
  {
    hide TabOk, Do, Enabled, CaptureOk, Recovers, Recover;
    var m := states[k];
    RunKeeps(schema, states, k);
    assert m.hist[..m.sequence] == m.hist;
    TabHoldsAll(schema, name, m.live[name], m.hist, m.checkpoint);
    CrashRecovers(schema, states, k, name);
  }

  // ------------------------------------------------------------ exactly once

  /** No request ID is applied twice to a table, whatever retries, prunings and reopens a run holds. */
  lemma AppliedOnce(schema: Schema, states: seq<Machine>, s: nat, k: nat, i: nat, l: nat, j: nat)
    requires Run(schema, states) && s < |states|
    requires var hist := states[s].hist; k < |hist| && i < |hist[k]| && l < |hist| && j < |hist[l]|
    requires var hist := states[s].hist; hist[k][i].table == hist[l][j].table && hist[k][i].id == hist[l][j].id
    ensures k == l && i == j
  {
    hide TabOk, Do, Enabled, FlightOk, CaptureOk, OnceOnly;
    RunKeeps(schema, states, s);
    var hist := states[s].hist;
    if k < l {
      Repeated(schema, hist, k, i, l, j);
    } else if l < k {
      Repeated(schema, hist, l, j, k, i);
    } else if i < j {
      RepeatedWithin(schema, hist, k, i, j);
    } else if j < i {
      RepeatedWithin(schema, hist, k, j, i);
    }
  }

  lemma {:induction false} CommittedReceipt(schema: Schema, hist: seq<Record>, k: nat, i: nat)
    requires k < |hist| && i < |hist[k]|
    ensures hist[k][i].id in Receipts(schema, hist, hist[k][i].table)
  {
    var n := |hist| - 1;
    if k < n {
      CommittedReceipt(schema, hist[..n], k, i);
    } else {
      ReceiptIn(schema, hist[n], hist[k][i].table, |hist|, hist[k][i].id);
    }
  }

  lemma {:induction false} Repeated(schema: Schema, hist: seq<Record>, k: nat, i: nat, l: nat, j: nat)
    requires OnceOnly(schema, hist) && k < l < |hist| && i < |hist[k]| && j < |hist[l]|
    ensures hist[k][i].table != hist[l][j].table || hist[k][i].id != hist[l][j].id
  {
    var n := |hist| - 1;
    if l < n {
      Repeated(schema, hist[..n], k, i, l, j);
    } else {
      CommittedReceipt(schema, hist[..n], k, i);
    }
  }

  lemma {:induction false} RepeatedWithin(schema: Schema, hist: seq<Record>, k: nat, i: nat, j: nat)
    requires OnceOnly(schema, hist) && k < |hist| && i < j < |hist[k]|
    ensures hist[k][i].table != hist[k][j].table || hist[k][i].id != hist[k][j].id
  {
    var n := |hist| - 1;
    if k < n {
      RepeatedWithin(schema, hist[..n], k, i, j);
    } else {
      assert hist[n][..j][i] == hist[n][i];
      assert !UsesId(hist[n][..j], hist[n][j].table, hist[n][j].id);
    }
  }

  /**
   * A request whose ID is already committed is never accepted again: staging either refuses it or
   * answers with the receipt of its original record, and only for the same content.
   */
  lemma RetryIsAnswered(schema: Schema, states: seq<Machine>, k: nat, st: Staged, item: Item, admit: bool)
    requires Run(schema, states) && k < |states| && !states[k].fenced && states[k].flight.NoFlight?
    requires StagedOk(schema, states[k], st) && item.table in schema.tables
    requires item.id in Receipts(schema, states[k].hist, item.table)
    ensures Formed(schema, states[k])
    ensures StageItem(schema, states[k], st, item, admit).rec == st.rec
    ensures var m := states[k];
            var retry := RetryWith(schema.issued(item.id), schema.tables[item.table], FoundReceipt(schema, m, st, item),
                                   if item.table in st.floors then Some(st.floors[item.table]) else None, item);
            retry.Retry? ==>
              && retry.duplicate == Some(Receipts(schema, m.hist, item.table)[item.id])
              && retry.duplicate.value.digest == item.digest
  {
    hide Inv, Do, Enabled, Run, Receipts, StagedOk, FoundReceipt;
    var m, name := states[k], item.table;
    RunKeeps(schema, states, k);
    InvFormed(schema, m);
    var previous := if name in st.floors then Some(st.floors[name]) else None;
    var retry := RetryWith(schema.issued(item.id), schema.tables[name], FoundReceipt(schema, m, st, item), previous,
                           item);
    FoundIsOriginal(schema, m, st, item);
    if retry.Retry? && retry.duplicate.None? {
      NeverCommitted(schema, m, st, item);
    }
  }

  /** The receipt staging finds for a committed ID is the one its record issued. */
  lemma FoundIsOriginal(schema: Schema, m: Machine, st: Staged, item: Item)
    requires Inv(schema, m) && !m.fenced && m.flight.NoFlight? && StagedOk(schema, m, st) && item.table in schema.tables
    requires item.id in Receipts(schema, m.hist, item.table)
    ensures
      var found := FoundReceipt(schema, m, st, item);
      found.None? || found == Some(Receipts(schema, m.hist, item.table)[item.id])
  {
    hide Inv, Receipts, FreshRecord, RecordReceipts, TabOk, Formed;
    StagedFresh(schema, m, st);
    NotStagedTwice(schema, m, st, item);
    LiveTab(schema, m, item.table);
    KeepsOriginal(schema, item.table, m.live[item.table], m.hist, m.checkpoint, item.id);
  }

  lemma KeepsOriginal(schema: Schema, name: string, t: Tab, hist: seq<Record>, c: nat, id: string)
    requires schema.Valid() && name in schema.tables && c <= |hist| && TabOk(schema, name, t, hist, c)
    ensures id in t.receipts ==>
      id in Receipts(schema, hist, name) && t.receipts[id] == Receipts(schema, hist, name)[id]
  {
    hide Receipts, Rows, AddRows;
  }

  lemma NotStagedTwice(schema: Schema, m: Machine, st: Staged, item: Item)
    requires FreshRecord(schema, m.hist, st.rec) && item.id in Receipts(schema, m.hist, item.table)
    ensures item.id !in RecordReceipts(schema, st.rec, item.table, m.sequence + 1)
  {
    hide Receipts;
    ReceiptIn(schema, st.rec, item.table, m.sequence + 1, item.id);
  }

  // ------------------------------------------------------------ floors

  /** Neither the idempotency floor nor a retention cutoff is lower. */
  predicate TabRises(a: Tab, b: Tab) {
    RawRises(a.floor, b.floor) && KeepRises(a.keep, b.keep)
  }

  /** A capture that is still current raises the floor it was taken from, which is the durable one. */
  lemma CapturedFloor(schema: Schema, m: Machine, name: string)
    requires Inv(schema, m) && !m.fenced && Current(m) && name in schema.tables
    ensures name in m.capture.root && TabRises(m.root[name], m.capture.root[name])
  {
    hide TabOk, DurableOk, FlightOk, FrozenFits;
    FitsFloor(schema, m, name, m.capture);
  }

  lemma FitsFloor(schema: Schema, m: Machine, name: string, k: Capture)
    requires Formed(schema, m) && name in schema.tables && k.Captured? && k.prior <= k.sequence <= m.sequence
    requires name in k.tabs && name in k.root && name in k.written && FrozenFits(schema, m, name, k)
    ensures TabRises(m.live[name], k.root[name])
  {
    hide TabOk, TailAbove, Prune, Formed;
  }

  lemma LockedFloor(schema: Schema, m: Machine, written: map<string, seq<Stored>>, name: string)
    requires Inv(schema, m) && !m.fenced && written.Keys == schema.tables.Keys && name in schema.tables
    ensures name in DoFreeze(schema, m, written).root && TabRises(m.root[name], DoFreeze(schema, m, written).root[name])
  {
    hide TabOk, DurableOk, FlightOk, CaptureOk, Prune;
  }

  lemma MaintainedFloor(schema: Schema, m: Machine, upkeep: map<string, Upkeep>, name: string)
    requires Inv(schema, m) && Maintainable(schema, m, upkeep) && name in schema.tables
    ensures var n := DoMaintain(schema, m, upkeep); name in n.root && TabRises(m.root[name], n.root[name])
  {
    hide TabOk, DurableOk, FlightOk, CaptureOk, Restrict, Since;
  }

  lemma FloorStep(schema: Schema, m: Machine, a: Action, name: string)
    requires Inv(schema, m) && Formed(schema, m) && Enabled(schema, m, a) && name in schema.tables
    ensures name in m.root && name in Do(schema, m, a).root
    ensures TabRises(m.root[name], Do(schema, m, a).root[name])
  {
    hide Inv, Enabled, Do, TabRises, Formed, DoFreeze, DoMaintain, Current, Maintainable;
    RootNames(schema, m);
    SameRises(m.root[name]);
    match a
    case Publish => RootAtPublish(schema, m, a); CapturedFloor(schema, m, name);
    case PublishUnknown(_) => RootAtPublish(schema, m, a); CapturedFloor(schema, m, name);
    case PublishLocked(written) => RootAtPublish(schema, m, a); LockedFloor(schema, m, written, name);
    case Maintain(upkeep) => RootAtPublish(schema, m, a); MaintainedFloor(schema, m, upkeep, name);
    case MaintainUnknown(upkeep, _) => RootAtPublish(schema, m, a); MaintainedFloor(schema, m, upkeep, name);
    case _ => RootAfter(schema, m, a);
  }

  lemma RootNames(schema: Schema, m: Machine)
    requires Formed(schema, m)
    ensures m.root.Keys == schema.tables.Keys
  {
  }

  lemma SameRises(t: Tab)
    ensures TabRises(t, t)
  {
  }

  /** Only a publication moves the durable root. */
  lemma RootAfter(schema: Schema, m: Machine, a: Action)
    requires Formed(schema, m) && Enabled(schema, m, a)
    requires !a.Publish? && !a.PublishUnknown? && !a.PublishLocked? && !a.Maintain? && !a.MaintainUnknown?
    ensures Do(schema, m, a).root == m.root
  {
    hide StageItems, ApplyRecord, ReplayTo, DoFreeze, PersistedFloors;
  }

  /** What a publication makes the durable root, if it does. */
  lemma RootAtPublish(schema: Schema, m: Machine, a: Action)
    requires Formed(schema, m) && Enabled(schema, m, a)
    requires a.Publish? || a.PublishUnknown? || a.PublishLocked? || a.Maintain? || a.MaintainUnknown?
    ensures !m.fenced
    ensures a.Publish? || a.PublishUnknown? ==> Current(m)
    ensures a.PublishLocked? ==> a.written.Keys == schema.tables.Keys
    ensures a.Maintain? || a.MaintainUnknown? ==> Maintainable(schema, m, a.upkeep)
    ensures Do(schema, m, a).root == m.root
         || Do(schema, m, a).root == match a
              case PublishLocked(written) => DoFreeze(schema, m, written).root
              case Maintain(upkeep) => DoMaintain(schema, m, upkeep).root
              case MaintainUnknown(upkeep, _) => DoMaintain(schema, m, upkeep).root
              case _ => m.capture.root
  {
    hide DoFreeze, DoMaintain, Thaw, Retired;
  }

  /** The durable floor and retention cutoffs of a table never fall, whatever checkpoints and crashes a run holds. */
  lemma {:induction false} DurableFloorRises(schema: Schema, states: seq<Machine>, i: nat, j: nat, name: string)
    requires Run(schema, states) && i <= j < |states| && name in schema.tables
    ensures name in states[i].root && name in states[j].root && TabRises(states[i].root[name], states[j].root[name])
  {
    hide Inv, Do, Enabled;
    RunKeeps(schema, states, i);
    InvFormed(schema, states[i]);
    if i < j {
      DurableFloorRises(schema, states, i, j - 1, name);
      RunKeeps(schema, states, j - 1);
      assert Step(schema, states[j - 1], states[j]);
      var a :| Enabled(schema, states[j - 1], a) && states[j] == Do(schema, states[j - 1], a);
      FloorStep(schema, states[j - 1], a, name);
    }
  }

  /**
   * Every applied request is remembered: recovery finds its original receipt, or the table's durable
   * floor has passed its issue time.
   */
  lemma AppliedIsRemembered(schema: Schema, states: seq<Machine>, s: nat, k: nat, i: nat)
    requires Run(schema, states) && s < |states| && k < |states[s].hist| && i < |states[s].hist[k]|
    requires states[s].hist[k][i].table in schema.tables
    ensures Formed(schema, states[s])
    ensures
      var m, item := states[s], states[s].hist[k][i];
      var recovered, all := Recover(schema, m).live[item.table], Receipts(schema, m.hist, item.table);
      && item.id in all
      && (|| (item.id in recovered.receipts && recovered.receipts[item.id] == all[item.id])
          || (schema.Timed(item.table) && m.root[item.table].floor.Some? && schema.issued(item.id).Some?
              && schema.issued(item.id).value < m.root[item.table].floor.value))
  {
    hide Inv, Do, Enabled, Recover, Receipts, Recovers;
    var m, item := states[s], states[s].hist[k][i];
    CrashRecovers(schema, states, s, item.table);
    CommittedReceipt(schema, m.hist, k, i);
    if schema.Timed(item.table) {
      RunKeeps(schema, states, s);
      HistoryOnce(schema, m);
      TimedReceipts(schema, m.hist, item.table, item.id);
    }
  }
}
