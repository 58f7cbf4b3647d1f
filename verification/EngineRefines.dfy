/** The engine's replay, table by table, is the history model's: counters and capacity checks aside. */
module EngineRefines {
  import opened Common
  import opened Rollup
  import opened Engine
  import opened EngineReplay
  import opened History

  function SchemaOf(sz: Sizes, s: State): (r: Schema) {
    Schema(map name | name in s.tables :: s.tables[name].config, sz.issued)
  }

  function SegmentRows(segments: seq<Segment>): (r: seq<Stored>) {
    if segments == [] then [] else SegmentRows(segments[..|segments| - 1]) + segments[|segments| - 1].rows
  }

  function Unproved(receipts: map<string, Receipt>): (r: map<string, Receipt>) {
    map id | id in receipts :: receipts[id].(proof := None)
  }

  function HotRows(batches: seq<Batch>): (r: seq<seq<Stored>>)
    ensures |r| == |batches|
  {
    seq(|batches|, i requires 0 <= i < |batches| => batches[i].rows)
  }

  /** A table as the history model sees it. */
  function View(s: State, name: string): (r: Tab)
    requires name in s.tables
  {
    var t := s.tables[name];
    Tab(SegmentRows(t.segments), HotRows(if name in s.hot then s.hot[name] else []), Unproved(t.receipts), t.rollups,
        t.floor,
        Keep(t.cutoff, t.rollupCutoff))
  }

  // ------------------------------------------------------------ one request

  lemma {:induction false} RowKeepsKeys(m: map<Key, Rollup>, s: Stored, widths: seq<int>, cutoff: Cut)
    requires Widths(widths)
    ensures m.Keys <= AddRow(m, s, widths, cutoff).Keys
  {
    if widths != [] {
      RowKeepsKeys(m, s, widths[..|widths| - 1], cutoff);
    }
  }

  lemma {:induction false} RowsKeepKeys(m: map<Key, Rollup>, rows: seq<Stored>, widths: seq<int>, cutoff: Cut)
    requires Widths(widths)
    ensures m.Keys <= AddRows(m, rows, widths, cutoff).Keys
  {
    hide AddRow;
    if rows != [] {
      var n := |rows| - 1;
      RowsKeepKeys(m, rows[..n], widths, cutoff);
      RowKeepsKeys(AddRows(m, rows[..n], widths, cutoff), rows[n], widths, cutoff);
    }
  }

  lemma ChangedApplies(before: map<Key, Rollup>, after: map<Key, Rollup>)
    requires before.Keys <= after.Keys
    ensures before + Changed(before, after) == after
  {
  }

  lemma HotRowsSnoc(batches: seq<Batch>, batch: Batch)
    ensures HotRows(batches + [batch]) == HotRows(batches) + [batch.rows]
  {
  }

  lemma UnprovedInsert(receipts: map<string, Receipt>, id: string, receipt: Receipt)
    ensures Unproved(receipts[id := receipt]) == Unproved(receipts)[id := receipt.(proof := None)]
  {
  }

  /** What the plan of a request adds to its table. */
  lemma PlanAdds(sz: Sizes, s: State, item: Item, sequence: nat, ordinal: nat, proof: string)
    requires Ready(s) && item.table in s.tables && s.tables[item.table].config.Valid()
    ensures
      var p, t := Plan(sz, Look(s, item.table), item, sequence, ordinal, Some(proof)), s.tables[item.table];
      && p.table == item.table && p.id == item.id && p.batch.rows == Number(item.rows, sequence, ordinal)
      && p.receipt.(proof := None) == ReceiptOf(SchemaOf(sz, s), item, sequence)
      && t.rollups + p.updates == AddRows(t.rollups, Number(item.rows, sequence, ordinal), t.config.widths,
                                          t.rollupCutoff)
  {
    hide AddRows, Number, UpsertRollups, Upsert, UpsertDelta, RollupsDelta, RollupsResident, Changed;
    var t := s.tables[item.table];
    var after := AddRows(t.rollups, Number(item.rows, sequence, ordinal), t.config.widths, t.rollupCutoff);
    RowsKeepKeys(t.rollups, Number(item.rows, sequence, ordinal), t.config.widths, t.rollupCutoff);
    ChangedApplies(t.rollups, after);
  }

  lemma ViewElsewhere(s: State, p: Prepared, name: string)
    requires p.table in s.tables && name in s.tables && name != p.table
    ensures name in Apply(s, p).tables && View(Apply(s, p), name) == View(s, name)
  {
  }

  lemma ViewHere(s: State, p: Prepared)
    requires p.table in s.tables
    ensures var v := View(s, p.table);
      && p.table in Apply(s, p).tables
      && View(Apply(s, p), p.table) == Tab(v.cold, v.hot + [p.batch.rows],
                                           v.receipts[p.id := p.receipt.(proof := None)],
                                           v.rollups + p.updates, v.floor, v.keep)
  {
    hide SegmentRows, HotRows, Unproved;
    HotRowsSnoc(if p.table in s.hot then s.hot[p.table] else [], p.batch);
    UnprovedInsert(s.tables[p.table].receipts, p.id, p.receipt);
  }

  /** Admission asks of the table what the history model asks of a replayed request. */
  lemma AdmittedFresh(cfg: Config, sz: Sizes, s: State, item: Item, sequence: nat, ordinal: nat, proof: Option<string>,
                      busy: nat)
    requires Ready(s) && item.table in s.tables
    requires Admits(cfg, sz, Look(s, item.table), item, sequence, ordinal, proof, true, busy)
    ensures item.id !in View(s, item.table).receipts && AtOrAbove(SchemaOf(sz, s), item, View(s, item.table).floor)
    ensures Retained(item.rows, View(s, item.table).keep)
  {
    hide CapacityOk, HeadroomOk, Plan;
  }

  // ------------------------------------------------------------ a record

  /** The replay so far, seen table by table, is the record applied so far. */
  ghost predicate Refines(sz: Sizes, s: State, t: State, rec: Record, sequence: nat)
    requires Ready(s)
  {
    && Ready(t) && SchemaOf(sz, t) == SchemaOf(sz, s) && t.tables.Keys == s.tables.Keys
    && forall name <- s.tables :: RefinesAt(sz, s, t, rec, sequence, name)
  }

  ghost predicate RefinesAt(sz: Sizes, s: State, t: State, rec: Record, sequence: nat, name: string)
    requires Ready(s) && name in s.tables && name in t.tables
  {
    && View(t, name) == ApplyRecord(SchemaOf(sz, s), View(s, name), rec, name, sequence)
    && Replayable(SchemaOf(sz, s), View(s, name), rec, name)
  }

  /** An ID the replayed prefix left unused was unused before it and by it. */
  lemma UnusedSoFar(schema: Schema, t: Tab, rec: Record, name: string, sequence: nat, id: string)
    requires schema.Valid() && name in schema.tables && id !in ApplyRecord(schema, t, rec, name, sequence).receipts
    ensures id !in t.receipts && !UsesId(rec, name, id)
  {
    hide ApplyRecord, UsesId;
    ApplyRecordIs(schema, t, rec, name, sequence);
    ReceiptIn(schema, rec, name, sequence, id);
  }

  lemma SchemaSame(sz: Sizes, s: State, p: Prepared)
    requires p.table in s.tables
    ensures SchemaOf(sz, Apply(s, p)) == SchemaOf(sz, s)
  {
  }

  lemma SchemaValid(sz: Sizes, s: State)
    requires Ready(s)
    ensures SchemaOf(sz, s).Valid() && SchemaOf(sz, s).tables.Keys == s.tables.Keys
  {
  }

  /** One more replayed request, seen from one table. */
  lemma RefinesNext(cfg: Config, sz: Sizes, s: State, t: State, rec: Record, item: Item, sequence: nat, proof: string,
                    busy: nat, name: string)
    requires Ready(s) && Refines(sz, s, t, rec, sequence) && item.table in s.tables && name in s.tables
    requires Admits(cfg, sz, Look(t, item.table), item, sequence, RowsOf(rec), Some(proof), true, busy)
    ensures
      var u := Apply(t, Plan(sz, Look(t, item.table), item, sequence, RowsOf(rec), Some(proof)));
      name in u.tables && RefinesAt(sz, s, u, rec + [item], sequence, name)
  {
    hide Admits, Look, Plan, View, Apply, Number, AddRows;
    SchemaValid(sz, s);
    assert RefinesAt(sz, s, t, rec, sequence, name);
    assert SchemaOf(sz, t).tables[item.table] == t.tables[item.table].config;
    AdmitsValid(cfg, sz, Look(t, item.table), item, sequence, RowsOf(rec), Some(proof), true, busy);
    LookConfig(t, item.table);
    PlanAdds(sz, t, item, sequence, RowsOf(rec), proof);
    var p := Plan(sz, Look(t, item.table), item, sequence, RowsOf(rec), Some(proof));
    assert (rec + [item])[..|rec|] == rec;
    if name == item.table {
      ViewHere(t, p);
      AdmittedFresh(cfg, sz, t, item, sequence, RowsOf(rec), Some(proof), busy);
      UnusedSoFar(SchemaOf(sz, s), View(s, name), rec, name, sequence, item.id);
      ApplyRecordIs(SchemaOf(sz, s), View(s, name), rec, name, sequence);
      ViewRollups(t, name);
    } else {
      ViewElsewhere(t, p, name);
    }
  }

  lemma ViewRollups(s: State, name: string)
    requires name in s.tables
    ensures View(s, name).rollups == s.tables[name].rollups && View(s, name).keep.rollups == s.tables[name].rollupCutoff
  {
  }

  lemma LookConfig(s: State, name: string)
    requires name in s.tables && name in s.accounts
    ensures Look(s, name).config == s.tables[name].config && Look(s, name).rollups == s.tables[name].rollups
  {
  }

  lemma RefinesStep(cfg: Config, sz: Sizes, s: State, t: State, rec: Record, item: Item, sequence: nat, proof: string,
                    busy: nat, p: Prepared)
    requires Ready(s) && Ready(t) && Refines(sz, s, t, rec, sequence) && item.table in t.tables
    requires Look(t, item.table).config.Valid()
    requires Admits(cfg, sz, Look(t, item.table), item, sequence, RowsOf(rec), Some(proof), true, busy)
    requires p == Plan(sz, Look(t, item.table), item, sequence, RowsOf(rec), Some(proof)) && p.table == item.table
    ensures Refines(sz, s, Apply(t, p), rec + [item], sequence)
  {
    hide Admits, Look, Plan, Apply, Refines, RefinesAt, SchemaOf, RowsOf;
    RefinesParts(sz, s, t, rec, sequence);
    AppliedReady(t, p);
    SchemaSame(sz, t, p);
    forall name | name in s.tables ensures RefinesAt(sz, s, Apply(t, p), rec + [item], sequence, name) {
      RefinesNext(cfg, sz, s, t, rec, item, sequence, proof, busy, name);
    }
    RefinesFrom(sz, s, Apply(t, p), rec + [item], sequence);
  }

  /**
   * Replaying a group record in the engine does to every table what applying it in the history model
   * does, and admits only records that model calls replayable.
   */
  lemma {:induction false} ReplayRefines(cfg: Config, sz: Sizes, s: State, items: Record, sequence: nat, proof: string,
                                         busy: nat)
    requires Ready(s)
    ensures var r := ReplayItems(cfg, sz, s, items, sequence, proof, busy);
            r.Replay? ==> Refines(sz, s, r.state, items, sequence) && r.ordinal == RowsOf(items)
  {
    hide ReplayOne, Admits, Look, Plan, Apply, Refines, RowsOf, Ready;
    CountRows(items);
    if items == [] {
      NothingReplayed(sz, s, sequence);
    } else {
      var n := |items| - 1;
      ReplayRefines(cfg, sz, s, items[..n], sequence, proof, busy);
      var r, item := ReplayItems(cfg, sz, s, items[..n], sequence, proof, busy), items[n];
      ReplayFails(cfg, sz, r, item, sequence, proof, busy);
      if ReplayOne(cfg, sz, r, item, sequence, proof, busy).Replay? {
        RefinesParts(sz, s, r.state, items[..n], sequence);
        var p := ReplayedOne(cfg, sz, r, item, sequence, proof, busy);
        RefinesStep(cfg, sz, s, r.state, items[..n], item, sequence, proof, busy, p);
        assert items == items[..n] + [item];
      }
    }
  }

  lemma ReplayFails(cfg: Config, sz: Sizes, r: Replay, item: Item, sequence: nat, proof: string, busy: nat)
    ensures ReplayOne(cfg, sz, r, item, sequence, proof, busy).Replay? ==> r.Replay?
  {
  }

  /** A request replay accepts was admitted, and replaying it is applying its plan. */
  lemma ReplayedOne(cfg: Config, sz: Sizes, r: Replay, item: Item, sequence: nat, proof: string, busy: nat)
    returns (p: Prepared)
    requires r.Replay? && Ready(r.state) && ReplayOne(cfg, sz, r, item, sequence, proof, busy).Replay?
    ensures item.table in r.state.tables && Look(r.state, item.table).config.Valid()
    ensures Admits(cfg, sz, Look(r.state, item.table), item, sequence, r.ordinal, Some(proof), true, busy)
    ensures p == Plan(sz, Look(r.state, item.table), item, sequence, r.ordinal, Some(proof)) && p.table == item.table
    ensures ReplayOne(cfg, sz, r, item, sequence, proof, busy) == Replay(Apply(r.state, p), r.ordinal + |item.rows|)
  {
    hide Admits, Look, Plan, Install, Push, RecoveryOk, Apply;
    AdmitsValid(cfg, sz, Look(r.state, item.table), item, sequence, r.ordinal, Some(proof), true, busy);
    p := Plan(sz, Look(r.state, item.table), item, sequence, r.ordinal, Some(proof));
    PlanFor(sz, Look(r.state, item.table), item, sequence, r.ordinal, Some(proof));
    ReplayApplies(r.state, p);
  }

  lemma CountRows(items: seq<Item>)
    ensures items == [] ==> RowsOf(items) == 0
    ensures items != [] ==> RowsOf(items) == RowsOf(items[..|items| - 1]) + |items[|items| - 1].rows|
  {
  }

  lemma RefinesParts(sz: Sizes, s: State, t: State, rec: Record, sequence: nat)
    requires Ready(s) && Refines(sz, s, t, rec, sequence)
    ensures Ready(t) && SchemaOf(sz, t) == SchemaOf(sz, s) && t.tables.Keys == s.tables.Keys
  {
    hide RefinesAt, SchemaOf;
  }

  lemma RefinesFrom(sz: Sizes, s: State, t: State, rec: Record, sequence: nat)
    requires Ready(s) && Ready(t) && SchemaOf(sz, t) == SchemaOf(sz, s) && t.tables.Keys == s.tables.Keys
    requires forall name <- s.tables :: RefinesAt(sz, s, t, rec, sequence, name)
    ensures Refines(sz, s, t, rec, sequence)
  {
    hide RefinesAt, SchemaOf;
  }

  lemma NothingReplayed(sz: Sizes, s: State, sequence: nat)
    requires Ready(s)
    ensures Refines(sz, s, s, [], sequence)
  {
    hide View;
    SchemaValid(sz, s);
  }
}
