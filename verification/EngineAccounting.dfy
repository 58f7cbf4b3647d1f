/** The engine's running counters against recomputation from the catalog. */
module EngineAccounting {
  import opened Common
  import opened Rollup
  import opened Sums
  import opened Decimal
  import opened Engine
  import opened EngineReplay

  // ------------------------------------------------------------ encoded maps

  /** Bytes of a JSON object whose members take `sizes` bytes each. */
  ghost function Json<K>(sizes: map<K, nat>): (r: nat) {
    assert sizes != map[] ==> |sizes| > 0;
    2 + Sum(sizes) + if sizes == map[] then 0 else |sizes| - 1
  }

  lemma JsonUpsert<K>(m: map<K, nat>, k: K, v: nat)
    ensures Json(m[k := v]) == Json(m) + if k in m then v - m[k] else v + if m == map[] then 0 else 1
    ensures |m[k := v]| == |m| + if k in m then 0 else 1
  {
    SumUpdate(m, k, v);
    if k in m {
      assert m[k := v].Keys == m.Keys;
      assert |m[k := v]| == |m[k := v].Keys| && |m| == |m.Keys|;
    } else {
      MapInsertSize(m, k, v);
      assert |m| == |m.Keys|;
      assert m != map[] ==> |m| > 0;
    }
  }

  ghost function ReceiptSizes(sz: Sizes, m: map<string, Receipt>): (r: map<string, nat>) {
    map id | id in m :: sz.id(id) + 1 + sz.receipt(ShapeOf(m[id]))
  }

  ghost function RollupSizes(sz: Sizes, m: map<Key, Rollup>): (r: map<Key, nat>) {
    map key | key in m :: sz.key(key) + 1 + sz.rollup(key, m[key])
  }

  /** An account is exact in size and count, and bounds every entry. */
  ghost predicate Exact<K>(a: MapAccount, sizes: map<K, nat>) {
    && a.json == Json(sizes) && a.entries == |sizes|
    && forall k <- sizes :: sizes[k] + 2 <= a.maxEntry
  }

  lemma UpsertExact<K>(a: MapAccount, m: map<K, nat>, k: K, key: nat, value: nat, previous: Option<nat>)
    requires Exact(a, m)
    requires previous == if k in m then Some(m[k] - key - 1) else None
    requires k in m ==> m[k] >= key + 1
    ensures Exact(Upsert(a, key, value, previous), m[k := key + 1 + value])
    ensures Json(m[k := key + 1 + value]) == Json(m) + UpsertDelta(key, value, previous, m != map[])
  {
    JsonUpsert(m, k, key + 1 + value);
    assert m == map[] <==> |m| == 0;
  }

  // ------------------------------------------------------------ the rollup updates of one request

  /** `sizes` with the entries of `more` named in `keys`. */
  ghost function Over<K>(sizes: map<K, nat>, more: map<K, nat>, keys: seq<K>): (r: map<K, nat>)
    requires forall i :: 0 <= i < |keys| ==> keys[i] in more
  {
    if keys == [] then sizes else Over(sizes, more, keys[..|keys| - 1])[keys[|keys| - 1] := more[keys[|keys| - 1]]]
  }

  lemma {:induction false} OverAt<K>(sizes: map<K, nat>, more: map<K, nat>, keys: seq<K>, k: K)
    requires forall i :: 0 <= i < |keys| ==> keys[i] in more
    ensures k in Over(sizes, more, keys) <==> k in sizes || k in keys
    ensures k in keys ==> Over(sizes, more, keys)[k] == more[k]
    ensures k !in keys && k in sizes ==> Over(sizes, more, keys)[k] == sizes[k]
  {
    if keys != [] {
      OverAt(sizes, more, keys[..|keys| - 1], k);
      assert k in keys <==> k in keys[..|keys| - 1] || k == keys[|keys| - 1];
    }
  }

  lemma OverAll<K>(sizes: map<K, nat>, more: map<K, nat>, keys: seq<K>)
    requires (forall i :: 0 <= i < |keys| ==> keys[i] in more) && (forall k <- more :: k in keys)
    ensures Over(sizes, more, keys) == sizes + more
  {
    var r := Over(sizes, more, keys);
    forall k | k in r ensures k in sizes + more && r[k] == (sizes + more)[k] {
      OverAt(sizes, more, keys, k);
    }
    forall k | k in sizes + more ensures k in r {
      OverAt(sizes, more, keys, k);
    }
  }

  lemma OverNonempty<K>(sizes: map<K, nat>, more: map<K, nat>, keys: seq<K>)
    requires forall i :: 0 <= i < |keys| ==> keys[i] in more
    ensures Over(sizes, more, keys) != map[] <==> sizes != map[] || keys != []
  {
    if sizes != map[] {
      var k :| k in sizes;
      OverAt(sizes, more, keys, k);
    } else if keys != [] {
      OverAt(sizes, more, keys, keys[0]);
    }
  }

  lemma {:induction false} UpsertsExact(sz: Sizes, a: MapAccount, before: map<Key, Rollup>, updates: map<Key, Rollup>,
                                        keys: seq<Key>)
    requires Exact(a, RollupSizes(sz, before))
    requires forall i :: 0 <= i < |keys| ==> keys[i] in updates
    requires forall i, j :: 0 <= i < j < |keys| ==> keys[i] != keys[j]
    ensures var sizes := Over(RollupSizes(sz, before), RollupSizes(sz, updates), keys);
            && Exact(UpsertRollups(sz, a, before, updates, keys), sizes)
            && Json(sizes) == Json(RollupSizes(sz, before)) + RollupsDelta(sz, before != map[], before, updates, keys)
  {
    hide Exact, Json, Upsert, UpsertDelta;
    if keys != [] {
      var n := |keys| - 1;
      var key := keys[n];
      UpsertsExact(sz, a, before, updates, keys[..n]);
      var sizes := Over(RollupSizes(sz, before), RollupSizes(sz, updates), keys[..n]);
      assert key !in keys[..n];
      OverAt(RollupSizes(sz, before), RollupSizes(sz, updates), keys[..n], key);
      OverNonempty(RollupSizes(sz, before), RollupSizes(sz, updates), keys[..n]);
      SizesNonempty(sz, before);
      UpsertExact(UpsertRollups(sz, a, before, updates, keys[..n]), sizes, key,
                  sz.key(key), sz.rollup(key, updates[key]), PreviousSize(sz, before, key));
    }
  }

  lemma SizesNonempty(sz: Sizes, m: map<Key, Rollup>)
    ensures RollupSizes(sz, m) != map[] <==> m != map[]
  {
    if m != map[] {
      var k :| k in m;
      assert k in RollupSizes(sz, m);
    }
  }

  /** Projecting every touched rollup gives the account and the size of the updated map. */
  lemma ProjectionExact(sz: Sizes, a: MapAccount, before: map<Key, Rollup>, updates: map<Key, Rollup>)
    requires Exact(a, RollupSizes(sz, before))
    ensures Exact(UpsertRollups(sz, a, before, updates, Listing(updates)), RollupSizes(sz, before + updates))
    ensures Json(RollupSizes(sz, before + updates))
         == Json(RollupSizes(sz, before)) + RollupsDelta(sz, before != map[], before, updates, Listing(updates))
  {
    hide Exact, Json, UpsertRollups, RollupsDelta, Over, RollupSizes, Listing;
    var keys := Listing(updates);
    SizesUnion(sz, before, updates);
    UpsertsExact(sz, a, before, updates, keys);
    OverAll(RollupSizes(sz, before), RollupSizes(sz, updates), keys);
  }

  lemma SizesUnion(sz: Sizes, a: map<Key, Rollup>, b: map<Key, Rollup>)
    ensures RollupSizes(sz, a + b) == RollupSizes(sz, a) + RollupSizes(sz, b)
    ensures RollupSizes(sz, b).Keys == b.Keys
  {
  }

  // ------------------------------------------------------------ resident bytes of the updates

  ghost function ReceiptResidents(sz: Sizes, m: map<string, Receipt>): (r: map<string, nat>) {
    map id | id in m :: sz.receiptResident(id, ShapeOf(m[id]))
  }

  ghost function RollupResidents(sz: Sizes, keys: set<Key>): (r: map<Key, nat>) {
    map key | key in keys :: sz.rollupResident(key) + sz.indexEntry(key)
  }

  lemma {:induction false} ResidentsOver(sz: Sizes, before: map<Key, Rollup>, updates: map<Key, Rollup>, keys: seq<Key>)
    requires forall i :: 0 <= i < |keys| ==> keys[i] in updates
    requires forall i, j :: 0 <= i < j < |keys| ==> keys[i] != keys[j]
    ensures Sum(Over(RollupResidents(sz, before.Keys), RollupResidents(sz, updates.Keys), keys))
         == Sum(RollupResidents(sz, before.Keys)) + RollupsResident(sz, before, keys)
  {
    hide Sum;
    if keys != [] {
      var n := |keys| - 1;
      var key := keys[n];
      var was, more := RollupResidents(sz, before.Keys), RollupResidents(sz, updates.Keys);
      ResidentsOver(sz, before, updates, keys[..n]);
      assert key !in keys[..n];
      OverAt(was, more, keys[..n], key);
      SumUpdate(Over(was, more, keys[..n]), key, more[key]);
    }
  }

  /** New groups add their own resident bytes; rewritten ones add nothing. */
  lemma ResidentsGrow(sz: Sizes, before: map<Key, Rollup>, updates: map<Key, Rollup>, keys: seq<Key>)
    requires (forall i :: 0 <= i < |keys| ==> keys[i] in updates) && (forall k <- updates :: k in keys)
    requires forall i, j :: 0 <= i < j < |keys| ==> keys[i] != keys[j]
    ensures Sum(RollupResidents(sz, (before + updates).Keys))
         == Sum(RollupResidents(sz, before.Keys)) + RollupsResident(sz, before, keys)
  {
    hide Sum, Over, RollupsResident, RollupResidents;
    ResidentsUnion(sz, before.Keys, updates.Keys);
    ResidentsOver(sz, before, updates, keys);
    OverAll(RollupResidents(sz, before.Keys), RollupResidents(sz, updates.Keys), keys);
    assert (before + updates).Keys == before.Keys + updates.Keys;
  }

  lemma ResidentsUnion(sz: Sizes, a: set<Key>, b: set<Key>)
    ensures RollupResidents(sz, a + b) == RollupResidents(sz, a) + RollupResidents(sz, b)
    ensures RollupResidents(sz, b).Keys == b
  {
  }

  // ------------------------------------------------------------ one table, then the state

  /** Encoded bytes of the parts of a table that appends and checkpoints change. */
  ghost function TableJson(sz: Sizes, c: Codec, t: Table): (r: nat) {
    Json(ReceiptSizes(sz, t.receipts)) + Json(RollupSizes(sz, t.rollups)) + SegmentsJson(c, t.segments)
        + c.floor(t.floor)
  }

  /** Sizes of the remaining table parts and of everything else in the manifest. */
  datatype Codec = Codec(segment: Segment -> nat, floor: Option<int> -> nat, rest: nat)

  /** A JSON array of segment descriptors. */
  function SegmentsJson(c: Codec, segments: seq<Segment>): (r: nat) {
    if segments == [] then 2
    else
      var n := |segments| - 1;
      SegmentsJson(c, segments[..n]) + c.segment(segments[n]) + if n > 0 then 1 else 0
  }

  ghost function TableResident(sz: Sizes, t: Table): (r: nat) {
    Sum(ReceiptResidents(sz, t.receipts)) + Sum(RollupResidents(sz, t.rollups.Keys))
  }

  function BatchBytes(batches: seq<Batch>): (r: nat) {
    if batches == [] then 0 else BatchBytes(batches[..|batches| - 1]) + batches[|batches| - 1].bytes
  }

  ghost function HotByteCounts(hot: map<string, seq<Batch>>): (r: map<string, nat>) {
    map name | name in hot :: BatchBytes(hot[name])
  }

  ghost function TableJsons(sz: Sizes, c: Codec, tables: map<string, Table>): (r: map<string, nat>) {
    map name | name in tables :: TableJson(sz, c, tables[name])
  }

  ghost function TableResidents(sz: Sizes, tables: map<string, Table>): (r: map<string, nat>) {
    map name | name in tables :: TableResident(sz, tables[name])
  }

  /** `logical_metadata_bytes`: the manifest's JSON and its frame. */
  ghost function Logical(sz: Sizes, c: Codec, tables: map<string, Table>, checkpoint: nat): (r: nat) {
    40 + c.rest + Sum(TableJsons(sz, c, tables)) + Digits(checkpoint)
  }

  ghost predicate TableOk(sz: Sizes, name: string, t: Table, a: TableAccount) {
    && Exact(a.receipts, ReceiptSizes(sz, t.receipts)) && Exact(a.rollups, RollupSizes(sz, t.rollups))
    && Bounds(a.root, a.encoded, a.oversized) == sz.bound(name, a.rollups, a.receipts)
  }

  /** Every running counter equals what recomputing it from the state would give. */
  ghost predicate Accounted(sz: Sizes, c: Codec, s: State) {
    && Ready(s)
    && (forall name :: name in s.tables ==> TableOk(sz, name, s.tables[name], s.accounts[name]))
    && s.metadata == Logical(sz, c, s.tables, s.checkpoint)
    && s.resident == Sum(TableResidents(sz, s.tables))
    && s.hotBytes == Sum(HotByteCounts(s.hot))
  }

  lemma JsonChanged(sz: Sizes, c: Codec, tables: map<string, Table>, name: string, t: Table)
    requires name in tables
    ensures Sum(TableJsons(sz, c, tables[name := t])) + TableJson(sz, c, tables[name])
      == Sum(TableJsons(sz, c, tables)) + TableJson(sz, c, t)
  {
    hide TableJson, Sum;
    SumUpdate(TableJsons(sz, c, tables), name, TableJson(sz, c, t));
    assert TableJsons(sz, c, tables[name := t]) == TableJsons(sz, c, tables)[name := TableJson(sz, c, t)];
  }

  lemma ResidentChanged(sz: Sizes, tables: map<string, Table>, name: string, t: Table)
    requires name in tables
    ensures Sum(TableResidents(sz, tables[name := t])) + TableResident(sz, tables[name])
      == Sum(TableResidents(sz, tables)) + TableResident(sz, t)
  {
    hide TableResident, Sum;
    SumUpdate(TableResidents(sz, tables), name, TableResident(sz, t));
    assert TableResidents(sz, tables[name := t]) == TableResidents(sz, tables)[name := TableResident(sz, t)];
  }

  lemma HotBytesGrow(hot: map<string, seq<Batch>>, name: string, batch: Batch)
    ensures Sum(HotByteCounts(AddBatch(hot, name, batch))) == Sum(HotByteCounts(hot)) + batch.bytes
  {
    hide Sum;
    var was := if name in hot then hot[name] else [];
    assert (was + [batch])[..|was|] == was;
    SumUpdate(HotByteCounts(hot), name, BatchBytes(was) + batch.bytes);
    assert HotByteCounts(AddBatch(hot, name, batch)) == HotByteCounts(hot)[name := BatchBytes(was) + batch.bytes];
  }

  /** A new receipt's effect on its map's size, account and resident bytes. */
  lemma ReceiptExact(sz: Sizes, a: MapAccount, m: map<string, Receipt>, id: string, receipt: Receipt)
    requires Exact(a, ReceiptSizes(sz, m)) && id !in m
    ensures var key, value := sz.id(id), sz.receipt(ShapeOf(receipt));
            && Exact(Upsert(a, key, value, None), ReceiptSizes(sz, m[id := receipt]))
            && Json(ReceiptSizes(sz, m[id := receipt]))
                  == Json(ReceiptSizes(sz, m)) + UpsertDelta(key, value, None, m.Keys != {})
            && Sum(ReceiptResidents(sz, m[id := receipt]))
                  == Sum(ReceiptResidents(sz, m)) + sz.receiptResident(id, ShapeOf(receipt))
  {
    hide Exact, Json, Upsert, UpsertDelta, Sum;
    var sizes := ReceiptSizes(sz, m);
    UpsertExact(a, sizes, id, sz.id(id), sz.receipt(ShapeOf(receipt)), None);
    assert ReceiptSizes(sz, m[id := receipt]) == sizes[id := sz.id(id) + 1 + sz.receipt(ShapeOf(receipt))];
    SumUpdate(ReceiptResidents(sz, m), id, sz.receiptResident(id, ShapeOf(receipt)));
    assert ReceiptResidents(sz, m[id := receipt])
        == ReceiptResidents(sz, m)[id := sz.receiptResident(id, ShapeOf(receipt))];
    assert sizes.Keys == m.Keys;
    assert sizes == map[] <==> sizes.Keys == {};
  }

  /** The plan of a request accounts exactly for the table that receives it. */
  lemma ReceiveExact(sz: Sizes, c: Codec, s: State, item: Item, sequence: nat, ordinal: nat, proof: Option<string>)
    requires Ready(s) && item.table in s.tables && TableOk(sz, item.table, s.tables[item.table], s.accounts[item.table])
    requires item.id !in s.tables[item.table].receipts
    ensures var t, v := s.tables[item.table], Look(s, item.table);
            var p := Plan(sz, v, item, sequence, ordinal, proof);
            && TableOk(sz, item.table, Receive(t, p), p.account)
            && TableJson(sz, c, Receive(t, p)) - TableJson(sz, c, t) == p.metadata - s.metadata
            && TableResident(sz, Receive(t, p)) - TableResident(sz, t) == p.resident - s.resident
  {
    hide Exact, Json, Upsert, UpsertDelta, UpsertRollups, RollupsDelta, RollupsResident, Sum, UpdatesOf, Listing,
      HotCounts, ReceiptCounts, GroupCounts, TotalsOf, RollupSizes, ReceiptSizes, RollupResidents, ReceiptResidents,
          Number;
    var t, v, a := s.tables[item.table], Look(s, item.table), s.accounts[item.table];
    var p := Plan(sz, v, item, sequence, ordinal, proof);
    ReceiptExact(sz, a.receipts, t.receipts, item.id, p.receipt);
    ProjectionExact(sz, a.rollups, t.rollups, p.updates);
    ResidentsGrow(sz, t.rollups, p.updates, Listing(p.updates));
  }

  lemma AppliedOk(sz: Sizes, s: State, p: Prepared)
    requires Ready(s) && p.table in s.tables
    requires forall name :: name in s.tables ==> TableOk(sz, name, s.tables[name], s.accounts[name])
    requires TableOk(sz, p.table, Receive(s.tables[p.table], p), p.account)
    ensures var n := Apply(s, p); Ready(n) && forall name :: name in n.tables ==>
      TableOk(sz, name, n.tables[name], n.accounts[name])
  {
    hide TableOk, Receive, AddBatch;
    AppliedReady(s, p);
  }

  /**
   * Appending keeps every counter equal to its recomputation: metadata bytes, map sizes, counts, bounds,
   * resident and hot bytes.
   */
  lemma AppendKeepsAccounts(cfg: Config, sz: Sizes, c: Codec, s: State, item: Item, sequence: nat, ordinal: nat,
                            proof: Option<string>, replaying: bool, busy: nat)
    requires Accounted(sz, c, s) && item.table in s.tables
    requires Admits(cfg, sz, Look(s, item.table), item, sequence, ordinal, proof, replaying, busy)
    ensures Accounted(sz, c, Apply(s, Plan(sz, Look(s, item.table), item, sequence, ordinal, proof)))
  {
    hide Admits, TableOk, TableJson, TableResident, Plan, Sum, HotByteCounts, TableJsons, TableResidents, AddBatch,
      Look;
    var v := Look(s, item.table);
    AdmitsValid(cfg, sz, v, item, sequence, ordinal, proof, replaying, busy);
    LookIds(s, item.table);
    var p := Plan(sz, v, item, sequence, ordinal, proof);
    PlanFor(sz, v, item, sequence, ordinal, proof);
    PlanBatch(sz, v, item, sequence, ordinal, proof);
    var t := s.tables[item.table];
    assert TableOk(sz, item.table, t, s.accounts[item.table]);
    ReceiveExact(sz, c, s, item, sequence, ordinal, proof);
    AppliedOk(sz, s, p);
    JsonChanged(sz, c, s.tables, item.table, Receive(t, p));
    ResidentChanged(sz, s.tables, item.table, Receive(t, p));
    HotBytesGrow(s.hot, item.table, p.batch);
  }

  lemma PlanBatch(sz: Sizes, v: Sight, item: Item, sequence: nat, ordinal: nat, proof: Option<string>)
    requires v.config.Valid()
    ensures var p := Plan(sz, v, item, sequence, ordinal, proof); p.batch.bytes == p.bytes
  {
  }

  /** Replaying a record, and so installing a staged group, keeps every counter exact. */
  lemma {:induction false} GroupKeepsAccounts(cfg: Config, sz: Sizes, c: Codec, s: State, items: seq<Item>,
                                              sequence: nat, proof: string, busy: nat)
    requires Accounted(sz, c, s)
    ensures var r := ReplayItems(cfg, sz, s, items, sequence, proof, busy); r.Replay? ==> Accounted(sz, c, r.state)
  {
    hide Admits, Plan, Look, Install, Push, Accounted, RecoveryOk, Apply;
    if items != [] {
      var n := |items| - 1;
      GroupKeepsAccounts(cfg, sz, c, s, items[..n], sequence, proof, busy);
      var r, item := ReplayItems(cfg, sz, s, items[..n], sequence, proof, busy), items[n];
      if ReplayOne(cfg, sz, r, item, sequence, proof, busy).Replay? {
        AccountedReady(sz, c, r.state);
        AppendKeepsAccounts(cfg, sz, c, r.state, item, sequence, r.ordinal, Some(proof), true, busy);
        AdmitsValid(cfg, sz, Look(r.state, item.table), item, sequence, r.ordinal, Some(proof), true, busy);
        PlanFor(sz, Look(r.state, item.table), item, sequence, r.ordinal, Some(proof));
        ReplayApplies(r.state, Plan(sz, Look(r.state, item.table), item, sequence, r.ordinal, Some(proof)));
      }
    }
  }

  lemma AccountedReady(sz: Sizes, c: Codec, s: State)
    requires Accounted(sz, c, s)
    ensures Ready(s)
  {
  }
}
