/**
 * Appending to the engine's state: the checks and projections of one request, the private overlay
 * a group is staged in, its installation, and the replay of the record it was published as.
 */
module Engine {
  import opened Common
  import opened Rollup
  import opened Sums
  import Decimal

  const U32_MAX: nat := 0xFFFF_FFFF

  datatype TableConfig = TableConfig(window: int, widths: seq<int>, idWindow: Option<int>, lateAfter: Option<int>) {
    predicate Valid() {
      && window > 0 && Widths(widths)
      && (idWindow.Some? ==> idWindow.value > 0)
    }
  }

  /** A committed request: its record, its row count, its content digest and its group's proof. */
  datatype Receipt = Receipt(sequence: nat, rows: nat, digest: string, issued: Option<int>, proof: Option<string>)

  /** A published segment file and the rows it holds. */
  datatype Segment = Segment(id: string, rows: seq<Stored>)

  datatype Table = Table(
    config: TableConfig,
    segments: seq<Segment>,
    receipts: map<string, Receipt>,
    rollups: map<Key, Rollup>,
    cutoff: Option<int>,
    rollupCutoff: Cut,
    floor: Option<int>)

  /** Encoded size, entry count and a bound on the largest entry of one map. */
  datatype MapAccount = MapAccount(json: int, entries: nat, maxEntry: nat)

  datatype TableAccount = TableAccount(rollups: MapAccount, receipts: MapAccount, root: nat, encoded: nat,
                                       oversized: nat)

  /** Rows of one accepted request, resident until a checkpoint retires them. */
  datatype Batch = Batch(rows: seq<Stored>, bytes: nat)

  datatype State = State(
    tables: map<string, Table>,
    checkpoint: nat,
    sequence: nat,
    generation: nat,
    hot: map<string, seq<Batch>>,
    hotBytes: nat,
    metadata: int,
    resident: int,
    accounts: map<string, TableAccount>,
    floors: map<string, int>,
    controlBase: int,
    pages: bool)

  datatype Item = Item(table: string, id: string, digest: string, rows: seq<Row>, now: int)

  datatype Config = Config(
    maxBatchRows: nat, maxBatchBytes: nat, hotMaxRows: nat, hotMaxBytes: nat, maxIds: nat, maxGroups: nat,
    metadataMax: nat, derivedMax: nat, pageBytes: nat, derivedPages: bool)

  /** What of a receipt its encoded and resident sizes depend on. */
  datatype Shape = Shape(sequence: nat, rows: nat, digest: string, issued: Option<int>, proof: Option<nat>)

  function ShapeOf(r: Receipt): (s: Shape) {
    Shape(r.sequence, r.rows, r.digest, r.issued, if r.proof.Some? then Some(|r.proof.value|) else None)
  }

  /** Serialized and resident sizes, the request-ID syntax and the page bounds, as the codecs give them. */
  datatype Sizes = Sizes(
    item: Item -> nat,
    hotBytes: seq<Row> -> nat,
    id: string -> nat,
    receipt: Shape -> nat,
    key: Key -> nat,
    rollup: (Key, Rollup) -> nat,
    receiptResident: (string, Shape) -> nat,
    rollupResident: Key -> nat,
    indexEntry: Key -> nat,
    updateCost: (TableConfig, Cut, seq<Row>) -> nat,
    issued: string -> Option<int>,
    bound: (string, MapAccount, MapAccount) -> Bounds,
    fits: (string, MapAccount, MapAccount) -> bool)

  datatype Bounds = Bounds(root: nat, encoded: nat, oversized: nat)

  // ------------------------------------------------------------ counts over the whole state

  ghost function ReceiptCounts(tables: map<string, Table>): (r: map<string, nat>) {
    map name | name in tables :: |tables[name].receipts|
  }

  ghost function GroupCounts(tables: map<string, Table>): (r: map<string, nat>) {
    map name | name in tables :: |tables[name].rollups|
  }

  function BatchRows(batches: seq<Batch>): (r: nat) {
    if batches == [] then 0 else BatchRows(batches[..|batches| - 1]) + |batches[|batches| - 1].rows|
  }

  ghost function HotCounts(hot: map<string, seq<Batch>>): (r: map<string, nat>) {
    map name | name in hot :: BatchRows(hot[name])
  }

  datatype Totals = Totals(root: nat, encoded: nat, oversized: nat)

  ghost function Roots(accounts: map<string, TableAccount>): (r: map<string, nat>) {
    map name | name in accounts :: accounts[name].root
  }

  ghost function Encodeds(accounts: map<string, TableAccount>): (r: map<string, nat>) {
    map name | name in accounts :: accounts[name].encoded
  }

  ghost function Oversizeds(accounts: map<string, TableAccount>): (r: map<string, nat>) {
    map name | name in accounts :: accounts[name].oversized
  }

  ghost function TotalsOf(accounts: map<string, TableAccount>): (r: Totals) {
    Totals(Sum(Roots(accounts)), Sum(Encodeds(accounts)), Sum(Oversizeds(accounts)))
  }

  // ------------------------------------------------------------ what one request's preparation sees

  /** Everything preparing a request for one table looks at. */
  datatype Sight = Sight(
    config: TableConfig, ids: set<string>, rollups: map<Key, Rollup>, cutoff: Option<int>, rollupCutoff: Cut,
    floor: Option<int>, account: TableAccount, checkpoint: nat, hotBytes: nat, hotRows: nat, receipts: nat,
    groups: nat, metadata: int, resident: int, totals: Totals, controlBase: int, pages: bool)

  /** The committed state as preparation sees it. */
  ghost function Look(s: State, name: string): (r: Sight)
    requires name in s.tables && name in s.accounts
  {
    var t := s.tables[name];
    Sight(t.config, t.receipts.Keys, t.rollups, t.cutoff, t.rollupCutoff, t.floor, s.accounts[name], s.checkpoint,
          s.hotBytes, Sum(HotCounts(s.hot)), Sum(ReceiptCounts(s.tables)), Sum(GroupCounts(s.tables)),
          s.metadata, s.resident, TotalsOf(s.accounts), s.controlBase, s.pages)
  }

  // ------------------------------------------------------------ checks and projections of one request

  datatype Prepared = Prepared(
    table: string, id: string, receipt: Receipt, updates: map<Key, Rollup>, bytes: nat, metadata: int,
    account: TableAccount, resident: int, batch: Batch)

  /** The touched rollups of a request: every touch raises the count, so they are the changed ones. */
  ghost function Changed(before: map<Key, Rollup>, after: map<Key, Rollup>): (r: map<Key, Rollup>) {
    map key | key in after && (key !in before || before[key] != after[key]) :: after[key]
  }

  ghost function UpdatesOf(v: Sight, rows: seq<Row>, sequence: nat, ordinal: nat): (r: map<Key, Rollup>)
    requires v.config.Valid()
  {
    Changed(v.rollups, AddRows(v.rollups, Number(rows, sequence, ordinal), v.config.widths, v.rollupCutoff))
  }

  /** Encoded-size change of one map upsert. */
  function UpsertDelta(key: nat, value: nat, previous: Option<nat>, nonempty: bool): (r: int) {
    match previous
    case Some(old_) => value - old_
    case None => key + value + 1 + if nonempty then 1 else 0
  }

  function Upsert(a: MapAccount, key: nat, value: nat, previous: Option<nat>): (r: MapAccount) {
    MapAccount(a.json + UpsertDelta(key, value, previous, a.entries > 0),
               a.entries + (if previous.None? then 1 else 0),
               if key + value + 3 > a.maxEntry then key + value + 3 else a.maxEntry)
  }

  function PreviousSize(sz: Sizes, before: map<Key, Rollup>, key: Key): (r: Option<nat>) {
    if key in before then Some(sz.rollup(key, before[key])) else None
  }

  /** The rollup account after the updates named in `keys`, in that order. */
  function UpsertRollups(sz: Sizes, a: MapAccount, before: map<Key, Rollup>, updates: map<Key, Rollup>,
                         keys: seq<Key>): (r: MapAccount)
    requires forall i :: 0 <= i < |keys| ==> keys[i] in updates
  {
    if keys == [] then a
    else
      var n := |keys| - 1;
      var key := keys[n];
      Upsert(UpsertRollups(sz, a, before, updates, keys[..n]), sz.key(key), sz.rollup(key, updates[key]),
             PreviousSize(sz, before, key))
  }

  /** The metadata delta of the same updates; `nonempty` turns true with the first of them. */
  function RollupsDelta(sz: Sizes, nonempty: bool, before: map<Key, Rollup>, updates: map<Key, Rollup>,
                        keys: seq<Key>): (r: int)
    requires forall i :: 0 <= i < |keys| ==> keys[i] in updates
  {
    if keys == [] then 0
    else
      var n := |keys| - 1;
      var key := keys[n];
      RollupsDelta(sz, nonempty, before, updates, keys[..n])
      + UpsertDelta(sz.key(key), sz.rollup(key, updates[key]), PreviousSize(sz, before, key), nonempty || n > 0)
  }

  function RollupsResident(sz: Sizes, before: map<Key, Rollup>, keys: seq<Key>): (r: nat) {
    if keys == [] then 0
    else
      var n := |keys| - 1;
      RollupsResident(sz, before, keys[..n]) + if keys[n] in before then 0
          else sz.indexEntry(keys[n]) + sz.rollupResident(keys[n])
  }

  function RollupsWorking(sz: Sizes, keys: seq<Key>): (r: nat) {
    if keys == [] then 0 else RollupsWorking(sz, keys[..|keys| - 1]) + 2 * sz.rollupResident(keys[|keys| - 1])
  }

  function ReceiptFor(sz: Sizes, v: Sight, item: Item, sequence: nat, proof: Option<string>): (r: Receipt) {
    Receipt(sequence, |item.rows|, item.digest, if v.config.idWindow.Some? then sz.issued(item.id) else None, proof)
  }

  ghost function Plan(sz: Sizes, v: Sight, item: Item, sequence: nat, ordinal: nat,
                      proof: Option<string>): (r: Prepared)
    requires v.config.Valid()
    ensures r.receipt.proof == proof && r.receipt.sequence == sequence
  {
    var receipt := ReceiptFor(sz, v, item, sequence, proof);
    var shape := ShapeOf(receipt);
    var updates := UpdatesOf(v, item.rows, sequence, ordinal);
    var keys := Listing(updates);
    var receipts := Upsert(v.account.receipts, sz.id(item.id), sz.receipt(shape), None);
    var rollups := UpsertRollups(sz, v.account.rollups, v.rollups, updates, keys);
    var bounds := sz.bound(item.table, rollups, receipts);
    Prepared(
      item.table, item.id, receipt, updates, sz.hotBytes(item.rows),
      v.metadata + UpsertDelta(sz.id(item.id), sz.receipt(shape), None, v.ids != {})
        + RollupsDelta(sz, v.rollups != map[], v.rollups, updates, keys),
      TableAccount(rollups, receipts, bounds.root, bounds.encoded, bounds.oversized),
      v.resident + sz.receiptResident(item.id, shape) + RollupsResident(sz, v.rollups, keys),
      Batch(Number(item.rows, sequence, ordinal), sz.hotBytes(item.rows)))
  }

  function SequenceDelta(previous: nat, next: nat): (r: int) {
    Decimal.Digits(next) - Decimal.Digits(previous)
  }

  /** Checks of the request against its table. */
  ghost predicate RequestOk(cfg: Config, sz: Sizes, v: Sight, item: Item, ordinal: nat) {
    && v.config.Valid()
    && 0 < |item.rows| <= cfg.maxBatchRows && ordinal + |item.rows| <= U32_MAX && sz.item(item) <= cfg.maxBatchBytes
    && item.id !in v.ids
    && (v.config.idWindow.Some? ==>
          sz.issued(item.id).Some? && (v.floor.Some? ==> sz.issued(item.id).value >= v.floor.value))
    && (forall i :: 0 <= i < |item.rows| ==>
          && WindowStart(item.rows[i].time, v.config.window) >= I64_MIN
          && (v.cutoff.Some? ==> item.rows[i].time >= v.cutoff.value))
    && InRange(item.rows, v.config.widths)
  }

  /** Capacity checks that hold live and on replay alike. */
  ghost predicate CapacityOk(cfg: Config, sz: Sizes, v: Sight, item: Item, sequence: nat, p: Prepared, busy: nat) {
    var rows := v.hotRows + |item.rows|;
    var paged := v.pages || cfg.derivedPages;
    && v.hotBytes + p.bytes <= cfg.hotMaxBytes && rows <= cfg.hotMaxRows
    && v.receipts < cfg.maxIds
    && sz.updateCost(v.config, v.rollupCutoff, item.rows) <= (if paged then cfg.derivedMax else cfg.metadataMax)
    && v.groups + |p.updates.Keys - v.rollups.Keys| <= cfg.maxGroups
    && p.metadata >= 0
    && (!paged ==> p.metadata + SequenceDelta(v.checkpoint, sequence) + rows * 512 <= cfg.metadataMax)
    && p.resident + sz.receiptResident(item.id, ShapeOf(p.receipt)) + RollupsWorking(sz, Listing(p.updates))
          + busy <= cfg.derivedMax
  }

  /** Headroom for a later checkpoint, asked of live requests only. */
  ghost predicate HeadroomOk(cfg: Config, sz: Sizes, v: Sight, item: Item, p: Prepared) {
    var rows := v.hotRows + |item.rows|;
    var paged := v.pages || cfg.derivedPages;
    && 2 * p.resident + (if paged then 4 * cfg.pageBytes else 0) <= cfg.derivedMax
    && (paged ==>
          && sz.fits(item.table, p.account.rollups, p.account.receipts)
          && v.totals.oversized - v.account.oversized + p.account.oversized == 0
          && v.totals.encoded - v.account.encoded + p.account.encoded <= cfg.derivedMax
          && p.resident + 64 * cfg.pageBytes <= cfg.derivedMax
          && v.controlBase + v.totals.root - v.account.root + p.account.root + 20 + rows * 512 <= cfg.metadataMax)
  }

  ghost predicate Admits(cfg: Config, sz: Sizes, v: Sight, item: Item, sequence: nat, ordinal: nat,
                         proof: Option<string>,
                         replaying: bool, busy: nat)
  {
    && RequestOk(cfg, sz, v, item, ordinal)
    && var p := Plan(sz, v, item, sequence, ordinal, proof);
       CapacityOk(cfg, sz, v, item, sequence, p, busy) && (!replaying ==> HeadroomOk(cfg, sz, v, item, p))
  }

  // ------------------------------------------------------------ the overlay

  datatype Touched = Touched(receipts: map<string, Receipt>, rollups: map<Key, Rollup>, account: TableAccount)

  /** A group's private changes over an immutable base. */
  datatype Delta = Delta(
    tables: map<string, Touched>, batches: seq<(string, Batch)>, floors: map<string, int>, hotBytes: nat, hotRows: nat,
    receipts: nat, groups: nat, metadata: int, resident: int, totals: Totals)

  ghost function Fresh(s: State): (d: Delta) {
    Delta(map[], [], map[], s.hotBytes, Sum(HotCounts(s.hot)), Sum(ReceiptCounts(s.tables)), Sum(GroupCounts(s.tables)),
          s.metadata, s.resident, TotalsOf(s.accounts))
  }

  /** A table's private changes so far. */
  function TouchedOf(s: State, d: Delta, name: string): (r: Touched)
    requires name in s.accounts
  {
    if name in d.tables then d.tables[name] else Touched(map[], map[], s.accounts[name])
  }

  /** The base seen through the overlay. */
  ghost function LookThrough(s: State, d: Delta, name: string): (r: Sight)
    requires name in s.tables && name in s.accounts
  {
    var t, over := s.tables[name], TouchedOf(s, d, name);
    Sight(t.config, t.receipts.Keys + over.receipts.Keys, t.rollups + over.rollups, t.cutoff, t.rollupCutoff, t.floor,
          over.account, s.checkpoint, d.hotBytes, d.hotRows, d.receipts, d.groups, d.metadata, d.resident, d.totals,
          s.controlBase, s.pages)
  }

  /** A table's private changes with one more request. */
  function Stack(t: Touched, p: Prepared): (r: Touched) {
    Touched(t.receipts[p.id := p.receipt], t.rollups + p.updates, p.account)
  }

  ghost function Push(s: State, d: Delta, p: Prepared): (r: Delta)
    requires p.table in s.tables && p.table in s.accounts
  {
    var over := TouchedOf(s, d, p.table);
    d.(tables := d.tables[p.table := Stack(over, p)], batches := d.batches + [(p.table, p.batch)],
       hotBytes := d.hotBytes + p.bytes, hotRows := d.hotRows + |p.batch.rows|, receipts := d.receipts + 1,
       groups := d.groups + |p.updates.Keys - (s.tables[p.table].rollups + over.rollups).Keys|,
       metadata := p.metadata, resident := p.resident, totals := Replaced(d.totals, over.account, p.account))
  }

  /** Totals after one table's account is exchanged. */
  function Replaced(t: Totals, was: TableAccount, now: TableAccount): (r: Totals) {
    Totals(Less(t.root, was.root) + now.root, Less(t.encoded, was.encoded) + now.encoded,
           Less(t.oversized, was.oversized) + now.oversized)
  }

  function Less(a: nat, b: nat): (r: nat) {
    if b <= a then a - b else 0
  }

  function AddBatch(hot: map<string, seq<Batch>>, name: string, batch: Batch): (r: map<string, seq<Batch>>) {
    hot[name := (if name in hot then hot[name] else []) + [batch]]
  }

  function AddBatches(hot: map<string, seq<Batch>>, batches: seq<(string, Batch)>): (r: map<string, seq<Batch>>) {
    if batches == [] then hot
    else AddBatch(AddBatches(hot, batches[..|batches| - 1]), batches[|batches| - 1].0, batches[|batches| - 1].1)
  }

  /** Install a delta: one pass over the touched tables, then the batches and the scalars. */
  function Install(s: State, d: Delta): (r: State) {
    s.(tables := InstallTables(s.tables, d), accounts := InstallAccounts(s.accounts, d),
       hot := AddBatches(s.hot, d.batches),
       hotBytes := d.hotBytes, metadata := d.metadata, resident := d.resident, floors := s.floors + d.floors)
  }

  function InstallTables(tables: map<string, Table>, d: Delta): (r: map<string, Table>)
    ensures r.Keys == tables.Keys
  {
    map name | name in tables :: InstallTable(tables[name], d, name)
  }

  function InstallAccounts(accounts: map<string, TableAccount>, d: Delta): (r: map<string, TableAccount>)
    ensures r.Keys == accounts.Keys
  {
    map name | name in accounts :: if name in d.tables then d.tables[name].account else accounts[name]
  }

  function InstallTable(t: Table, d: Delta, name: string): (r: Table) {
    if name in d.tables then
      t.(rollups := t.rollups + d.tables[name].rollups, receipts := t.receipts + d.tables[name].receipts)
    else t
  }

  /** A table once it holds an accepted request. */
  function Receive(t: Table, p: Prepared): (r: Table) {
    t.(rollups := t.rollups + p.updates, receipts := t.receipts[p.id := p.receipt])
  }

  /** The whole effect of one accepted request on the committed state. */
  function Apply(s: State, p: Prepared): (r: State)
    requires p.table in s.tables
  {
    s.(tables := s.tables[p.table := Receive(s.tables[p.table], p)],
       accounts := s.accounts[p.table := p.account],
       hot := AddBatch(s.hot, p.table, p.batch),
       hotBytes := s.hotBytes + p.bytes, metadata := p.metadata, resident := p.resident)
  }
}
