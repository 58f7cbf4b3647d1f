/** The plan a frozen-prefix checkpoint installs against recomputation over the installed catalog. */
module EngineInstall {
  import opened Common
  import opened Rollup
  import opened Sums
  import opened Decimal
  import opened Engine
  import opened EngineReplay
  import opened EngineAccounting

  // ------------------------------------------------------------ what was captured

  /** Receipts to drop from a table and the idempotency floor to persist for it. */
  datatype Retirement = Retirement(table: string, removed: seq<(string, Receipt)>, floor: Option<int>)

  /** The frozen prefix: its sequence, its batches, the segments written for them and the retirements. */
  datatype Captured = Captured(
    checkpoint: nat, prior: nat, floors: map<string, int>, hot: seq<(string, seq<Batch>)>,
    written: seq<(string, Segment)>, retirements: seq<Retirement>)

  datatype Plan = Plan(metadata: int, controlBase: int, resident: int, accounts: map<string, TableAccount>,
                       hotBytes: int)

  ghost predicate DistinctIds(removed: seq<(string, Receipt)>) {
    forall i, j :: 0 <= i < j < |removed| ==> removed[i].0 != removed[j].0
  }

  /** Captured under the lock from maps: each table and each receipt at most once. */
  ghost predicate WellFormed(cap: Captured) {
    && DistinctTables(cap.retirements)
    && (forall i, j :: 0 <= i < j < |cap.hot| ==> cap.hot[i].0 != cap.hot[j].0)
  }

  // ------------------------------------------------------------ removing receipts

  function Ids(removed: seq<(string, Receipt)>): (r: set<string>) {
    set i | 0 <= i < |removed| :: removed[i].0
  }

  predicate Present(receipts: map<string, Receipt>, removed: seq<(string, Receipt)>) {
    forall i :: 0 <= i < |removed| ==> removed[i].0 in receipts && receipts[removed[i].0] == removed[i].1
  }

  /** A receipt map without some IDs. */
  function Without(receipts: map<string, Receipt>, ids: set<string>): (r: map<string, Receipt>) {
    receipts - ids
  }

  lemma WithoutIsPart(receipts: map<string, Receipt>, ids: set<string>)
    ensures forall id <- Without(receipts, ids) :: id in receipts && Without(receipts, ids)[id] == receipts[id]
    ensures ids == {} ==> Without(receipts, ids) == receipts
  {
  }

  lemma IdsSnoc(removed: seq<(string, Receipt)>, i: nat)
    requires i < |removed|
    ensures Ids(removed[..i + 1]) == Ids(removed[..i]) + {removed[i].0}
  {
    var a, b := removed[..i + 1], removed[..i];
    forall id | id in Ids(a) ensures id in Ids(b) + {removed[i].0} {
      var k :| 0 <= k < |a| && a[k].0 == id;
      assert k < i ==> b[k] == a[k];
    }
    forall id | id in Ids(b) ensures id in Ids(a) {
      var k :| 0 <= k < |b| && b[k].0 == id;
      assert a[k] == b[k];
    }
    assert a[i] == removed[i];
    assert a[i].0 in Ids(a);
  }

  lemma NotRemovedYet(removed: seq<(string, Receipt)>, i: nat)
    requires i < |removed| && DistinctIds(removed)
    ensures removed[i].0 !in Ids(removed[..i])
  {
    var b := removed[..i];
    forall k | 0 <= k < |b| ensures b[k].0 != removed[i].0 {
      assert b[k] == removed[k];
    }
  }

  lemma IdsNext(receipts: map<string, Receipt>, removed: seq<(string, Receipt)>, i: nat)
    requires i < |removed| && DistinctIds(removed) && removed[i].0 in receipts
    ensures var rest := Without(receipts, Ids(removed[..i]));
      && removed[i].0 in rest && rest[removed[i].0] == receipts[removed[i].0]
      && Without(receipts, Ids(removed[..i + 1])) == Without(rest, {removed[i].0})
  {
    hide Ids, DistinctIds;
    IdsSnoc(removed, i);
    NotRemovedYet(removed, i);
  }

  lemma SizesWithout(sz: Sizes, m: map<string, Receipt>, id: string)
    requires id in m
    ensures Sum(ReceiptSizes(sz, Without(m, {id}))) + sz.id(id) + 1 + sz.receipt(ShapeOf(m[id]))
      == Sum(ReceiptSizes(sz, m))
    ensures Sum(ReceiptResidents(sz, Without(m, {id}))) + sz.receiptResident(id, ShapeOf(m[id]))
      == Sum(ReceiptResidents(sz, m))
    ensures |Without(m, {id})| + 1 == |m|
  {
    hide Sum;
    SumRemove(ReceiptSizes(sz, m), id);
    assert ReceiptSizes(sz, Without(m, {id})) == ReceiptSizes(sz, m) - {id};
    SumRemove(ReceiptResidents(sz, m), id);
    assert ReceiptResidents(sz, Without(m, {id})) == ReceiptResidents(sz, m) - {id};
    assert Without(m, {id}).Keys == m.Keys - {id};
    assert |m| == |m.Keys| && |Without(m, {id})| == |Without(m, {id}).Keys|;
  }

  /** `bytes` and `resident` are what the removed receipts take of their map. */
  ghost predicate Measured(sz: Sizes, receipts: map<string, Receipt>, removed: seq<(string, Receipt)>, bytes: nat,
                           resident: nat) {
    var rest := Without(receipts, Ids(removed));
    && Sum(ReceiptSizes(sz, rest)) + bytes == Sum(ReceiptSizes(sz, receipts))
    && Sum(ReceiptResidents(sz, rest)) + resident == Sum(ReceiptResidents(sz, receipts))
    && |rest| + |removed| == |receipts|
  }

  lemma MeasuredNone(sz: Sizes, receipts: map<string, Receipt>)
    ensures Measured(sz, receipts, [], 0, 0)
  {
    assert Ids([]) == {};
    WithoutIsPart(receipts, Ids([]));
  }

  lemma MeasuredNext(sz: Sizes, receipts: map<string, Receipt>, removed: seq<(string, Receipt)>, i: nat, bytes: nat,
                     resident: nat)
    requires i < |removed| && DistinctIds(removed) && removed[i].0 in receipts && receipts[removed[i].0] == removed[i].1
    requires Measured(sz, receipts, removed[..i], bytes, resident)
    ensures var (id, receipt) := removed[i];
            Measured(sz, receipts, removed[..i + 1], bytes + sz.id(id) + 1 + sz.receipt(ShapeOf(receipt)),
                     resident + sz.receiptResident(id, ShapeOf(receipt)))
  {
    hide Sum, ReceiptSizes, ReceiptResidents, DistinctIds, Ids, Without;
    IdsNext(receipts, removed, i);
    SizesWithout(sz, Without(receipts, Ids(removed[..i])), removed[i].0);
  }

  /** Check and measure the receipts a retirement removes. */
  method MeasureRemoved(sz: Sizes, receipts: map<string, Receipt>, removed: seq<(string, Receipt)>)
    returns (ok: bool, bytes: nat, resident: nat)
    requires DistinctIds(removed)
    ensures ok <==> Present(receipts, removed)
    ensures ok ==> Measured(sz, receipts, removed, bytes, resident)
  {
    hide Measured, DistinctIds;
    bytes, resident := 0, 0;
    MeasuredNone(sz, receipts);
    assert removed[..0] == [];
    for i := 0 to |removed|
      invariant Present(receipts, removed[..i])
      invariant Measured(sz, receipts, removed[..i], bytes, resident)
    {
      var id, receipt := removed[i].0, removed[i].1;
      if id !in receipts || receipts[id] != receipt {
        ok := false;
        return;
      }
      MeasuredNext(sz, receipts, removed, i, bytes, resident);
      bytes := bytes + sz.id(id) + 1 + sz.receipt(ShapeOf(receipt));
      resident := resident + sz.receiptResident(id, ShapeOf(receipt));
    }
    assert removed[..|removed|] == removed;
    ok := true;
  }

  /** The change of a JSON object's size when `removed` of its `live` members go. */
  function RemoveDelta(live: nat, removed: nat, bytes: nat): (r: int) {
    var rest := if live > 0 then live - 1 else 0;
    0 - bytes - if removed < rest then removed else rest
  }

  lemma JsonRemoved<K>(before: map<K, nat>, after: map<K, nat>, bytes: nat, removed: nat)
    requires Sum(after) + bytes == Sum(before) && |after| + removed == |before|
    ensures Json(after) == Json(before) + RemoveDelta(|before|, removed, bytes)
  {
    hide Sum;
    assert before == map[] <==> |before| == 0;
    assert after == map[] <==> |after| == 0;
  }

  // ------------------------------------------------------------ the installed catalog

  function AddSegments(tables: map<string, Table>, written: seq<(string, Segment)>): (r: map<string, Table>)
    ensures r.Keys == tables.Keys
  {
    if written == [] then tables
    else
      var r := AddSegments(tables, written[..|written| - 1]);
      var (name, segment) := written[|written| - 1];
      if name in r then r[name := Extended(r[name], segment)] else r
  }

  function Retire(tables: map<string, Table>, retirements: seq<Retirement>): (r: map<string, Table>)
    ensures r.Keys == tables.Keys
  {
    if retirements == [] then tables
    else
      var r := Retire(tables, retirements[..|retirements| - 1]);
      var last := retirements[|retirements| - 1];
      if last.table in r then r[last.table := Retired(r[last.table], last)] else r
  }

  function Retired(t: Table, retirement: Retirement): (r: Table) {
    t.(receipts := Without(t.receipts, Ids(retirement.removed)), floor := retirement.floor)
  }

  function Drain(hot: map<string, seq<Batch>>, captured: seq<(string, seq<Batch>)>): (r: map<string, seq<Batch>>)
    ensures r.Keys == hot.Keys
  {
    if captured == [] then hot
    else
      var r := Drain(hot, captured[..|captured| - 1]);
      var (name, batches) := captured[|captured| - 1];
      if name in r && |batches| <= |r[name]| then r[name := r[name][|batches|..]] else r
  }

  /** The live state once the durable root is the captured one: the tail stays, the prefix is retired. */
  function Installed(s: State, cap: Captured, plan: Plan): (r: State) {
    s.(tables := Retire(AddSegments(s.tables, cap.written), cap.retirements), checkpoint := cap.checkpoint,
       generation := s.generation + 1, hot := Drain(s.hot, cap.hot), metadata := plan.metadata,
           resident := plan.resident,
       hotBytes := if plan.hotBytes >= 0 then plan.hotBytes else 0,
       accounts := s.accounts + plan.accounts, controlBase := plan.controlBase)
  }

  /** Nothing but appended tails has changed since the capture. */
  predicate Current(s: State, cap: Captured) {
    && cap.checkpoint <= s.sequence && s.checkpoint == cap.prior && s.floors == cap.floors
    && (forall i :: 0 <= i < |cap.hot| ==> cap.hot[i].0 in s.tables && Heads(s.hot, cap.hot[i].0, cap.hot[i].1))
  }

  predicate Heads(hot: map<string, seq<Batch>>, name: string, batches: seq<Batch>) {
    batches <= if name in hot then hot[name] else []
  }

  // ------------------------------------------------------------ encoded size of the control root

  /** The table parts the control root encodes inline. */
  function ControlJson(c: Codec, t: Table): (r: nat) {
    SegmentsJson(c, t.segments) + c.floor(t.floor)
  }

  ghost function ControlJsons(c: Codec, tables: map<string, Table>): (r: map<string, nat>) {
    map name | name in tables :: ControlJson(c, tables[name])
  }

  /** The encoded control root with no page references; `frame` covers what checkpoints do not change. */
  ghost predicate ControlExact(c: Codec, frame: nat, s: State) {
    s.controlBase == frame + Sum(ControlJsons(c, s.tables)) + Digits(s.checkpoint)
  }

  lemma ControlChanged(c: Codec, tables: map<string, Table>, name: string, t: Table)
    requires name in tables
    ensures Sum(ControlJsons(c, tables[name := t])) + ControlJson(c, tables[name])
      == Sum(ControlJsons(c, tables)) + ControlJson(c, t)
  {
    hide ControlJson, Sum;
    SumUpdate(ControlJsons(c, tables), name, ControlJson(c, t));
    assert ControlJsons(c, tables[name := t]) == ControlJsons(c, tables)[name := ControlJson(c, t)];
  }

  // ------------------------------------------------------------ segment descriptors

  /** Bytes one more descriptor adds to an array of `existing` of them. */
  function SegmentDelta(c: Codec, existing: nat, segment: Segment): (r: nat) {
    c.segment(segment) + if existing > 0 then 1 else 0
  }

  function Extended(t: Table, segment: Segment): (r: Table) {
    t.(segments := t.segments + [segment])
  }

  lemma ExtendedTable(sz: Sizes, c: Codec, t: Table, segment: Segment)
    ensures TableJson(sz, c, Extended(t, segment)) == TableJson(sz, c, t) + SegmentDelta(c, |t.segments|, segment)
    ensures ControlJson(c, Extended(t, segment)) == ControlJson(c, t) + SegmentDelta(c, |t.segments|, segment)
  {
    hide Json;
    assert (t.segments + [segment])[..|t.segments|] == t.segments;
  }

  /** The descriptors counted so far are the ones the extended tables hold. */
  ghost predicate Counted(tables: map<string, Table>, extended: map<string, Table>, counts: map<string, nat>) {
    && extended.Keys == tables.Keys
    && forall name <- tables ::
         |extended[name].segments| == |tables[name].segments| + if name in counts then counts[name] else 0
  }

  /** Encoded growth of `to` over `from`, in the manifest and in the control root. */
  ghost predicate Grows(sz: Sizes, c: Codec, from: map<string, Table>, to: map<string, Table>, metadata: int,
                        control: int) {
    && Sum(TableJsons(sz, c, to)) == Sum(TableJsons(sz, c, from)) + metadata
    && Sum(ControlJsons(c, to)) == Sum(ControlJsons(c, from)) + control
  }

  lemma GrowsNext(sz: Sizes, c: Codec, from: map<string, Table>, to: map<string, Table>, name: string, t: Table,
                  metadata: int, control: int)
    requires name in to && Grows(sz, c, from, to, metadata, control)
    ensures Grows(sz, c, from, to[name := t], metadata + TableJson(sz, c, t) - TableJson(sz, c, to[name]),
                  control + ControlJson(c, t) - ControlJson(c, to[name]))
  {
    hide Sum, TableJsons, TableJson, ControlJson, ControlJsons;
    JsonChanged(sz, c, to, name, t);
    ControlChanged(c, to, name, t);
  }

  lemma ExtendNext(sz: Sizes, c: Codec, tables: map<string, Table>, before: map<string, Table>,
                   counts: map<string, nat>,
                   delta: int, name: string, segment: Segment)
    requires Counted(tables, before, counts) && Grows(sz, c, tables, before, delta, delta) && name in tables
    requires name in before
    ensures
      var index := if name in counts then counts[name] else 0;
      var more := SegmentDelta(c, |tables[name].segments| + index, segment);
      && Counted(tables, before[name := Extended(before[name], segment)], counts[name := index + 1])
      && Grows(sz, c, tables, before[name := Extended(before[name], segment)], delta + more, delta + more)
  {
    hide Grows, TableJson, ControlJson, SegmentDelta;
    ExtendedTable(sz, c, before[name], segment);
    GrowsNext(sz, c, tables, before, name, Extended(before[name], segment), delta, delta);
  }

  lemma AddSegmentsNext(tables: map<string, Table>, written: seq<(string, Segment)>, i: nat)
    requires i < |written| && written[i].0 in tables
    ensures
      var before, name, segment := AddSegments(tables, written[..i]), written[i].0, written[i].1;
      AddSegments(tables, written[..i + 1]) == before[name := Extended(before[name], segment)]
  {
    hide Extended;
    assert written[..i + 1][..i] == written[..i] && written[..i + 1][i] == written[i];
  }

  /** The growth from the written segments, counted against the catalog the plan starts from. */
  method PlanSegments(ghost sz: Sizes, c: Codec, tables: map<string, Table>, written: seq<(string, Segment)>)
    returns (ok: bool, delta: int)
    ensures ok <==> forall i :: 0 <= i < |written| ==> written[i].0 in tables
    ensures ok ==> Grows(sz, c, tables, AddSegments(tables, written), delta, delta)
  {
    hide Grows, Counted, AddSegments, Extended, SegmentDelta;
    delta := 0;
    var counts: map<string, nat> := map[];
    NoSegments(sz, c, tables, written);
    for i := 0 to |written|
      invariant forall k :: 0 <= k < i ==> written[k].0 in tables
      invariant Counted(tables, AddSegments(tables, written[..i]), counts)
      invariant Grows(sz, c, tables, AddSegments(tables, written[..i]), delta, delta)
    {
      var name, segment := written[i].0, written[i].1;
      if name !in tables {
        return false, 0;
      }
      var index := if name in counts then counts[name] else 0;
      AddSegmentsNext(tables, written, i);
      ExtendNext(sz, c, tables, AddSegments(tables, written[..i]), counts, delta, name, segment);
      delta := delta + SegmentDelta(c, |tables[name].segments| + index, segment);
      counts := counts[name := index + 1];
    }
    assert written[..|written|] == written;
    ok := true;
  }

  lemma NoSegments(sz: Sizes, c: Codec, tables: map<string, Table>, written: seq<(string, Segment)>)
    ensures Counted(tables, AddSegments(tables, written[..0]), map[])
    ensures Grows(sz, c, tables, AddSegments(tables, written[..0]), 0, 0)
  {
    hide Sum;
  }

  /** Adding segments leaves everything else of a table alone. */
  lemma {:induction false} SegmentsOnly(tables: map<string, Table>, written: seq<(string, Segment)>, name: string)
    requires name in tables
    ensures var t := AddSegments(tables, written)[name]; t == tables[name].(segments := t.segments)
  {
    if written != [] {
      SegmentsOnly(tables, written[..|written| - 1], name);
    }
  }

  // ------------------------------------------------------------ retirements

  function RetiredAccount(sz: Sizes, name: string, a: TableAccount, live: nat, removed: nat,
                          bytes: nat): (r: TableAccount) {
    var receipts := MapAccount(a.receipts.json + RemoveDelta(live, removed, bytes),
                               if removed <= a.receipts.entries then a.receipts.entries - removed else 0,
                               a.receipts.maxEntry);
    var bounds := sz.bound(name, a.rollups, receipts);
    TableAccount(a.rollups, receipts, bounds.root, bounds.encoded, bounds.oversized)
  }

  lemma RetiredExact(sz: Sizes, a: MapAccount, m: map<string, Receipt>, removed: seq<(string, Receipt)>, bytes: nat,
                     resident: nat)
    requires Exact(a, ReceiptSizes(sz, m)) && Measured(sz, m, removed, bytes, resident)
    ensures |removed| <= a.entries == |m|
    ensures Exact(MapAccount(a.json + RemoveDelta(|m|, |removed|, bytes), a.entries - |removed|, a.maxEntry),
                  ReceiptSizes(sz, Without(m, Ids(removed))))
    ensures Json(ReceiptSizes(sz, Without(m, Ids(removed))))
      == Json(ReceiptSizes(sz, m)) + RemoveDelta(|m|, |removed|, bytes)
  {
    hide Exact, Sum, Ids, Without, Json, RemoveDelta, ReceiptSizes, ReceiptResidents;
    WithoutIsPart(m, Ids(removed));
    PartExact(sz, a, m, Without(m, Ids(removed)), |removed|, bytes);
  }

  /** An account without some entries: the sizes, the count, and the old maximum as a bound. */
  lemma PartExact(sz: Sizes, a: MapAccount, m: map<string, Receipt>, rest: map<string, Receipt>, removed: nat,
                  bytes: nat)
    requires Exact(a, ReceiptSizes(sz, m)) && (forall id <- rest :: id in m && rest[id] == m[id])
    requires Sum(ReceiptSizes(sz, rest)) + bytes == Sum(ReceiptSizes(sz, m)) && |rest| + removed == |m|
    ensures removed <= a.entries == |m|
    ensures Exact(MapAccount(a.json + RemoveDelta(|m|, removed, bytes), a.entries - removed, a.maxEntry),
                  ReceiptSizes(sz, rest))
    ensures Json(ReceiptSizes(sz, rest)) == Json(ReceiptSizes(sz, m)) + RemoveDelta(|m|, removed, bytes)
  {
    hide Sum, Json, RemoveDelta;
    var before, after := ReceiptSizes(sz, m), ReceiptSizes(sz, rest);
    SizesCount(sz, m);
    SizesCount(sz, rest);
    JsonRemoved(before, after, bytes, removed);
    assert forall id <- after :: id in before && after[id] == before[id];
  }

  lemma SizesCount(sz: Sizes, m: map<string, Receipt>)
    ensures |ReceiptSizes(sz, m)| == |m|
  {
    assert ReceiptSizes(sz, m).Keys == m.Keys;
    assert |ReceiptSizes(sz, m)| == |ReceiptSizes(sz, m).Keys| && |m| == |m.Keys|;
  }

  /** What a retirement does to its table's account, encoded size and resident bytes. */
  lemma RetiredTable(sz: Sizes, c: Codec, t: Table, a: TableAccount, r: Retirement, bytes: nat, resident: nat)
    requires TableOk(sz, r.table, t, a) && Measured(sz, t.receipts, r.removed, bytes, resident)
    ensures
      var after, drop := Retired(t, r), RemoveDelta(|t.receipts|, |r.removed|, bytes);
      && TableOk(sz, r.table, after, RetiredAccount(sz, r.table, a, |t.receipts|, |r.removed|, bytes))
      && TableJson(sz, c, after) == TableJson(sz, c, t) + drop + c.floor(r.floor) - c.floor(t.floor)
      && ControlJson(c, after) == ControlJson(c, t) + c.floor(r.floor) - c.floor(t.floor)
      && TableResident(sz, after) + resident == TableResident(sz, t)
  {
    hide Sum, TableOk, Ids, Without, Json, RemoveDelta, ReceiptSizes, RollupSizes, ReceiptResidents, RollupResidents,
      SegmentsJson, RetiredAccount;
    AccountParts(sz, r.table, t, a);
    RetiredExact(sz, a.receipts, t.receipts, r.removed, bytes, resident);
    RetiredAccountOk(sz, t, a, r, bytes, resident);
  }

  lemma AccountParts(sz: Sizes, name: string, t: Table, a: TableAccount)
    requires TableOk(sz, name, t, a)
    ensures Exact(a.receipts, ReceiptSizes(sz, t.receipts)) && Exact(a.rollups, RollupSizes(sz, t.rollups))
  {
    hide Exact;
  }

  lemma RetiredAccountOk(sz: Sizes, t: Table, a: TableAccount, r: Retirement, bytes: nat, resident: nat)
    requires TableOk(sz, r.table, t, a) && Measured(sz, t.receipts, r.removed, bytes, resident)
    ensures TableOk(sz, r.table, Retired(t, r), RetiredAccount(sz, r.table, a, |t.receipts|, |r.removed|, bytes))
  {
    hide Exact, Measured, Ids, Without, RemoveDelta, ReceiptSizes, RollupSizes;
    RetiredExact(sz, a.receipts, t.receipts, r.removed, bytes, resident);
  }

  /** Accounts with the planned ones in place. */
  ghost predicate AccountsOk(sz: Sizes, tables: map<string, Table>, accounts: map<string, TableAccount>,
                             planned: map<string, TableAccount>) {
    && planned.Keys <= accounts.Keys == tables.Keys
    && forall name <- tables :: TableOk(sz, name, tables[name], (accounts + planned)[name])
  }

  ghost predicate Shrinks(sz: Sizes, from: map<string, Table>, to: map<string, Table>, resident: nat) {
    Sum(TableResidents(sz, to)) + resident == Sum(TableResidents(sz, from))
  }

  lemma {:induction false} NotYetRetired(tables: map<string, Table>, retirements: seq<Retirement>, i: nat, name: string)
    requires i <= |retirements| && name in tables && forall k :: 0 <= k < i ==> retirements[k].table != name
    ensures Retire(tables, retirements[..i])[name] == tables[name]
  {
    if i > 0 {
      NotYetRetired(tables, retirements, i - 1, name);
      assert retirements[..i][..i - 1] == retirements[..i - 1] && retirements[..i][i - 1] == retirements[i - 1];
    }
  }

  /** Everything the retirement loop keeps: sizes, resident bytes and accounts of the tables retired so far. */
  ghost predicate RetiredSoFar(sz: Sizes, c: Codec, s: State, from: map<string, Table>, to: map<string, Table>,
                               metadata: int, control: int, resident: nat, planned: map<string, TableAccount>) {
    && Grows(sz, c, from, to, metadata, control) && Shrinks(sz, from, to, resident)
    && AccountsOk(sz, to, s.accounts, planned)
  }

  lemma RetireNext(sz: Sizes, c: Codec, s: State, from: map<string, Table>, to: map<string, Table>, r: Retirement,
                   metadata: int, control: int, less: nat, planned: map<string, TableAccount>, bytes: nat,
                   resident: nat)
    requires r.table in to && r.table !in planned && r.table in s.accounts
    requires Measured(sz, to[r.table].receipts, r.removed, bytes, resident)
    requires RetiredSoFar(sz, c, s, from, to, metadata, control, less, planned)
    ensures
      var t := to[r.table];
      var drop, floor := RemoveDelta(|t.receipts|, |r.removed|, bytes), c.floor(r.floor) - c.floor(t.floor);
      RetiredSoFar(sz, c, s, from, to[r.table := Retired(t, r)], metadata + drop + floor, control + floor,
                   less + resident,
                   planned[r.table := RetiredAccount(sz, r.table, s.accounts[r.table], |t.receipts|, |r.removed|,
                                                     bytes)])
  {
    hide Sum, Measured, TableOk, TableJson, ControlJson, TableResident, RemoveDelta, RetiredAccount, Retired, Grows,
      Shrinks, AccountsOk;
    var t := to[r.table];
    AccountAt(sz, to, s.accounts, planned, r.table);
    RetiredTable(sz, c, t, s.accounts[r.table], r, bytes, resident);
    GrowsNext(sz, c, from, to, r.table, Retired(t, r), metadata, control);
    ShrinksNext(sz, from, to, less, r.table, Retired(t, r), resident);
    AccountsNext(sz, to, s.accounts, planned, r.table, Retired(t, r),
                 RetiredAccount(sz, r.table, s.accounts[r.table], |t.receipts|, |r.removed|, bytes));
  }

  lemma RetireStep(from: map<string, Table>, retirements: seq<Retirement>, i: nat)
    requires i < |retirements| && retirements[i].table in from
    ensures
      var r, to := retirements[i], Retire(from, retirements[..i]);
      r.table in to && Retire(from, retirements[..i + 1]) == to[r.table := Retired(to[r.table], r)]
  {
    hide Retired;
    assert retirements[..i + 1][..i] == retirements[..i] && retirements[..i + 1][i] == retirements[i];
  }

  lemma AccountAt(sz: Sizes, tables: map<string, Table>, accounts: map<string, TableAccount>,
                  planned: map<string, TableAccount>, name: string)
    requires AccountsOk(sz, tables, accounts, planned) && name in tables && name !in planned
    ensures name in accounts && TableOk(sz, name, tables[name], accounts[name])
  {
    hide TableOk;
    assert (accounts + planned)[name] == accounts[name];
  }

  lemma AccountsNext(sz: Sizes, tables: map<string, Table>, accounts: map<string, TableAccount>,
                     planned: map<string, TableAccount>,
                     name: string, t: Table, a: TableAccount)
    requires AccountsOk(sz, tables, accounts, planned) && name in tables && TableOk(sz, name, t, a)
    ensures AccountsOk(sz, tables[name := t], accounts, planned[name := a])
  {
    hide TableOk;
    assert accounts + planned[name := a] == (accounts + planned)[name := a];
  }

  lemma ShrinksNext(sz: Sizes, from: map<string, Table>, to: map<string, Table>, less: nat, name: string, t: Table,
                    resident: nat)
    requires Shrinks(sz, from, to, less) && name in to && TableResident(sz, t) + resident == TableResident(sz, to[name])
    ensures Shrinks(sz, from, to[name := t], less + resident)
  {
    hide Sum, TableResident, TableResidents;
    ResidentChanged(sz, to, name, t);
  }

  /** Every retirement still names a table and receipts as they are. */
  ghost predicate Retirable(tables: map<string, Table>, retirements: seq<Retirement>) {
    forall i :: 0 <= i < |retirements| ==>
      retirements[i].table in tables && Present(tables[retirements[i].table].receipts, retirements[i].removed)
  }

  /** Receipts and floors, which retirements look at, are those the plan starts from. */
  ghost predicate SameReceipts(tables: map<string, Table>, extended: map<string, Table>) {
    && extended.Keys == tables.Keys
    && forall name <- tables ::
         extended[name].receipts == tables[name].receipts && extended[name].floor == tables[name].floor
  }

  ghost predicate DistinctTables(retirements: seq<Retirement>) {
    && (forall i, j :: 0 <= i < j < |retirements| ==> retirements[i].table != retirements[j].table)
    && (forall i :: 0 <= i < |retirements| ==> DistinctIds(retirements[i].removed))
  }

  /** Only tables already retired have a planned account. */
  ghost predicate PlannedBefore(retirements: seq<Retirement>, i: nat, planned: map<string, TableAccount>)
    requires i <= |retirements|
  {
    forall name <- planned :: exists k :: 0 <= k < i && retirements[k].table == name
  }

  /**
   * The shrinkage from the retirements, counted against the catalog the plan starts from: encoded sizes
   * of the manifest and the control root, resident bytes, and the accounts of the touched tables.
   */
  method PlanRetirements(sz: Sizes, c: Codec, s: State, ghost extended: map<string, Table>,
                         retirements: seq<Retirement>)
    returns (ok: bool, metadata: int, control: int, resident: nat, planned: map<string, TableAccount>)
    requires DistinctTables(retirements) && SameReceipts(s.tables, extended)
    requires AccountsOk(sz, extended, s.accounts, map[])
    ensures ok <==> Retirable(s.tables, retirements)
    ensures ok ==> RetiredSoFar(sz, c, s, extended, Retire(extended, retirements), metadata, control, resident, planned)
  {
    hide RetiredSoFar, Measured, RetiredAccount, RemoveDelta, Retire, Retired, DistinctIds, AccountsOk, PlannedBefore,
      Present;
    metadata, control, resident, planned := 0, 0, 0, map[];
    NothingRetired(sz, c, s, extended, retirements);
    for i := 0 to |retirements|
      invariant forall k :: 0 <= k < i ==>
        retirements[k].table in s.tables && Present(s.tables[retirements[k].table].receipts, retirements[k].removed)
      invariant RetiredSoFar(sz, c, s, extended, Retire(extended, retirements[..i]), metadata, control, resident,
                             planned)
      invariant PlannedBefore(retirements, i, planned)
    {
      var r := retirements[i];
      if r.table !in s.tables {
        ok := false;
        return;
      }
      var t := s.tables[r.table];
      var fine, bytes, less := MeasureRemoved(sz, t.receipts, r.removed);
      if !fine {
        ok := false;
        return;
      }
      NotYetRetired(extended, retirements, i, r.table);
      NotPlanned(retirements, i, planned);
      AccountsKeys(sz, extended, s.accounts);
      RetireStep(extended, retirements, i);
      RetireNext(sz, c, s, extended, Retire(extended, retirements[..i]), r, metadata, control, resident, planned, bytes,
                 less);
      var drop, floor := RemoveDelta(|t.receipts|, |r.removed|, bytes), c.floor(r.floor) - c.floor(t.floor);
      PlannedNext(retirements, i, planned,
                  RetiredAccount(sz, r.table, s.accounts[r.table], |t.receipts|, |r.removed|, bytes));
      metadata, control, resident := metadata + drop + floor, control + floor, resident + less;
      planned := planned[r.table := RetiredAccount(sz, r.table, s.accounts[r.table], |t.receipts|, |r.removed|, bytes)];
    }
    assert retirements[..|retirements|] == retirements;
    ok := true;
  }

  lemma NotPlanned(retirements: seq<Retirement>, i: nat, planned: map<string, TableAccount>)
    requires i < |retirements| && PlannedBefore(retirements, i, planned) && DistinctTables(retirements)
    ensures retirements[i].table !in planned
  {
  }

  lemma PlannedNext(retirements: seq<Retirement>, i: nat, planned: map<string, TableAccount>, a: TableAccount)
    requires i < |retirements| && PlannedBefore(retirements, i, planned)
    ensures PlannedBefore(retirements, i + 1, planned[retirements[i].table := a])
  {
  }

  lemma AccountsKeys(sz: Sizes, tables: map<string, Table>, accounts: map<string, TableAccount>)
    requires AccountsOk(sz, tables, accounts, map[])
    ensures accounts.Keys == tables.Keys
  {
  }

  lemma NothingRetired(sz: Sizes, c: Codec, s: State, extended: map<string, Table>, retirements: seq<Retirement>)
    requires AccountsOk(sz, extended, s.accounts, map[])
    ensures RetiredSoFar(sz, c, s, extended, Retire(extended, retirements[..0]), 0, 0, 0, map[])
    ensures PlannedBefore(retirements, 0, map[])
  {
    hide AccountsOk, TableJsons, ControlJsons, TableResidents, Sum;
    assert retirements[..0] == [];
  }

  // ------------------------------------------------------------ resident batches

  lemma {:induction false} BatchBytesSplit(batches: seq<Batch>, n: nat)
    requires n <= |batches|
    ensures BatchBytes(batches) == BatchBytes(batches[..n]) + BatchBytes(batches[n..])
  {
    if n < |batches| {
      var k := |batches| - 1;
      BatchBytesSplit(batches[..k], n);
      assert batches[..k][..n] == batches[..n] && batches[..k][n..] == batches[n..][..k - n]
          && batches[n..][k - n] == batches[k];
    } else {
      assert batches[..n] == batches;
    }
  }

  lemma {:induction false} NotYetDrained(hot: map<string, seq<Batch>>, captured: seq<(string, seq<Batch>)>, i: nat,
                                         name: string)
    requires i <= |captured| && name in hot && forall k :: 0 <= k < i ==> captured[k].0 != name
    ensures Drain(hot, captured[..i])[name] == hot[name]
  {
    if i > 0 {
      NotYetDrained(hot, captured, i - 1, name);
      assert captured[..i][..i - 1] == captured[..i - 1] && captured[..i][i - 1] == captured[i - 1];
    }
  }

  lemma DrainStep(hot: map<string, seq<Batch>>, captured: seq<(string, seq<Batch>)>, i: nat)
    requires i < |captured| && Heads(hot, captured[i].0, captured[i].1)
    requires forall k :: 0 <= k < i ==> captured[k].0 != captured[i].0
    ensures Sum(HotByteCounts(Drain(hot, captured[..i + 1]))) + BatchBytes(captured[i].1)
      == Sum(HotByteCounts(Drain(hot, captured[..i])))
  {
    hide Sum, BatchBytes, Drain, HotByteCounts;
    var before, name, batches := Drain(hot, captured[..i]), captured[i].0, captured[i].1;
    DrainNext(hot, captured, i);
    if name in hot {
      NotYetDrained(hot, captured, i, name);
      BatchBytesSplit(hot[name], |batches|);
      assert hot[name][..|batches|] == batches;
      HotBytesChange(before, name, hot[name][|batches|..]);
    } else {
      NoBatches();
    }
  }

  lemma NoBatches()
    ensures BatchBytes([]) == 0
  {
  }

  lemma DrainNext(hot: map<string, seq<Batch>>, captured: seq<(string, seq<Batch>)>, i: nat)
    requires i < |captured|
    ensures
      var before, name, batches := Drain(hot, captured[..i]), captured[i].0, captured[i].1;
      Drain(hot, captured[..i + 1]) == if name in before
          && |batches| <= |before[name]| then before[name := before[name][|batches|..]] else before
  {
    assert captured[..i + 1][..i] == captured[..i] && captured[..i + 1][i] == captured[i];
  }

  lemma HotBytesChange(hot: map<string, seq<Batch>>, name: string, batches: seq<Batch>)
    requires name in hot
    ensures Sum(HotByteCounts(hot[name := batches])) + BatchBytes(hot[name])
      == Sum(HotByteCounts(hot)) + BatchBytes(batches)
  {
    hide Sum, BatchBytes;
    SumUpdate(HotByteCounts(hot), name, BatchBytes(batches));
    assert HotByteCounts(hot[name := batches]) == HotByteCounts(hot)[name := BatchBytes(batches)];
  }

  method RetiredHotBytes(ghost hot: map<string, seq<Batch>>, captured: seq<(string, seq<Batch>)>) returns (total: nat)
    requires forall i :: 0 <= i < |captured| ==> Heads(hot, captured[i].0, captured[i].1)
    requires forall i, j :: 0 <= i < j < |captured| ==> captured[i].0 != captured[j].0
    ensures Sum(HotByteCounts(Drain(hot, captured))) + total == Sum(HotByteCounts(hot))
  {
    hide Sum, HotByteCounts, Drain, BatchBytes, Heads;
    total := 0;
    assert captured[..0] == [] && Drain(hot, []) == hot by { DrainNone(hot); }
    for i := 0 to |captured|
      invariant Sum(HotByteCounts(Drain(hot, captured[..i]))) + total == Sum(HotByteCounts(hot))
    {
      DrainStep(hot, captured, i);
      total := total + BatchBytes(captured[i].1);
    }
    assert captured[..|captured|] == captured;
  }

  lemma DrainNone(hot: map<string, seq<Batch>>)
    ensures Drain(hot, []) == hot
  {
  }

  // ------------------------------------------------------------ the whole plan

  ghost predicate Outputs(tables: map<string, Table>, written: seq<(string, Segment)>) {
    forall i :: 0 <= i < |written| ==> written[i].0 in tables
  }

  lemma {:induction false} RetireConfig(tables: map<string, Table>, retirements: seq<Retirement>, name: string)
    requires name in tables
    ensures Retire(tables, retirements)[name].config == tables[name].config
  {
    if retirements != [] {
      RetireConfig(tables, retirements[..|retirements| - 1], name);
    }
  }

  lemma InstalledReady(s: State, cap: Captured, plan: Plan)
    requires Ready(s) && Current(s, cap) && plan.accounts.Keys <= s.accounts.Keys
    ensures Ready(Installed(s, cap, plan))
  {
    hide AddSegments, Retire, Drain;
    var r := Installed(s, cap, plan);
    forall name | name in r.tables ensures r.tables[name].config.Valid() {
      SegmentsOnly(s.tables, cap.written, name);
      RetireConfig(AddSegments(s.tables, cap.written), cap.retirements, name);
    }
    assert (s.accounts + plan.accounts).Keys == s.accounts.Keys + plan.accounts.Keys;
  }

  /** Extending a catalog's segments leaves every account right. */
  lemma ExtendedOk(sz: Sizes, s: State, written: seq<(string, Segment)>)
    requires Ready(s) && forall name :: name in s.tables ==> TableOk(sz, name, s.tables[name], s.accounts[name])
    ensures SameReceipts(s.tables, AddSegments(s.tables, written))
    ensures AccountsOk(sz, AddSegments(s.tables, written), s.accounts, map[])
    ensures Shrinks(sz, s.tables, AddSegments(s.tables, written), 0)
  {
    hide AddSegments, Sum, TableOk, TableResident;
    var extended := AddSegments(s.tables, written);
    forall name | name in s.tables
      ensures extended[name].receipts == s.tables[name].receipts && extended[name].floor == s.tables[name].floor
      ensures TableOk(sz, name, extended[name], s.accounts[name])
      ensures TableResident(sz, extended[name]) == TableResident(sz, s.tables[name])
    {
      SegmentsOnly(s.tables, written, name);
      SegmentsAside(sz, name, s.tables[name], extended[name].segments, s.accounts[name]);
    }
    assert s.accounts + map[] == s.accounts;
    assert TableResidents(sz, extended) == TableResidents(sz, s.tables);
  }

  lemma SegmentsAside(sz: Sizes, name: string, t: Table, segments: seq<Segment>, a: TableAccount)
    requires TableOk(sz, name, t, a)
    ensures TableOk(sz, name, t.(segments := segments), a)
    ensures TableResident(sz, t.(segments := segments)) == TableResident(sz, t)
  {
    hide Exact, Sum;
  }

  /**
   * Plan the installation of a frozen prefix from scalars alone. The plan exists exactly when the capture
   * is still current, no checked subtraction can fail, and every counter it installs is what recomputing
   * it over the installed catalog and resident tail would give.
   */
  method PlanFrozenInstall(sz: Sizes, c: Codec, ghost frame: nat, s: State, cap: Captured) returns (r: Option<Plan>)
    requires Accounted(sz, c, s) && ControlExact(c, frame, s) && WellFormed(cap)
    ensures r.Some? <==> Current(s, cap) && Outputs(s.tables, cap.written) && Retirable(s.tables, cap.retirements)
    ensures r.Some? ==>
      Accounted(sz, c, Installed(s, cap, r.value)) && ControlExact(c, frame, Installed(s, cap, r.value))
    ensures r.Some? ==> r.value.hotBytes >= 0
  {
    hide TableOk, Sum, HotByteCounts, AddSegments, Retire, Drain, DistinctTables, Heads, Retirable;
    if !Current(s, cap) {
      return None;
    }
    ghost var extended := AddSegments(s.tables, cap.written);
    var fine, grown := PlanSegments(sz, c, s.tables, cap.written);
    if !fine {
      return None;
    }
    ExtendedOk(sz, s, cap.written);
    var ok, metadata, control, resident, planned := PlanRetirements(sz, c, s, extended, cap.retirements);
    if !ok {
      return None;
    }
    var retired := RetiredHotBytes(s.hot, cap.hot);
    var sequence := SequenceDelta(s.checkpoint, cap.checkpoint);
    var plan := Plan(s.metadata + sequence + grown + metadata, s.controlBase + sequence + grown + control,
                     s.resident - resident, planned, s.hotBytes - retired);
    InstalledExact(sz, c, frame, s, cap, plan, grown, metadata, control, resident, retired);
    r := Some(plan);
  }

  lemma InstalledExact(sz: Sizes, c: Codec, frame: nat, s: State, cap: Captured, plan: Plan,
                       grown: int, metadata: int, control: int, resident: nat, retired: nat)
    requires Accounted(sz, c, s) && ControlExact(c, frame, s) && Current(s, cap)
    requires plan.metadata == s.metadata + SequenceDelta(s.checkpoint, cap.checkpoint) + grown + metadata
    requires plan.controlBase == s.controlBase + SequenceDelta(s.checkpoint, cap.checkpoint) + grown + control
    requires plan.resident == s.resident - resident && plan.hotBytes == s.hotBytes - retired
    requires Grows(sz, c, s.tables, AddSegments(s.tables, cap.written), grown, grown)
    requires Shrinks(sz, s.tables, AddSegments(s.tables, cap.written), 0)
    requires
      var extended := AddSegments(s.tables, cap.written);
      RetiredSoFar(sz, c, s, extended, Retire(extended, cap.retirements), metadata, control, resident, plan.accounts)
    requires Sum(HotByteCounts(Drain(s.hot, cap.hot))) + retired == Sum(HotByteCounts(s.hot))
    ensures Accounted(sz, c, Installed(s, cap, plan)) && ControlExact(c, frame, Installed(s, cap, plan))
    ensures plan.hotBytes >= 0
  {
    hide TableOk, Sum, HotByteCounts, AddSegments, Retire, Drain, Heads, TableJsons, ControlJsons, TableResidents,
      Digits;
    InstalledReady(s, cap, plan);
  }

  /** Appending touches neither the control root's size nor the parts it encodes. */
  lemma AppendKeepsControl(sz: Sizes, c: Codec, frame: nat, s: State, p: Prepared)
    requires p.table in s.tables && ControlExact(c, frame, s)
    ensures ControlExact(c, frame, Apply(s, p))
  {
    hide Sum, SegmentsJson, AddBatch;
    assert ControlJsons(c, Apply(s, p).tables) == ControlJsons(c, s.tables);
  }
}
