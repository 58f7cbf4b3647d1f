/** What a durable history of group records amounts to, table by table. */
module History {
  import opened Common
  import opened Rollup
  import opened Engine
  import opened EngineReplay

  /** Accepted requests of one group; the k-th record of a history has sequence k + 1. */
  type Record = seq<Item>

  /** The tables and their fixed configurations, with the request-ID syntax. */
  datatype Schema = Schema(tables: map<string, TableConfig>, issued: string -> Option<int>) {
    ghost predicate Valid() {
      forall name :: name in tables ==> tables[name].Valid()
    }

    predicate Timed(name: string) {
      name in tables && tables[name].idWindow.Some?
    }
  }

  /** The rows a record adds to a table; ordinals count all accepted rows of the group. */
  function RecordRows(rec: Record, name: string, sequence: nat): (r: seq<Stored>) {
    if rec == [] then []
    else
      var n := |rec| - 1;
      RecordRows(rec[..n], name, sequence) + if rec[n].table == name
          then Number(rec[n].rows, sequence, RowsOf(rec[..n])) else []
  }

  function Rows(hist: seq<Record>, name: string): (r: seq<Stored>) {
    if hist == [] then [] else Rows(hist[..|hist| - 1], name) + RecordRows(hist[|hist| - 1], name, |hist|)
  }

  function ReceiptOf(schema: Schema, item: Item, sequence: nat): (r: Receipt) {
    Receipt(sequence, |item.rows|, item.digest, if schema.Timed(item.table) then schema.issued(item.id) else None, None)
  }

  function RecordReceipts(schema: Schema, rec: Record, name: string, sequence: nat): (r: map<string, Receipt>) {
    if rec == [] then map[]
    else
      var n := |rec| - 1;
      var rest := RecordReceipts(schema, rec[..n], name, sequence);
      if rec[n].table == name then rest[rec[n].id := ReceiptOf(schema, rec[n], sequence)] else rest
  }

  /** Every receipt ever issued for a table. */
  function Receipts(schema: Schema, hist: seq<Record>, name: string): (r: map<string, Receipt>) {
    if hist == [] then map[]
    else Receipts(schema, hist[..|hist| - 1], name) + RecordReceipts(schema, hist[|hist| - 1], name, |hist|)
  }

  // ------------------------------------------------------------ one table's state

  /** Retention: rows before `raw` and buckets that end at or before the rollup cutoff are gone. */
  datatype Keep = Keep(raw: Option<int>, rollups: Cut)

  /** A table's checkpointed rows, resident batches, receipts, rollups, persisted idempotency floor and retention. */
  datatype Tab = Tab(
    cold: seq<Stored>, hot: seq<seq<Stored>>, receipts: map<string, Receipt>, rollups: map<Key, Rollup>,
    floor: Option<int>, keep: Keep)

  /** Requests reach only rows that retention still keeps. */
  predicate Retained(rows: seq<Row>, keep: Keep) {
    keep.raw.Some? ==> forall i :: 0 <= i < |rows| ==> rows[i].time >= keep.raw.value
  }

  /** The rows retention keeps of all that were ever committed. */
  function Since(rows: seq<Stored>, keep: Keep): (r: seq<Stored>) {
    if keep.raw.Some? then NotBelow(rows, keep.raw) else rows
  }

  ghost predicate AllSince(rows: seq<Stored>, keep: Keep) {
    keep.raw.Some? ==> forall i :: 0 <= i < |rows| ==> rows[i].row.time >= keep.raw.value
  }

  function Flat(batches: seq<seq<Stored>>): (r: seq<Stored>) {
    if batches == [] then [] else Flat(batches[..|batches| - 1]) + batches[|batches| - 1]
  }

  /** Replaying a record into a table. */
  function ApplyRecord(schema: Schema, t: Tab, rec: Record, name: string, sequence: nat): (r: Tab)
    requires schema.Valid() && name in schema.tables
  {
    if rec == [] then t
    else
      var n := |rec| - 1;
      var u, item := ApplyRecord(schema, t, rec[..n], name, sequence), rec[n];
      if item.table != name then u
      else
        var rows := Number(item.rows, sequence, RowsOf(rec[..n]));
        u.(hot := u.hot + [rows], receipts := u.receipts[item.id := ReceiptOf(schema, item, sequence)],
           rollups := AddRows(u.rollups, rows, schema.tables[name].widths, t.keep.rollups))
  }

  /**
   * What a record must satisfy for replay to accept it into a table: no ID twice, none below the floor, no
   * expired row.
   */
  predicate Replayable(schema: Schema, t: Tab, rec: Record, name: string) {
    rec != [] ==>
      var n := |rec| - 1;
      && Replayable(schema, t, rec[..n], name)
      && (rec[n].table == name ==>
            && rec[n].id !in t.receipts && !UsesId(rec[..n], name, rec[n].id)
            && AtOrAbove(schema, rec[n], t.floor) && Retained(rec[n].rows, t.keep))
  }

  predicate UsesId(rec: Record, name: string, id: string) {
    exists i :: 0 <= i < |rec| && rec[i].table == name && rec[i].id == id
  }

  /** A timed request issued at or after the floor. */
  predicate AtOrAbove(schema: Schema, item: Item, floor: Option<int>) {
    schema.Timed(item.table) ==>
      schema.issued(item.id).Some? && (floor.Some? ==> schema.issued(item.id).value >= floor.value)
  }

  /** The receipts a persisted floor leaves: a timed table forgets those issued before it. */
  ghost function Unpruned(schema: Schema, name: string, all: map<string, Receipt>, floor: Option<int>):
    (r: map<string, Receipt>)
  {
    map id | id in all && (schema.Timed(name) && floor.Some? ==> IssuedSince(all[id], floor.value)) :: all[id]
  }

  predicate IssuedSince(receipt: Receipt, floor: int) {
    receipt.issued.Some? && receipt.issued.value >= floor
  }

  /**
   * A table in the state the first `n` records call for, with the first `c` of them checkpointed:
   * the rows retention keeps, rollups of all rows in commit order down to the rollup cutoff, and all
   * receipts the floor has not retired.
   */
  ghost predicate TabOk(schema: Schema, name: string, t: Tab, hist: seq<Record>, c: nat)
    requires schema.Valid() && name in schema.tables && c <= |hist|
  {
    && multiset(t.cold) == multiset(Since(Rows(hist[..c], name), t.keep))
    && Rows(hist, name) == Rows(hist[..c], name) + Flat(t.hot) && AllSince(Flat(t.hot), t.keep)
    && t.rollups == AddRows(map[], Rows(hist, name), schema.tables[name].widths, t.keep.rollups)
    && t.receipts == Unpruned(schema, name, Receipts(schema, hist, name), t.floor)
  }

  /** No request ID is committed twice in one table. */
  ghost predicate OnceOnly(schema: Schema, hist: seq<Record>) {
    hist != [] ==>
      var n := |hist| - 1;
      OnceOnly(schema, hist[..n]) && FreshRecord(schema, hist[..n], hist[n])
  }

  ghost predicate FreshRecord(schema: Schema, hist: seq<Record>, rec: Record) {
    forall i :: 0 <= i < |rec| ==>
      && rec[i].table in schema.tables
      && rec[i].id !in Receipts(schema, hist, rec[i].table)
      && !UsesId(rec[..i], rec[i].table, rec[i].id)
      && AtOrAbove(schema, rec[i], None)
  }

  /** Every request of the record for this table is at or above the floor and within retention. */
  ghost predicate RecordAbove(schema: Schema, rec: Record, name: string, floor: Option<int>, keep: Keep) {
    forall i :: 0 <= i < |rec| && rec[i].table == name ==>
        AtOrAbove(schema, rec[i], floor) && Retained(rec[i].rows, keep)
  }

  /** Every request of the record respects the floors, table by table. */
  ghost predicate AboveFloors(schema: Schema, rec: Record, floors: map<string, int>) {
    forall i :: 0 <= i < |rec| && rec[i].table in floors ==> AtOrAbove(schema, rec[i], Some(floors[rec[i].table]))
  }

  // ------------------------------------------------------------ replaying one more record

  /** A replayed record adds its rows, its rollups and its receipts, and touches nothing else. */
  lemma {:induction false} ApplyRecordIs(schema: Schema, t: Tab, rec: Record, name: string, sequence: nat)
    requires schema.Valid() && name in schema.tables
    ensures var u := ApplyRecord(schema, t, rec, name, sequence);
            && u.cold == t.cold && u.floor == t.floor && u.keep == t.keep
            && Flat(u.hot) == Flat(t.hot) + RecordRows(rec, name, sequence)
            && t.hot <= u.hot
            && u.rollups == AddRows(t.rollups, RecordRows(rec, name, sequence), schema.tables[name].widths,
                                    t.keep.rollups)
            && u.receipts == t.receipts + RecordReceipts(schema, rec, name, sequence)
  {
    hide AddRow, Flat, Number, RowsOf, ReceiptOf;
    var widths := schema.tables[name].widths;
    if rec == [] {
      assert Flat(t.hot) + [] == Flat(t.hot);
      assert t.receipts + map[] == t.receipts;
    } else {
      var n := |rec| - 1;
      ApplyRecordIs(schema, t, rec[..n], name, sequence);
      var u, item := ApplyRecord(schema, t, rec[..n], name, sequence), rec[n];
      if item.table == name {
        var rows := Number(item.rows, sequence, RowsOf(rec[..n]));
        FlatSnoc(u.hot, rows);
        RowsConcat(t.rollups, RecordRows(rec[..n], name, sequence), rows, widths, t.keep.rollups);
        OverrideOne(t.receipts, RecordReceipts(schema, rec[..n], name, sequence), item.id,
                    ReceiptOf(schema, item, sequence));
      } else {
        assert RecordRows(rec[..n], name, sequence) + [] == RecordRows(rec[..n], name, sequence);
      }
    }
  }

  lemma FlatSnoc(batches: seq<seq<Stored>>, rows: seq<Stored>)
    ensures Flat(batches + [rows]) == Flat(batches) + rows
  {
    assert (batches + [rows])[..|batches|] == batches;
  }

  lemma {:induction false} FlatConcat(a: seq<seq<Stored>>, b: seq<seq<Stored>>)
    ensures Flat(a + b) == Flat(a) + Flat(b)
  {
    if b == [] {
      assert a + b == a;
    } else {
      var n := |b| - 1;
      FlatConcat(a, b[..n]);
      assert (a + b)[..|a| + n] == a + b[..n];
    }
  }

  lemma {:induction false} ReceiptIn(schema: Schema, rec: Record, name: string, sequence: nat, id: string)
    ensures id in RecordReceipts(schema, rec, name, sequence) <==> UsesId(rec, name, id)
    ensures id in RecordReceipts(schema, rec, name, sequence) ==>
      exists i :: 0 <= i < |rec| && rec[i].table == name && rec[i].id == id
        && RecordReceipts(schema, rec, name, sequence)[id] == ReceiptOf(schema, rec[i], sequence)
  {
    if rec != [] {
      var n := |rec| - 1;
      ReceiptIn(schema, rec[..n], name, sequence, id);
      if UsesId(rec[..n], name, id) {
        var i :| 0 <= i < n && rec[..n][i].table == name && rec[..n][i].id == id;
        assert rec[i].table == name && rec[i].id == id;
      }
    }
  }

  /** Every receipt of a replayable record is at or above the floor, so the floor keeps it. */
  lemma KeptReceipts(schema: Schema, t: Tab, rec: Record, name: string, sequence: nat, all: map<string, Receipt>)
    requires Replayable(schema, t, rec, name)
    ensures Unpruned(schema, name, all + RecordReceipts(schema, rec, name, sequence), t.floor)
         == Unpruned(schema, name, all, t.floor) + RecordReceipts(schema, rec, name, sequence)
  {
    var more := RecordReceipts(schema, rec, name, sequence);
    forall id | id in more
      ensures schema.Timed(name) && t.floor.Some? ==> more[id].issued.Some? && more[id].issued.value >= t.floor.value
    {
      ReceiptIn(schema, rec, name, sequence, id);
      var i :| 0 <= i < |rec| && rec[i].table == name && rec[i].id == id
          && more[id] == ReceiptOf(schema, rec[i], sequence);
      ReplayableAt(schema, t, rec, name, i);
    }
  }

  lemma {:induction false} ReplayableAt(schema: Schema, t: Tab, rec: Record, name: string, i: nat)
    requires Replayable(schema, t, rec, name) && i < |rec| && rec[i].table == name
    ensures AtOrAbove(schema, rec[i], t.floor) && rec[i].id !in t.receipts
  {
    if i < |rec| - 1 {
      ReplayableAt(schema, t, rec[..|rec| - 1], name, i);
    }
  }

  lemma HistorySnoc(schema: Schema, hist: seq<Record>, rec: Record, name: string)
    ensures Rows(hist + [rec], name) == Rows(hist, name) + RecordRows(rec, name, |hist| + 1)
    ensures Receipts(schema, hist + [rec], name)
      == Receipts(schema, hist, name) + RecordReceipts(schema, rec, name, |hist| + 1)
  {
    assert (hist + [rec])[..|hist|] == hist;
  }

  /** Replaying the next record brings a table to the state the longer history calls for. */
  lemma ApplyKeeps(schema: Schema, name: string, t: Tab, hist: seq<Record>, c: nat, rec: Record)
    requires schema.Valid() && name in schema.tables && c <= |hist|
    requires TabOk(schema, name, t, hist, c) && Replayable(schema, t, rec, name)
    ensures TabOk(schema, name, ApplyRecord(schema, t, rec, name, |hist| + 1), hist + [rec], c)
  {
    hide Rows, RecordRows, Receipts, RecordReceipts, Unpruned, AddRows, Replayable, Flat, ApplyRecord;
    var all := hist + [rec];
    assert all[..c] == hist[..c];
    HistorySnoc(schema, hist, rec, name);
    ApplyRecordIs(schema, t, rec, name, |hist| + 1);
    KeptReceipts(schema, t, rec, name, |hist| + 1, Receipts(schema, hist, name));
    RowsConcat(map[], Rows(hist, name), RecordRows(rec, name, |hist| + 1), schema.tables[name].widths, t.keep.rollups);
    ReplayedSince(schema, t, rec, name, |hist| + 1);
    Regroup(Rows(hist[..c], name), Flat(t.hot), RecordRows(rec, name, |hist| + 1));
  }

  /** The rows of a replayable record are all within retention. */
  lemma {:induction false} ReplayedSince(schema: Schema, t: Tab, rec: Record, name: string, sequence: nat)
    requires Replayable(schema, t, rec, name)
    ensures AllSince(RecordRows(rec, name, sequence), t.keep)
  {
    if rec != [] {
      ReplayedSince(schema, t, rec[..|rec| - 1], name, sequence);
    }
  }

  /** Retention keeps all of `b` when nothing in it has expired. */
  lemma SinceConcat(a: seq<Stored>, b: seq<Stored>, keep: Keep)
    requires AllSince(b, keep)
    ensures Since(a + b, keep) == Since(a, keep) + b
    decreases |b|
  {
    if b == [] {
      assert a + b == a;
    } else if keep.raw.Some? {
      var n := |b| - 1;
      SinceConcat(a, b[..n], keep);
      assert (a + b)[..|a| + n] == a + b[..n];
    }
  }

  /** A record of new requests, none below the table's floor or its retention, replays. */
  lemma {:induction false} FreshReplays(schema: Schema, name: string, t: Tab, hist: seq<Record>, c: nat, rec: Record)
    requires schema.Valid() && name in schema.tables && c <= |hist|
    requires TabOk(schema, name, t, hist, c) && FreshRecord(schema, hist, rec)
    requires RecordAbove(schema, rec, name, t.floor, t.keep)
    ensures Replayable(schema, t, rec, name)
  {
    if rec != [] {
      var n := |rec| - 1;
      assert forall i :: 0 <= i < n ==> rec[..n][i] == rec[i] && rec[..n][..i] == rec[..i];
      FreshReplays(schema, name, t, hist, c, rec[..n]);
      assert rec[n].table == name ==> rec[n].id !in Receipts(schema, hist, name);
    }
  }

  // ------------------------------------------------------------ checkpoints

  function Raise(schema: Schema, name: string, floor: Option<int>, floors: map<string, int>): (r: Option<int>) {
    if schema.Timed(name) && name in floors then
      Some(if floor.Some? && floor.value > floors[name] then floor.value else floors[name])
    else floor
  }

  /** The receipts a checkpoint keeps: those issued at or after the raised floor. */
  function Prune(schema: Schema, name: string, t: Tab, floors: map<string, int>): (r: map<string, Receipt>) {
    var floor := Raise(schema, name, t.floor, floors);
    if !schema.Timed(name) then t.receipts
    else
      map id | id in t.receipts && t.receipts[id].issued.Some?
          && (name in floors ==> IssuedSince(t.receipts[id], floor.value))
        :: t.receipts[id]
  }

  lemma {:induction false} TimedReceipts(schema: Schema, hist: seq<Record>, name: string, id: string)
    requires OnceOnly(schema, hist) && schema.Timed(name) && id in Receipts(schema, hist, name)
    ensures Receipts(schema, hist, name)[id].issued.Some?
    ensures Receipts(schema, hist, name)[id].issued == schema.issued(id)
  {
    var n := |hist| - 1;
    ReceiptIn(schema, hist[n], name, |hist|, id);
    if id !in RecordReceipts(schema, hist[n], name, |hist|) {
      TimedReceipts(schema, hist[..n], name, id);
    }
  }

  /** Pruning at a checkpoint leaves exactly what the raised floor leaves of all receipts. */
  lemma PruneIs(schema: Schema, name: string, t: Tab, hist: seq<Record>, floors: map<string, int>)
    requires OnceOnly(schema, hist) && t.receipts == Unpruned(schema, name, Receipts(schema, hist, name), t.floor)
    ensures Prune(schema, name, t, floors) == Unpruned(schema, name, Receipts(schema, hist, name),
                                                       Raise(schema, name, t.floor, floors))
  {
    var all := Receipts(schema, hist, name);
    if schema.Timed(name) {
      forall id | id in all ensures all[id].issued.Some? { TimedReceipts(schema, hist, name, id); }
    }
  }

  /** Checkpointing all of a table: the written segments hold its resident rows in some order. */
  function Frozen(schema: Schema, name: string, t: Tab, floors: map<string, int>, written: seq<Stored>): (r: Tab) {
    Tab(t.cold + written, [], Prune(schema, name, t, floors), t.rollups, Raise(schema, name, t.floor, floors), t.keep)
  }

  lemma FrozenOk(schema: Schema, name: string, t: Tab, hist: seq<Record>, c: nat, floors: map<string, int>,
                 written: seq<Stored>)
    requires schema.Valid() && name in schema.tables && c <= |hist| && OnceOnly(schema, hist)
    requires TabOk(schema, name, t, hist, c) && multiset(written) == multiset(Flat(t.hot))
    ensures TabOk(schema, name, Frozen(schema, name, t, floors, written), hist, |hist|)
  {
    hide Prune, Unpruned, Raise, AddRows, Rows, Receipts;
    assert hist[..|hist|] == hist;
    PruneIs(schema, name, t, hist, floors);
    assert Rows(hist, name) + [] == Rows(hist, name);
    SinceConcat(Rows(hist[..c], name), Flat(t.hot), t.keep);
    assert multiset(t.cold + written) == multiset(t.cold) + multiset(written);
  }

  /** Installing a published checkpoint into a live table that has since grown. */
  function Thaw(schema: Schema, name: string, live: Tab, frozen: Tab, root: Tab, removed: set<string>): (r: Tab)
    requires |frozen.hot| <= |live.hot|
  {
    Tab(root.cold, live.hot[|frozen.hot|..], live.receipts - removed, live.rollups, root.floor, live.keep)
  }

  /** Receipts captured but not kept. */
  function Retired(frozen: Tab, root: Tab): (r: set<string>) {
    frozen.receipts.Keys - root.receipts.Keys
  }

  /** The records after `m` keep out of what the floor and retention drop. */
  ghost predicate TailAbove(schema: Schema, hist: seq<Record>, m: nat, name: string, floor: Option<int>, keep: Keep) {
    forall k, i :: m <= k < |hist| && 0 <= i < |hist[k]| && hist[k][i].table == name ==>
      AtOrAbove(schema, hist[k][i], floor) && Retained(hist[k][i].rows, keep)
  }

  lemma {:induction false} OldOrTail(schema: Schema, hist: seq<Record>, m: nat, name: string, floor: Option<int>,
                                     keep: Keep, id: string)
    requires m <= |hist| && OnceOnly(schema, hist) && TailAbove(schema, hist, m, name, floor, keep)
    requires id in Receipts(schema, hist, name)
    ensures (id in Receipts(schema, hist[..m], name)
      && Receipts(schema, hist[..m], name)[id] == Receipts(schema, hist, name)[id])
         || (id !in Receipts(schema, hist[..m], name)
             && (schema.Timed(name) && floor.Some? ==>
                   Receipts(schema, hist, name)[id].issued.Some?
                       && Receipts(schema, hist, name)[id].issued.value >= floor.value))
  {
    if m == |hist| {
      assert hist[..m] == hist;
    } else {
      var n := |hist| - 1;
      var rec := RecordReceipts(schema, hist[n], name, |hist|);
      ReceiptIn(schema, hist[n], name, |hist|, id);
      assert hist[..n][..m] == hist[..m];
      if id in rec {
        var i :| 0 <= i < |hist[n]| && hist[n][i].table == name && hist[n][i].id == id
            && rec[id] == ReceiptOf(schema, hist[n][i], |hist|);
        assert id !in Receipts(schema, hist[..n], name);
        ReceiptsGrow(schema, hist[..n], m, name, id);
      } else {
        OldOrTail(schema, hist[..n], m, name, floor, keep, id);
      }
    }
  }

  /** Receipts accumulate. */
  lemma {:induction false} ReceiptsGrow(schema: Schema, hist: seq<Record>, m: nat, name: string, id: string)
    requires m <= |hist|
    ensures id in Receipts(schema, hist[..m], name) ==> id in Receipts(schema, hist, name)
  {
    if m == |hist| {
      assert hist[..m] == hist;
    } else {
      assert hist[..|hist| - 1][..m] == hist[..m];
      ReceiptsGrow(schema, hist[..|hist| - 1], m, name, id);
    }
  }

  lemma {:induction false} OnceOnlyPrefix(schema: Schema, hist: seq<Record>, m: nat)
    requires OnceOnly(schema, hist) && m <= |hist|
    ensures OnceOnly(schema, hist[..m])
  {
    if m == |hist| {
      assert hist[..m] == hist;
    } else {
      OnceOnlyPrefix(schema, hist[..|hist| - 1], m);
      assert hist[..|hist| - 1][..m] == hist[..m];
    }
  }

  /** Retiring the captured receipts from the live map leaves what the root's floor leaves of all receipts. */
  lemma ThawedReceipts(schema: Schema, name: string, live: Tab, frozen: Tab, root: Tab, hist: seq<Record>, m: nat)
    requires m <= |hist| && OnceOnly(schema, hist) && live.floor == frozen.floor
    requires live.receipts == Unpruned(schema, name, Receipts(schema, hist, name), live.floor)
    requires frozen.receipts == Unpruned(schema, name, Receipts(schema, hist[..m], name), frozen.floor)
    requires root.receipts == Unpruned(schema, name, Receipts(schema, hist[..m], name), root.floor)
    requires TailAbove(schema, hist, m, name, root.floor, root.keep)
    requires schema.Timed(name) && frozen.floor.Some? ==> root.floor.Some? && root.floor.value >= frozen.floor.value
    ensures live.receipts - Retired(frozen, root) == Unpruned(schema, name, Receipts(schema, hist, name), root.floor)
  {
    hide Receipts, OnceOnly, TailAbove;
    var all, old_, gone := Receipts(schema, hist, name), Receipts(schema, hist[..m], name), Retired(frozen, root);
    var kept := Unpruned(schema, name, all, root.floor);
    forall id | id in all ensures id in live.receipts - gone <==> id in kept {
      OldOrTail(schema, hist, m, name, root.floor, root.keep, id);
    }
    assert (live.receipts - gone).Keys == kept.Keys;
  }

  lemma FlatSplit(all: seq<seq<Stored>>, some: seq<seq<Stored>>)
    requires some <= all
    ensures Flat(all) == Flat(some) + Flat(all[|some|..])
  {
    assert all == some + all[|some|..];
    FlatConcat(some, all[|some|..]);
  }

  lemma Regroup<T>(a: seq<T>, b: seq<T>, c: seq<T>)
    ensures a + (b + c) == (a + b) + c
  {
  }

  lemma SuffixSince(a: seq<Stored>, b: seq<Stored>, keep: Keep)
    requires AllSince(a + b, keep)
    ensures AllSince(b, keep)
  {
    assert forall i :: 0 <= i < |b| ==> b[i] == (a + b)[|a| + i];
  }

  /**
   * A published checkpoint leaves the live table in the state the whole history calls for, checkpointed
   * through `m`.
   */
  lemma ThawOk(schema: Schema, name: string, live: Tab, frozen: Tab, hist: seq<Record>, c: nat, m: nat,
               floors: map<string, int>, written: seq<Stored>)
    requires schema.Valid() && name in schema.tables && c <= m <= |hist| && OnceOnly(schema, hist)
    requires TabOk(schema, name, live, hist, c) && TabOk(schema, name, frozen, hist[..m], c)
    requires frozen.hot <= live.hot && live.floor == frozen.floor && live.keep == frozen.keep
    requires multiset(written) == multiset(Flat(frozen.hot))
    requires var root := Frozen(schema, name, frozen, floors, written); TailAbove(schema, hist, m, name, root.floor,
      root.keep)
    ensures var root := Frozen(schema, name, frozen, floors, written);
            TabOk(schema, name, Thaw(schema, name, live, frozen, root, Retired(frozen, root)), hist, m)
  {
    hide Prune, Unpruned, AddRows, Rows, Receipts, OnceOnly, TailAbove, Flat;
    var root := Frozen(schema, name, frozen, floors, written);
    OnceOnlyPrefix(schema, hist, m);
    FrozenOk(schema, name, frozen, hist[..m], c, floors, written);
    assert hist[..m][..m] == hist[..m] && hist[..m][..c] == hist[..c];
    FlatSplit(live.hot, frozen.hot);
    SuffixSince(Flat(frozen.hot), Flat(live.hot[|frozen.hot|..]), live.keep);
    Regroup(Rows(hist[..c], name), Flat(frozen.hot), Flat(live.hot[|frozen.hot|..]));
    ThawedReceipts(schema, name, live, frozen, root, hist, m);
  }

  // ------------------------------------------------------------ retention and compaction

  /** A table's rewritten segment rows and its new retention. */
  datatype Upkeep = Upkeep(cold: seq<Stored>, keep: Keep)

  predicate RawRises(a: Option<int>, b: Option<int>) {
    a.Some? ==> b.Some? && a.value <= b.value
  }

  predicate KeepRises(a: Keep, b: Keep) {
    RawRises(a.raw, b.raw) && CutRises(a.rollups, b.rollups)
  }

  /** Cutoffs only rise, and the rewritten segments hold what the new cutoff leaves, in any order. */
  ghost predicate UpkeepOk(t: Tab, u: Upkeep) {
    KeepRises(t.keep, u.keep) && multiset(u.cold) == multiset(Since(t.cold, u.keep))
  }

  function Upkept(t: Tab, u: Upkeep): (r: Tab) {
    t.(cold := u.cold, rollups := Restrict(t.rollups, u.keep.rollups), keep := u.keep)
  }

  lemma SinceCount(rows: seq<Stored>, keep: Keep, s: Stored)
    ensures multiset(Since(rows, keep))[s] == if keep.raw.Some? && s.row.time < keep.raw.value then 0
      else multiset(rows)[s]
  {
    if keep.raw.Some? {
      KeptCount(rows, keep.raw, s);
    }
  }

  /** Dropping rows below a later cutoff is never having kept them. */
  lemma SinceTwice(rows: seq<Stored>, cold: seq<Stored>, was: Keep, now: Keep)
    requires multiset(cold) == multiset(Since(rows, was)) && RawRises(was.raw, now.raw)
    ensures multiset(Since(cold, now)) == multiset(Since(rows, now))
  {
    hide Since;
    forall s ensures multiset(Since(cold, now))[s] == multiset(Since(rows, now))[s] {
      SinceCount(cold, now, s);
      SinceCount(rows, was, s);
      SinceCount(rows, now, s);
    }
  }

  /** Retention of a fully checkpointed table leaves it in the state the history calls for under the new cutoffs. */
  lemma UpkeepKeeps(schema: Schema, name: string, t: Tab, u: Upkeep, hist: seq<Record>)
    requires schema.Valid() && name in schema.tables && TabOk(schema, name, t, hist, |hist|) && UpkeepOk(t, u)
    ensures TabOk(schema, name, Upkept(t, u), hist, |hist|)
    ensures Flat(t.hot) == []
  {
    hide Rows, Receipts, Unpruned, AddRows, Since, Restrict, Flat;
    assert hist[..|hist|] == hist;
    assert |Rows(hist, name)| == |Rows(hist, name)| + |Flat(t.hot)|;
    SinceTwice(Rows(hist, name), t.cold, t.keep, u.keep);
    RestrictIs(Rows(hist, name), schema.tables[name].widths, t.keep.rollups, u.keep.rollups);
  }

  // ------------------------------------------------------------ marks

  /** A record's rows carry its sequence and distinct ordinals below its row count. */
  lemma {:induction false} RecordMarks(rec: Record, name: string, sequence: nat)
    ensures var rows := RecordRows(rec, name, sequence);
      && (forall i :: 0 <= i < |rows| ==> rows[i].sequence == sequence && rows[i].ordinal < RowsOf(rec))
      && DistinctMarks(rows)
  {
    if rec != [] {
      RecordMarks(rec[..|rec| - 1], name, sequence);
    }
  }

  /** The rows of a table's history carry distinct marks: time aside, a record's sequence and an ordinal. */
  lemma {:induction false} RowsMarks(hist: seq<Record>, name: string)
    ensures forall i :: 0 <= i < |Rows(hist, name)| ==> Rows(hist, name)[i].sequence <= |hist|
    ensures DistinctMarks(Rows(hist, name))
  {
    hide RecordRows;
    if hist != [] {
      RowsMarks(hist[..|hist| - 1], name);
      RecordMarks(hist[|hist| - 1], name, |hist|);
    }
  }
}
