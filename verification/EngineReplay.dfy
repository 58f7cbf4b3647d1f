/** Installing a staged group is replaying its record request by request. */
module EngineReplay {
  import opened Common
  import opened Rollup
  import opened Sums
  import opened Decimal
  import opened Engine

  const MAX_FUTURE_SKEW: int := 5 * 60 * 1_000_000

  datatype Outcome = Accepted(receipt: Receipt) | Duplicate(receipt: Receipt) | Refused

  datatype Staging = Staging(delta: Delta, items: seq<Item>, rows: nat, outcomes: seq<Outcome>)

  /**
   * What staging depends on besides the state: the record's number, the other users of working memory,
   * private admission.
   */
  datatype Epoch = Epoch(sequence: nat, busy: nat -> nat, admit: nat -> bool)

  /** Every table has its account and a valid configuration. */
  ghost predicate Ready(s: State) {
    && s.accounts.Keys == s.tables.Keys
    && (forall name :: name in s.tables ==> s.tables[name].config.Valid())
    && s.checkpoint <= s.sequence
  }

  // ------------------------------------------------------------ retries

  datatype Retry = Retry(duplicate: Option<Receipt>, floor: Option<int>) | NoRetry

  function Saturate(x: int): (r: int) {
    if x < I64_MIN then I64_MIN else if x > I64_MAX then I64_MAX else x
  }

  /** The retry check: the clock window first, then an existing receipt's digest. */
  function RetryWith(issued: Option<int>, config: TableConfig, receipt: Option<Receipt>, previous: Option<int>,
                     item: Item): (r: Retry) {
    var duplicate :=
      if receipt.Some? && receipt.value.digest != item.digest then NoRetry
      else Retry(receipt, None);
    match config.idWindow
    case None => duplicate
    case Some(window) =>
      var floor := Max(if previous.Some? then previous.value else I64_MIN, Saturate(item.now - window));
      if issued.None? || issued.value < floor then NoRetry
      else if receipt.None? && issued.value > Saturate(item.now + MAX_FUTURE_SKEW) then NoRetry
      else if duplicate.NoRetry? then NoRetry
      else Retry(receipt, Some(floor))
  }

  function ReceiptThrough(s: State, d: Delta, name: string, id: string): (r: Option<Receipt>)
    requires name in s.tables
  {
    if name in d.tables && id in d.tables[name].receipts then Some(d.tables[name].receipts[id])
    else if id in s.tables[name].receipts then Some(s.tables[name].receipts[id])
    else None
  }

  function FloorThrough(s: State, d: Delta, name: string): (r: Option<int>) {
    if name in d.floors then Some(d.floors[name]) else if name in s.floors then Some(s.floors[name]) else None
  }

  predicate OnTime(config: TableConfig, item: Item) {
    config.lateAfter.Some? ==>
      forall i :: 0 <= i < |item.rows| ==> item.rows[i].time >= Saturate(item.now - config.lateAfter.value)
  }

  // ------------------------------------------------------------ staging a group

  ghost function StageOne(cfg: Config, sz: Sizes, s: State, e: Epoch, reserved: string, st: Staging,
                          item: Item): (r: Staging)
    requires Ready(s)
  {
    if item.table !in s.tables then st.(outcomes := st.outcomes + [Refused])
    else
      var config := s.tables[item.table].config;
      var retry := RetryWith(sz.issued(item.id), config, ReceiptThrough(s, st.delta, item.table, item.id),
                             FloorThrough(s, st.delta, item.table), item);
      if retry.NoRetry? then st.(outcomes := st.outcomes + [Refused])
      else
        var d := if retry.floor.Some? then st.delta.(floors := st.delta.floors[item.table := retry.floor.value])
            else st.delta;
        var v := LookThrough(s, d, item.table);
        if retry.duplicate.Some? then
          Staging(d, st.items, st.rows, st.outcomes + [Duplicate(retry.duplicate.value)])
        else if !OnTime(config, item) || !e.admit(|st.outcomes|)
             || !Admits(cfg, sz, v, item, e.sequence, st.rows, Some(reserved), false, e.busy(|st.outcomes|)) then
          Staging(d, st.items, st.rows, st.outcomes + [Refused])
        else
          var p := Plan(sz, v, item, e.sequence, st.rows, Some(reserved));
          Staging(Push(s, d, p), st.items + [item], st.rows + |item.rows|, st.outcomes + [Accepted(p.receipt)])
  }

  ghost function Stage(cfg: Config, sz: Sizes, s: State, e: Epoch, reserved: string, requests: seq<Item>): (r: Staging)
    requires Ready(s)
  {
    if requests == [] then Staging(Fresh(s), [], 0, [])
    else
      var n := |requests| - 1;
      StageOne(cfg, sz, s, e, reserved, Stage(cfg, sz, s, e, reserved, requests[..n]), requests[n])
  }

  /** The record's proof replaces the reservation in every staged receipt. */
  function Stamp(d: Delta, proof: string): (r: Delta) {
    d.(tables := map name | name in d.tables :: StampTable(d.tables[name], proof))
  }

  function StampTable(t: Touched, proof: string): (r: Touched) {
    t.(receipts := map id | id in t.receipts :: t.receipts[id].(proof := Some(proof)))
  }

  // ------------------------------------------------------------ replaying a record

  datatype Replay = Replay(state: State, ordinal: nat) | Failed

  ghost predicate RecoveryOk(cfg: Config, s: State, busy: nat) {
    && s.resident + busy <= cfg.derivedMax
    && (!(s.pages || cfg.derivedPages) ==> s.metadata + Sum(HotCounts(s.hot)) * 512 <= cfg.metadataMax)
    && s.hotBytes <= cfg.hotMaxBytes && Sum(HotCounts(s.hot)) <= cfg.hotMaxRows
    && Sum(ReceiptCounts(s.tables)) <= cfg.maxIds && Sum(GroupCounts(s.tables)) <= cfg.maxGroups
  }

  /** One request of a recovered group: the same checks on the committed state, then its own overlay. */
  ghost function ReplayOne(cfg: Config, sz: Sizes, r: Replay, item: Item, sequence: nat, proof: string,
                           busy: nat): (t: Replay) {
    if r.Failed? || r.ordinal + |item.rows| > cfg.maxBatchRows then Failed
    else if item.table !in r.state.tables || item.table !in r.state.accounts then Failed
    else
      var v := Look(r.state, item.table);
      if !Admits(cfg, sz, v, item, sequence, r.ordinal, Some(proof), true, busy) then Failed
      else
        var p := Plan(sz, v, item, sequence, r.ordinal, Some(proof));
        var next := Install(r.state, Push(r.state, Fresh(r.state), p));
        if !RecoveryOk(cfg, next, busy) then Failed else Replay(next, r.ordinal + |item.rows|)
  }

  ghost function ReplayItems(cfg: Config, sz: Sizes, s: State, items: seq<Item>, sequence: nat, proof: string,
                             busy: nat): (r: Replay) {
    if items == [] then Replay(s, 0)
    else ReplayOne(cfg, sz, ReplayItems(cfg, sz, s, items[..|items| - 1], sequence, proof, busy), items[|items| - 1],
                   sequence, proof, busy)
  }

  // ------------------------------------------------------------ one push is one application

  lemma {:induction false} BatchesSnoc(hot: map<string, seq<Batch>>, batches: seq<(string, Batch)>, name: string,
                                       batch: Batch)
    ensures AddBatches(hot, batches + [(name, batch)]) == AddBatch(AddBatches(hot, batches), name, batch)
  {
    assert (batches + [(name, batch)])[..|batches|] == batches;
  }

  lemma OverrideOne<K, V>(a: map<K, V>, b: map<K, V>, k: K, v: V)
    ensures a + b[k := v] == (a + b)[k := v] && a + map[] == a
  {
  }

  lemma OverrideMore<K, V>(a: map<K, V>, b: map<K, V>, c: map<K, V>)
    ensures a + (b + c) == (a + b) + c && a + map[] == a
  {
  }

  lemma PushedTable(s: State, d: Delta, p: Prepared)
    requires Ready(s) && p.table in s.tables
    ensures InstallTable(s.tables[p.table], Push(s, d, p), p.table)
      == Receive(InstallTable(s.tables[p.table], d, p.table), p)
  {
    hide Replaced;
    var t, over := s.tables[p.table], TouchedOf(s, d, p.table);
    OverrideOne(t.receipts, over.receipts, p.id, p.receipt);
    OverrideMore(t.rollups, over.rollups, p.updates);
  }

  lemma PushedTables(s: State, d: Delta, p: Prepared)
    requires Ready(s) && p.table in s.tables
    ensures p.table in InstallTables(s.tables, d)
    ensures InstallTables(s.tables, Push(s, d, p))
         == InstallTables(s.tables, d)[p.table := Receive(InstallTables(s.tables, d)[p.table], p)]
  {
    hide Replaced, LookThrough, InstallTable;
    PushedTable(s, d, p);
    forall name | name in s.tables && name != p.table
      ensures InstallTable(s.tables[name], Push(s, d, p), name) == InstallTable(s.tables[name], d, name)
    {
      UntouchedTable(s, d, p, name);
    }
  }

  lemma UntouchedTable(s: State, d: Delta, p: Prepared, name: string)
    requires Ready(s) && p.table in s.tables && name in s.tables && name != p.table
    ensures InstallTable(s.tables[name], Push(s, d, p), name) == InstallTable(s.tables[name], d, name)
  {
    hide Replaced, LookThrough;
  }

  lemma PushedAccounts(s: State, d: Delta, p: Prepared)
    requires Ready(s) && p.table in s.tables
    ensures InstallAccounts(s.accounts, Push(s, d, p)) == InstallAccounts(s.accounts, d)[p.table := p.account]
  {
    hide Replaced, LookThrough;
  }

  /** Installing a delta with one more request is applying that request to the installed delta. */
  lemma PushInstalls(s: State, d: Delta, p: Prepared)
    requires Ready(s) && p.table in s.tables
    ensures p.table in Install(s, d).tables
    ensures Install(s, Push(s, d, p)) == Apply(Install(s, d), p)
  {
    hide Replaced, LookThrough, AddBatches, InstallTables, InstallAccounts, Receive, AddBatch;
    PushedTables(s, d, p);
    PushedAccounts(s, d, p);
    BatchesSnoc(s.hot, d.batches, p.table, p.batch);
  }

  lemma FreshInstalls(s: State)
    ensures Install(s, Fresh(s)) == s
  {
    assert s.floors + map[] == s.floors;
  }

  lemma ReplayApplies(s: State, p: Prepared)
    requires Ready(s) && p.table in s.tables
    ensures Install(s, Push(s, Fresh(s), p)) == Apply(s, p)
  {
    FreshInstalls(s);
    PushInstalls(s, Fresh(s), p);
  }

  // ------------------------------------------------------------ what a request adds to the counts

  lemma {:induction false} BatchRowsSnoc(batches: seq<Batch>, batch: Batch)
    ensures BatchRows(batches + [batch]) == BatchRows(batches) + |batch.rows|
  {
    assert (batches + [batch])[..|batches|] == batches;
  }

  lemma HotGrows(hot: map<string, seq<Batch>>, name: string, batch: Batch)
    ensures Sum(HotCounts(AddBatch(hot, name, batch))) == Sum(HotCounts(hot)) + |batch.rows|
  {
    hide Sum;
    var was := if name in hot then hot[name] else [];
    BatchRowsSnoc(was, batch);
    SumUpdate(HotCounts(hot), name, BatchRows(was) + |batch.rows|);
    assert HotCounts(AddBatch(hot, name, batch)) == HotCounts(hot)[name := BatchRows(was) + |batch.rows|];
  }

  lemma ReceiptsGrow(tables: map<string, Table>, name: string, t: Table)
    requires name in tables
    ensures Sum(ReceiptCounts(tables[name := t])) + |tables[name].receipts| == Sum(ReceiptCounts(tables)) + |t.receipts|
  {
    hide Sum;
    SumUpdate(ReceiptCounts(tables), name, |t.receipts|);
    assert ReceiptCounts(tables[name := t]) == ReceiptCounts(tables)[name := |t.receipts|];
  }

  lemma GroupsGrow(tables: map<string, Table>, name: string, t: Table)
    requires name in tables
    ensures Sum(GroupCounts(tables[name := t])) + |tables[name].rollups| == Sum(GroupCounts(tables)) + |t.rollups|
  {
    hide Sum;
    SumUpdate(GroupCounts(tables), name, |t.rollups|);
    assert GroupCounts(tables[name := t]) == GroupCounts(tables)[name := |t.rollups|];
  }

  lemma SumReplaced(m: map<string, nat>, name: string, v: nat)
    requires name in m
    ensures Sum(m[name := v]) == Engine.Less(Sum(m), m[name]) + v
  {
    SumUpdate(m, name, v);
    AtMost(m, name);
  }

  lemma TotalsReplaced(accounts: map<string, TableAccount>, name: string, now: TableAccount)
    requires name in accounts
    ensures TotalsOf(accounts[name := now]) == Replaced(TotalsOf(accounts), accounts[name], now)
  {
    var next := accounts[name := now];
    SumReplaced(Roots(accounts), name, now.root);
    SumReplaced(Encodeds(accounts), name, now.encoded);
    SumReplaced(Oversizeds(accounts), name, now.oversized);
    assert Roots(next) == Roots(accounts)[name := now.root];
    assert Encodeds(next) == Encodeds(accounts)[name := now.encoded];
    assert Oversizeds(next) == Oversizeds(accounts)[name := now.oversized];
  }

  lemma MapUnionSize<K, V>(a: map<K, V>, b: map<K, V>)
    ensures |a + b| == |a| + |b.Keys - a.Keys|
  {
    assert (a + b).Keys == a.Keys + (b.Keys - a.Keys);
    assert |(a + b).Keys| == |a + b| && |a.Keys| == |a|;
  }

  lemma MapInsertSize<K, V>(a: map<K, V>, k: K, v: V)
    requires k !in a
    ensures |a[k := v]| == |a| + 1
  {
    assert a[k := v].Keys == a.Keys + {k};
    assert |a[k := v].Keys| == |a[k := v]| && |a.Keys| == |a|;
  }

  /** Counts after a request whose ID is new. */
  lemma ApplyCounts(s: State, p: Prepared)
    requires Ready(s) && p.table in s.tables && p.id !in s.tables[p.table].receipts
    ensures var n := Apply(s, p);
            && Ready(n)
            && Sum(ReceiptCounts(n.tables)) == Sum(ReceiptCounts(s.tables)) + 1
            && Sum(GroupCounts(n.tables))
                  == Sum(GroupCounts(s.tables)) + |p.updates.Keys - s.tables[p.table].rollups.Keys|
            && Sum(HotCounts(n.hot)) == Sum(HotCounts(s.hot)) + |p.batch.rows|
            && TotalsOf(n.accounts) == Replaced(TotalsOf(s.accounts), s.accounts[p.table], p.account)
  {
    hide Replaced, TotalsOf, HotCounts, ReceiptCounts, GroupCounts, AddBatch;
    var t := s.tables[p.table];
    HotGrows(s.hot, p.table, p.batch);
    var next := Receive(t, p);
    ReceiptsGrow(s.tables, p.table, next);
    GroupsGrow(s.tables, p.table, next);
    TotalsReplaced(s.accounts, p.table, p.account);
    MapUnionSize(t.rollups, p.updates);
    MapInsertSize(t.receipts, p.id, p.receipt);
  }

  /** The overlay shows exactly what the committed state would, were it installed. */
  ghost predicate Synced(base: State, d: Delta, s: State) {
    && Ready(base) && Ready(s) && s.tables.Keys == base.tables.Keys
    && forall name :: name in base.tables ==> LookThrough(base, d, name) == Look(s, name)
  }

  lemma FreshSynced(base: State)
    requires Ready(base)
    ensures Synced(base, Fresh(base), base)
  {
    hide Sum, HotCounts, ReceiptCounts, GroupCounts, TotalsOf;
    forall name | name in base.tables ensures LookThrough(base, Fresh(base), name) == Look(base, name) {
      var t := base.tables[name];
      assert t.receipts.Keys + {} == t.receipts.Keys && t.rollups + map[] == t.rollups;
    }
  }

  /** What a request's table looks like once the request is in. */
  ghost function Grown(v: Sight, p: Prepared): (r: Sight) {
    Elsewhere(v, v, p).(ids := v.ids + {p.id}, rollups := v.rollups + p.updates, account := p.account)
  }

  /** What any table `w` looks like once a request for table `v` is in. */
  ghost function Elsewhere(w: Sight, v: Sight, p: Prepared): (r: Sight) {
    w.(hotBytes := w.hotBytes + p.bytes, hotRows := w.hotRows + |p.batch.rows|, receipts := w.receipts + 1,
       groups := w.groups + |p.updates.Keys - v.rollups.Keys|, metadata := p.metadata, resident := p.resident,
       totals := Replaced(w.totals, v.account, p.account))
  }

  lemma ThroughPushed(base: State, d: Delta, p: Prepared)
    requires Ready(base) && p.table in base.tables
    ensures LookThrough(base, Push(base, d, p), p.table) == Grown(LookThrough(base, d, p.table), p)
  {
    hide Replaced;
    var t, over := base.tables[p.table], TouchedOf(base, d, p.table);
    assert TouchedOf(base, Push(base, d, p), p.table) == Stack(over, p);
    StackedMaps(t, over, p);
  }

  lemma StackedMaps(t: Table, over: Touched, p: Prepared)
    ensures t.receipts.Keys + Stack(over, p).receipts.Keys == (t.receipts.Keys + over.receipts.Keys) + {p.id}
    ensures t.rollups + Stack(over, p).rollups == (t.rollups + over.rollups) + p.updates
  {
    OverrideMore(t.rollups, over.rollups, p.updates);
    assert over.receipts[p.id := p.receipt].Keys == over.receipts.Keys + {p.id};
  }

  lemma ThroughOther(base: State, d: Delta, p: Prepared, name: string)
    requires Ready(base) && p.table in base.tables && name in base.tables && name != p.table
    ensures LookThrough(base, Push(base, d, p), name) == Elsewhere(LookThrough(base, d, name),
                                                                   LookThrough(base, d, p.table), p)
  {
    hide Replaced, Push, TouchedOf;
    TouchedElsewhere(base, d, p, name);
    PushedScalars(base, d, p);
  }

  /** Another table's private changes are as they were. */
  lemma TouchedElsewhere(base: State, d: Delta, p: Prepared, name: string)
    requires Ready(base) && p.table in base.tables && name in base.tables && name != p.table
    ensures TouchedOf(base, Push(base, d, p), name) == TouchedOf(base, d, name)
  {
    hide Replaced, Stack;
  }

  /** The running scalars of a delta after one more request. */
  lemma PushedScalars(base: State, d: Delta, p: Prepared)
    requires Ready(base) && p.table in base.tables
    ensures var n, over := Push(base, d, p), TouchedOf(base, d, p.table);
      && n.hotBytes == d.hotBytes + p.bytes && n.hotRows == d.hotRows + |p.batch.rows| && n.receipts == d.receipts + 1
      && n.groups == d.groups + |p.updates.Keys - (base.tables[p.table].rollups + over.rollups).Keys|
      && n.metadata == p.metadata && n.resident == p.resident && n.totals == Replaced(d.totals, over.account, p.account)
  {
    hide Replaced, Stack, TouchedOf, Ready;
  }

  lemma AppliedReady(s: State, q: Prepared)
    requires Ready(s) && q.table in s.tables
    ensures Ready(Apply(s, q)) && Apply(s, q).tables.Keys == s.tables.Keys
  {
    hide AddBatch;
  }

  lemma AppliedSight(s: State, q: Prepared)
    requires Ready(s) && q.table in s.tables && q.id !in s.tables[q.table].receipts
    ensures q.table in Apply(s, q).tables && q.table in Apply(s, q).accounts
    ensures Look(Apply(s, q), q.table) == Grown(Look(s, q.table), q)
  {
    hide Replaced, TotalsOf, HotCounts, ReceiptCounts, GroupCounts, AddBatch, Sum, Ready, Receive;
    ApplyCounts(s, q);
    ReceivedParts(s.tables[q.table], q);
  }

  lemma ReceivedParts(t: Table, q: Prepared)
    ensures var r := Receive(t, q);
      && r == t.(receipts := r.receipts, rollups := r.rollups)
      && r.receipts.Keys == t.receipts.Keys + {q.id} && r.rollups == t.rollups + q.updates
  {
    assert t.receipts[q.id := q.receipt].Keys == t.receipts.Keys + {q.id};
  }

  lemma AppliedElsewhere(s: State, q: Prepared, name: string)
    requires Ready(s) && q.table in s.tables && q.id !in s.tables[q.table].receipts && name in s.tables
    requires name != q.table
    ensures Ready(Apply(s, q)) && name in Apply(s, q).tables
    ensures Look(Apply(s, q), name) == Elsewhere(Look(s, name), Look(s, q.table), q)
  {
    hide Replaced, TotalsOf, HotCounts, ReceiptCounts, GroupCounts, AddBatch, Sum;
    ApplyCounts(s, q);
  }

  lemma PushedAt(base: State, d: Delta, s: State, p: Prepared, q: Prepared, name: string)
    requires Ready(base) && Ready(s) && s.tables.Keys == base.tables.Keys && name in base.tables
    requires p.table in base.tables
    requires LookThrough(base, d, p.table) == Look(s, p.table) && LookThrough(base, d, name) == Look(s, name)
    requires p.id !in s.tables[p.table].receipts && q == p.(receipt := q.receipt)
    ensures name in Apply(s, q).tables && name in Apply(s, q).accounts
    ensures LookThrough(base, Push(base, d, p), name) == Look(Apply(s, q), name)
  {
    hide LookThrough, Look, Push, Apply, Replaced;
    if name == p.table {
      AppliedSight(s, q);
      ThroughPushed(base, d, p);
    } else {
      ThroughOther(base, d, p, name);
      AppliedElsewhere(s, q, name);
    }
  }

  lemma PushSynced(base: State, d: Delta, s: State, p: Prepared, q: Prepared)
    requires Synced(base, d, s) && p.table in base.tables && p.id !in s.tables[p.table].receipts
    requires q == p.(receipt := q.receipt)
    ensures Synced(base, Push(base, d, p), Apply(s, q))
  {
    hide LookThrough, Look, Push, Apply;
    AppliedReady(s, q);
    var next, n := Push(base, d, p), Apply(s, q);
    forall name | name in base.tables ensures LookThrough(base, next, name) == Look(n, name) {
      PushedAt(base, d, s, p, q, name);
    }
  }

  // ------------------------------------------------------------ the proof's reservation

  function Proved(p: Prepared, proof: string): (r: Prepared) {
    p.(receipt := p.receipt.(proof := Some(proof)))
  }

  /** Sizes see only the length of a proof, so a reservation of the same length plans the same changes. */
  lemma PlanIgnoresProof(sz: Sizes, v: Sight, item: Item, sequence: nat, ordinal: nat, reserved: string, proof: string)
    requires v.config.Valid() && |reserved| == |proof|
    ensures Plan(sz, v, item, sequence, ordinal, Some(proof))
      == Proved(Plan(sz, v, item, sequence, ordinal, Some(reserved)), proof)
  {
    hide UpdatesOf, Upsert, UpsertRollups, RollupsDelta, RollupsResident, UpsertDelta, Number;
    var a := ReceiptFor(sz, v, item, sequence, Some(reserved));
    var b := ReceiptFor(sz, v, item, sequence, Some(proof));
    assert ShapeOf(a) == ShapeOf(b);
  }

  /** A request admitted live is admitted on replay, where fewer checks and less working memory apply. */
  lemma AdmittedOnReplay(cfg: Config, sz: Sizes, v: Sight, item: Item, sequence: nat, ordinal: nat,
                         reserved: string, proof: string, live: nat, busy: nat)
    requires |reserved| == |proof| && busy <= live
    requires Admits(cfg, sz, v, item, sequence, ordinal, Some(reserved), false, live)
    ensures Admits(cfg, sz, v, item, sequence, ordinal, Some(proof), true, busy)
  {
    hide Plan, RollupsWorking, HeadroomOk;
    PlanIgnoresProof(sz, v, item, sequence, ordinal, reserved, proof);
    var p := Plan(sz, v, item, sequence, ordinal, Some(reserved));
    assert p.receipt.proof == Some(reserved);
    assert ShapeOf(p.receipt) == ShapeOf(Proved(p, proof).receipt);
  }

  /** Stamping the staged receipts commutes with staging one more. */
  lemma StampPush(s: State, d: Delta, p: Prepared, proof: string)
    requires Ready(s) && p.table in s.tables
    ensures Stamp(Push(s, d, p), proof) == Push(s, Stamp(d, proof), Proved(p, proof))
  {
    hide Replaced, StampTable, Stack;
    var name := p.table;
    StampTouched(s, d, proof, name);
    StampStack(TouchedOf(s, d, name), p, proof);
    StampInsert(d, name, Stack(TouchedOf(s, d, name), p), proof);
    StampShape(TouchedOf(s, d, name), proof);
  }

  lemma StampShape(t: Touched, proof: string)
    ensures StampTable(t, proof).rollups == t.rollups && StampTable(t, proof).account == t.account
    ensures StampTable(t, proof).receipts.Keys == t.receipts.Keys
  {
  }

  lemma StampTouched(s: State, d: Delta, proof: string, name: string)
    requires name in s.accounts
    ensures TouchedOf(s, Stamp(d, proof), name) == StampTable(TouchedOf(s, d, name), proof)
  {
    var none := Touched(map[], map[], s.accounts[name]);
    assert StampTable(none, proof) == none;
  }

  lemma StampStack(t: Touched, p: Prepared, proof: string)
    ensures StampTable(Stack(t, p), proof) == Stack(StampTable(t, proof), Proved(p, proof))
  {
    assert StampTable(Stack(t, p), proof).receipts == Stack(StampTable(t, proof), Proved(p, proof)).receipts;
  }

  lemma StampInsert(d: Delta, name: string, t: Touched, proof: string)
    ensures Stamp(d.(tables := d.tables[name := t]), proof).tables
      == Stamp(d, proof).tables[name := StampTable(t, proof)]
  {
    hide StampTable;
  }

  /** The committed state once the staged group is installed, apart from the live clock floors. */
  function Installed(s: State, d: Delta, proof: string): (r: State) {
    Install(s, Stamp(d, proof)).(floors := s.floors)
  }

  lemma FloorsAside(s: State, d: Delta, floors: map<string, int>, proof: string)
    requires Ready(s)
    ensures Installed(s, d.(floors := floors), proof) == Installed(s, d, proof)
    ensures forall name :: name in s.tables ==> LookThrough(s, d.(floors := floors), name) == LookThrough(s, d, name)
  {
    hide AddBatches, Sum;
    var a, b := Stamp(d.(floors := floors), proof), Stamp(d, proof);
    assert a == b.(floors := floors);
    assert Install(s, a).tables == Install(s, b).tables;
    assert Install(s, a).accounts == Install(s, b).accounts;
  }

  /** Accepting one more request, installed, is applying the request as replay plans it. */
  lemma AcceptInstalls(s: State, d: Delta, p: Prepared, proof: string)
    requires Ready(s) && p.table in s.tables
    ensures p.table in Installed(s, d, proof).tables
    ensures Installed(s, Push(s, d, p), proof) == Apply(Installed(s, d, proof), Proved(p, proof))
  {
    hide Install, Push, Stamp, AddBatch;
    StampPush(s, d, p, proof);
    PushInstalls(s, Stamp(d, proof), Proved(p, proof));
    assert Proved(p, proof).table == p.table;
    InstalledTables(s, d, proof);
  }

  lemma InstalledTables(s: State, d: Delta, proof: string)
    ensures Installed(s, d, proof).tables.Keys == s.tables.Keys && Installed(s, d, proof).checkpoint == s.checkpoint
  {
  }

  /** Admission leaves every recovery budget satisfied. */
  lemma RecoveryHolds(cfg: Config, sz: Sizes, s: State, item: Item, sequence: nat, ordinal: nat, proof: string,
                      busy: nat)
    requires Ready(s) && item.table in s.tables && s.checkpoint <= sequence
    requires Admits(cfg, sz, Look(s, item.table), item, sequence, ordinal, Some(proof), true, busy)
    ensures RecoveryOk(cfg, Apply(s, Plan(sz, Look(s, item.table), item, sequence, ordinal, Some(proof))), busy)
  {
    hide Sum, TotalsOf, HotCounts, ReceiptCounts, GroupCounts, AddBatch, UpdatesOf, UpsertRollups, RollupsDelta,
      RollupsResident, RollupsWorking;
    var v := Look(s, item.table);
    var p := Plan(sz, v, item, sequence, ordinal, Some(proof));
    assert p.id == item.id && p.table == item.table && |p.batch.rows| == |item.rows|;
    ApplyCounts(s, p);
    DigitsMonotone(v.checkpoint, sequence);
  }

  // ------------------------------------------------------------ the theorem

  function RowsOf(items: seq<Item>): (r: nat) {
    if items == [] then 0 else RowsOf(items[..|items| - 1]) + |items[|items| - 1].rows|
  }

  /** Staged and replayed so far agree: the replay succeeds and lands on the installed delta. */
  ghost predicate Matches(cfg: Config, sz: Sizes, s: State, e: Epoch, st: Staging, proof: string, busy: nat)
    requires Ready(s)
  {
    var now := Installed(s, st.delta, proof);
    && ReplayItems(cfg, sz, s, st.items, e.sequence, proof, busy) == Replay(now, st.rows)
    && Synced(s, st.delta, now)
  }

  lemma MatchesFloors(cfg: Config, sz: Sizes, s: State, e: Epoch, st: Staging, proof: string, busy: nat,
                      floors: map<string, int>, outcomes: seq<Outcome>)
    requires Ready(s) && Matches(cfg, sz, s, e, st, proof, busy)
    ensures Matches(cfg, sz, s, e, Staging(st.delta.(floors := floors), st.items, st.rows, outcomes), proof, busy)
  {
    hide ReplayItems, Installed, Ready, LookThrough, Look;
    FloorsAside(s, st.delta, floors, proof);
  }

  /** Replaying one admitted item is applying its plan. */
  lemma OneReplayed(cfg: Config, sz: Sizes, now: State, item: Item, sequence: nat, rows: nat, proof: string, busy: nat)
    requires Ready(now) && item.table in now.tables && now.checkpoint <= sequence
    requires rows + |item.rows| <= cfg.maxBatchRows
    requires Admits(cfg, sz, Look(now, item.table), item, sequence, rows, Some(proof), true, busy)
    ensures ReplayOne(cfg, sz, Replay(now, rows), item, sequence, proof, busy)
      == Replay(Apply(now, Plan(sz, Look(now, item.table), item, sequence, rows, Some(proof))), rows + |item.rows|)
  {
    hide Look, Push, Apply, Plan, Admits, Install, RecoveryOk;
    var v := Look(now, item.table);
    AdmitsValid(cfg, sz, v, item, sequence, rows, Some(proof), true, busy);
    PlanFor(sz, v, item, sequence, rows, Some(proof));
    ReplayApplies(now, Plan(sz, v, item, sequence, rows, Some(proof)));
    RecoveryHolds(cfg, sz, now, item, sequence, rows, proof, busy);
  }

  /** An admitted request, pushed on the overlay and replayed on the state it stands for. */
  lemma AcceptedOn(cfg: Config, sz: Sizes, s: State, d: Delta, now: State, item: Item, sequence: nat, rows: nat,
                   reserved: string, proof: string, live: nat, busy: nat)
    requires Synced(s, d, now) && item.table in s.tables && now.checkpoint <= sequence
    requires |reserved| == |proof| && busy <= live && rows + |item.rows| <= cfg.maxBatchRows
    requires Admits(cfg, sz, LookThrough(s, d, item.table), item, sequence, rows, Some(reserved), false, live)
    ensures var p := Plan(sz, LookThrough(s, d, item.table), item, sequence, rows, Some(reserved));
      && p.table == item.table && Synced(s, Push(s, d, p), Apply(now, Proved(p, proof)))
      && ReplayOne(cfg, sz, Replay(now, rows), item, sequence, proof, busy)
         == Replay(Apply(now, Proved(p, proof)), rows + |item.rows|)
  {
    hide LookThrough, Look, Push, Apply, Plan, Admits, ReplayOne;
    var v := LookThrough(s, d, item.table);
    assert v == Look(now, item.table);
    AdmitsValid(cfg, sz, v, item, sequence, rows, Some(reserved), false, live);
    PlanIgnoresProof(sz, v, item, sequence, rows, reserved, proof);
    PlanFor(sz, v, item, sequence, rows, Some(reserved));
    AdmittedOnReplay(cfg, sz, v, item, sequence, rows, reserved, proof, live, busy);
    OneReplayed(cfg, sz, now, item, sequence, rows, proof, busy);
    LookIds(now, item.table);
    var p := Plan(sz, v, item, sequence, rows, Some(reserved));
    PushSynced(s, d, now, p, Proved(p, proof));
  }

  lemma MatchesAccept(cfg: Config, sz: Sizes, s: State, e: Epoch, reserved: string, st: Staging, item: Item,
                      proof: string, busy: nat, live: nat, outcomes: seq<Outcome>)
    requires Ready(s) && Matches(cfg, sz, s, e, st, proof, busy) && item.table in s.tables
    requires |reserved| == |proof| && busy <= live && s.sequence < e.sequence
    requires st.rows + |item.rows| <= cfg.maxBatchRows
    requires Admits(cfg, sz, LookThrough(s, st.delta, item.table), item, e.sequence, st.rows, Some(reserved), false,
                    live)
    ensures var p := Plan(sz, LookThrough(s, st.delta, item.table), item, e.sequence, st.rows, Some(reserved));
            Matches(cfg, sz, s, e, Staging(Push(s, st.delta, p), st.items + [item], st.rows + |item.rows|, outcomes),
                    proof, busy)
  {
    hide LookThrough, Look, Push, Apply, Plan, Proved, Admits, Installed, ReplayOne, Synced;
    var now := Installed(s, st.delta, proof);
    InstalledTables(s, st.delta, proof);
    AcceptedOn(cfg, sz, s, st.delta, now, item, e.sequence, st.rows, reserved, proof, live, busy);
    var v := LookThrough(s, st.delta, item.table);
    AdmitsValid(cfg, sz, v, item, e.sequence, st.rows, Some(reserved), false, live);
    AcceptInstalls(s, st.delta, Plan(sz, v, item, e.sequence, st.rows, Some(reserved)), proof);
    assert (st.items + [item])[..|st.items|] == st.items;
  }

  lemma AdmitsValid(cfg: Config, sz: Sizes, v: Sight, item: Item, sequence: nat, ordinal: nat, proof: Option<string>,
                    replaying: bool, busy: nat)
    requires Admits(cfg, sz, v, item, sequence, ordinal, proof, replaying, busy)
    ensures v.config.Valid() && item.id !in v.ids
  {
  }

  lemma PlanFor(sz: Sizes, v: Sight, item: Item, sequence: nat, ordinal: nat, proof: Option<string>)
    requires v.config.Valid()
    ensures Plan(sz, v, item, sequence, ordinal, proof).table == item.table
    ensures Plan(sz, v, item, sequence, ordinal, proof).id == item.id
  {
  }

  lemma LookIds(s: State, name: string)
    requires name in s.tables && name in s.accounts
    ensures Look(s, name).ids == s.tables[name].receipts.Keys
  {
  }

  /**
   * Whatever mix of new, duplicate, conflicting, late or over-capacity requests a group holds,
   * the record of its accepted requests replays, and replay reaches exactly the state that
   * installing the staged group reaches: tables, receipts with their proof, rollups, hot rows with
   * their ordinals, and every account. Only the live clock floors are not in the record.
   */
  lemma {:induction false} InstallIsReplay(cfg: Config, sz: Sizes, s: State, e: Epoch, reserved: string,
                                           requests: seq<Item>, proof: string, busy: nat)
    requires Ready(s) && |reserved| == |proof| && s.sequence < e.sequence
    requires RowsOf(requests) <= cfg.maxBatchRows
    requires forall k :: busy <= e.busy(k)
    ensures var st := Stage(cfg, sz, s, e, reserved, requests);
            && Matches(cfg, sz, s, e, st, proof, busy)
            && st.rows <= RowsOf(requests) && |st.outcomes| == |requests|
  {
    hide LookThrough, Look, Push, Plan, Admits, Matches, Ready;
    if requests == [] {
      FreshMatches(cfg, sz, s, e, proof, busy);
    } else {
      var n := |requests| - 1;
      InstallIsReplay(cfg, sz, s, e, reserved, requests[..n], proof, busy);
      var st, item := Stage(cfg, sz, s, e, reserved, requests[..n]), requests[n];
      MatchesOne(cfg, sz, s, e, reserved, st, item, proof, busy);
    }
  }

  lemma FreshMatches(cfg: Config, sz: Sizes, s: State, e: Epoch, proof: string, busy: nat)
    requires Ready(s)
    ensures Matches(cfg, sz, s, e, Staging(Fresh(s), [], 0, []), proof, busy)
  {
    hide LookThrough, Look;
    FreshSynced(s);
    FreshInstalls(s);
    assert Stamp(Fresh(s), proof) == Fresh(s);
  }

  lemma MatchesOne(cfg: Config, sz: Sizes, s: State, e: Epoch, reserved: string, st: Staging, item: Item, proof: string,
                   busy: nat)
    requires Ready(s) && |reserved| == |proof| && s.sequence < e.sequence
    requires st.rows + |item.rows| <= cfg.maxBatchRows && (forall k :: busy <= e.busy(k))
    requires Matches(cfg, sz, s, e, st, proof, busy)
    ensures var next := StageOne(cfg, sz, s, e, reserved, st, item);
            && Matches(cfg, sz, s, e, next, proof, busy)
            && next.rows <= st.rows + |item.rows| && |next.outcomes| == |st.outcomes| + 1
  {
    hide LookThrough, Look, Push, Plan, Admits, Matches, OnTime, RetryWith;
    var next := StageOne(cfg, sz, s, e, reserved, st, item);
    assert st.delta.(floors := st.delta.floors) == st.delta;
    if |next.items| == |st.items| {
      MatchesFloors(cfg, sz, s, e, st, proof, busy, next.delta.floors, next.outcomes);
    } else {
      var retry := RetryWith(sz.issued(item.id), s.tables[item.table].config,
                             ReceiptThrough(s, st.delta, item.table, item.id),
                             FloorThrough(s, st.delta, item.table), item);
      var d := if retry.floor.Some? then st.delta.(floors := st.delta.floors[item.table := retry.floor.value])
          else st.delta;
      MatchesFloors(cfg, sz, s, e, st, proof, busy, d.floors, st.outcomes);
      MatchesAccept(cfg, sz, s, e, reserved, st.(delta := d), item, proof, busy, e.busy(|st.outcomes|), next.outcomes);
    }
  }
}
