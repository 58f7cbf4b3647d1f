/** What readers of a table see over runs of appends, checkpoints, retention and crashes. */
module CheckpointReads {
  import opened Common
  import opened Rollup
  import opened Engine
  import opened EngineReplay
  import opened History
  import opened Checkpoint
  import opened CheckpointSteps
  import opened CheckpointTheorems
  import Scan

  /** The rows a scan of a table visits: resident batches, then segments. */
  function Visited(t: Tab): (r: seq<Stored>) {
    Flat(t.hot) + t.cold
  }

  // ------------------------------------------------------------ scans

  /** A scan that honours the raw cutoff matches the same rows of the table as of its whole history. */
  lemma FilterOfHistory(q: Scan.Query, t: Tab, rows: seq<Stored>, s: Stored)
    requires multiset(t.cold + Flat(t.hot)) == multiset(Since(rows, t.keep))
    ensures multiset(Scan.Filter(q, t.keep.raw, Visited(t)))[s] == multiset(Scan.Filter(q, t.keep.raw, rows))[s]
  {
    hide Scan.Filter, Since, Flat;
    Scan.FilterCount(q, t.keep.raw, Visited(t), s);
    Scan.FilterCount(q, t.keep.raw, rows, s);
    SinceCount(rows, t.keep, s);
    assert multiset(Visited(t)) == multiset(t.cold + Flat(t.hot));
    Expired(q, t.keep, s);
  }

  lemma Expired(q: Scan.Query, keep: Keep, s: Stored)
    ensures keep.raw.Some? && s.row.time < keep.raw.value ==> !Scan.Matches(q, keep.raw, s)
  {
  }

  /** Matching rows of a history carry distinct marks, so they have one ascending listing. */
  lemma OneAnswer(q: Scan.Query, raw: Option<int>, hist: seq<Record>, name: string, a: seq<Stored>, b: seq<Stored>)
    requires Scan.Ascending(a) && Scan.Ascending(b)
    requires multiset(a) == multiset(Scan.Filter(q, raw, Rows(hist, name))) == multiset(b)
    ensures a == b
  {
    hide Rows, Scan.Filter, Scan.Ascending, DistinctMarks;
    var all := Rows(hist, name);
    RowsMarks(hist, name);
    Scan.NamedByMarks(all);
    forall s | s in multiset(a) ensures s in multiset(all) {
      Scan.FilterCount(q, raw, all, s);
    }
    Scan.NamedPart(multiset(a), multiset(all));
    Scan.OneListing(a, b);
  }

  /**
   * In every reachable state between groups, the answer of a scan is the sorted list of matching rows of
   * the whole committed history: no checkpoint, compaction or retention step shows in it, beyond the raw
   * cutoff itself.
   */
  lemma ScanIsOfHistory(schema: Schema, states: seq<Machine>, k: nat, name: string, q: Scan.Query, answer: seq<Stored>,
                        expected: seq<Stored>)
    requires Run(schema, states) && k < |states| && name in schema.tables && !states[k].fenced
    requires states[k].flight.NoFlight?
    requires name in states[k].live && Scan.Ascending(answer) && Scan.Ascending(expected)
    requires var t := states[k].live[name];
      && multiset(answer) == multiset(Scan.Filter(q, t.keep.raw, Visited(t)))
      && multiset(expected) == multiset(Scan.Filter(q, t.keep.raw, Rows(states[k].hist, name)))
    ensures answer == expected
  {
    hide Run, Rows, Scan.Filter, Scan.Ascending, Since, Visited, Flat, Recover;
    var m, t := states[k], states[k].live[name];
    LiveAgrees(schema, states, k, name);
    HeldRows(schema, name, t, m.hist);
    forall s ensures multiset(answer)[s] == multiset(expected)[s] {
      FilterOfHistory(q, t, Rows(m.hist, name), s);
    }
    assert multiset(answer) == multiset(expected);
    OneAnswer(q, t.keep.raw, m.hist, name, answer, expected);
  }

  lemma HeldRows(schema: Schema, name: string, t: Tab, hist: seq<Record>)
    requires schema.Valid() && name in schema.tables && HoldsAll(schema, name, t, hist)
    ensures multiset(t.cold + Flat(t.hot)) == multiset(Since(Rows(hist, name), t.keep))
  {
    hide Rows, Since, Flat, AddRows, Unpruned, Receipts;
  }

  /** Two reachable states of one history and one raw cutoff answer every scan alike. */
  lemma ScansAgree(schema: Schema, states: seq<Machine>, i: nat, j: nat, name: string, q: Scan.Query, a: seq<Stored>,
                   b: seq<Stored>)
    requires Run(schema, states) && i < |states| && j < |states| && name in schema.tables
    requires !states[i].fenced && states[i].flight.NoFlight? && !states[j].fenced && states[j].flight.NoFlight?
    requires states[i].hist == states[j].hist && name in states[i].live && name in states[j].live
    requires states[i].live[name].keep.raw == states[j].live[name].keep.raw
    requires Scan.Ascending(a)
    requires multiset(a) == multiset(Scan.Filter(q, states[i].live[name].keep.raw, Visited(states[i].live[name])))
    requires Scan.Ascending(b)
    requires multiset(b) == multiset(Scan.Filter(q, states[j].live[name].keep.raw, Visited(states[j].live[name])))
    ensures a == b
  {
    hide Run, Rows, Scan.Filter, Scan.Ascending, Since, Visited, Flat, Recover;
    var hist, raw := states[i].hist, states[i].live[name].keep.raw;
    LiveAgrees(schema, states, i, name);
    HeldRows(schema, name, states[i].live[name], hist);
    LiveAgrees(schema, states, j, name);
    HeldRows(schema, name, states[j].live[name], hist);
    forall s
      ensures multiset(a)[s] == multiset(Scan.Filter(q, raw, Rows(hist, name)))[s] == multiset(b)[s]
    {
      FilterOfHistory(q, states[i].live[name], Rows(hist, name), s);
      FilterOfHistory(q, states[j].live[name], Rows(hist, name), s);
    }
    assert multiset(a) == multiset(Scan.Filter(q, raw, Rows(hist, name))) == multiset(b);
    OneAnswer(q, raw, hist, name, a, b);
  }

  // ------------------------------------------------------------ rollups

  /** In every reachable state the rollups are those of the committed rows in any order. */
  lemma RollupsAnyOrder(schema: Schema, states: seq<Machine>, k: nat, name: string, order: seq<Stored>)
    requires Run(schema, states) && k < |states| && name in schema.tables && !states[k].fenced
    requires states[k].flight.NoFlight?
    requires name in states[k].live && multiset(order) == multiset(Rows(states[k].hist, name))
    ensures var t := states[k].live[name];
      schema.tables[name].Valid() && t.rollups == AddRows(map[], order, schema.tables[name].widths, t.keep.rollups)
  {
    hide Run, Rows, AddRows, Since, Flat, Recover, DistinctMarks;
    LiveAgrees(schema, states, k, name);
    RowsMarks(states[k].hist, name);
    RollupsIgnoreOrder(Rows(states[k].hist, name), order, schema.tables[name].widths,
                       states[k].live[name].keep.rollups);
  }

  lemma {:induction false} NotBelowTwice(rows: seq<Stored>, floor: Option<int>)
    ensures NotBelow(NotBelow(rows, floor), floor) == NotBelow(rows, floor)
  {
    if rows != [] {
      var n := |rows| - 1;
      NotBelowTwice(rows[..n], floor);
      var rest := NotBelow(rows[..n], floor);
      assert (rest + [rows[n]])[..|rest|] == rest && rest + [] == rest;
    }
  }

  lemma {:induction false} NotBelowNone(rows: seq<Stored>)
    ensures NotBelow(rows, None) == rows
  {
    if rows != [] {
      NotBelowNone(rows[..|rows| - 1]);
    }
  }

  lemma SinceIs(rows: seq<Stored>, keep: Keep)
    ensures Since(rows, keep) == NotBelow(rows, keep.raw)
  {
    NotBelowNone(rows);
  }

  /** A maintained rollup has one of the table's widths. */
  lemma WidthsOnly(rows: seq<Stored>, widths: seq<int>, cutoff: Cut, key: Key)
    requires Widths(widths)
    ensures key in AddRows(map[], rows, widths, cutoff) ==> key.width in widths
  {
    hide AddRows;
    if key.width > 0 {
      RowsAt(rows, widths, cutoff, key);
    } else {
      NoSuchWidth(rows, widths, cutoff, key);
    }
  }

  /**
   * A width added to a fully checkpointed table of a run: backfilled from its segments, whatever their
   * order, and maintained from then on, it is what aggregating the retained committed rows in commit
   * order and then every later row gives; the other widths do not notice.
   */
  lemma BackfillOfHistory(schema: Schema, states: seq<Machine>, k: nat, name: string, width: int, later: seq<Stored>,
                          key: Key)
    requires Run(schema, states) && k < |states| && name in schema.tables && name in states[k].live
    requires !states[k].fenced && states[k].flight.NoFlight? && states[k].checkpoint == states[k].sequence
    requires schema.tables[name].Valid() && width > 0 && width !in schema.tables[name].widths && key.width > 0
    ensures var t, widths := states[k].live[name], schema.tables[name].widths;
      var backfill := AddRows(map[], NotBelow(t.cold, t.keep.raw), [width], Everything);
      var live := AddRows(t.rollups + backfill, later, widths + [width], t.keep.rollups);
      var scratch := AddRows(map[], NotBelow(Rows(states[k].hist, name), t.keep.raw), [width], Everything);
      && Widths(widths + [width])
      && (key.width == width ==> SameAt(live, AddRows(scratch, later, [width], t.keep.rollups), key))
      && (key.width != width ==> SameAt(live, AddRows(t.rollups, later, widths, t.keep.rollups), key))
  {
    hide Run, Rows, AddRows, Since, Flat, Recover, DistinctMarks, NotBelow;
    var m, t, widths := states[k], states[k].live[name], schema.tables[name].widths;
    var all := Rows(m.hist, name);
    var committed := NotBelow(all, t.keep.raw);
    WiderWidths(widths, width);
    AllCheckpointed(schema, states, k, name);
    SinceIs(all, t.keep);
    RowsMarks(m.hist, name);
    KeptDistinct(all, t.keep.raw);
    NotBelowTwice(all, t.keep.raw);
    forall r | r in t.rollups ensures r.width != width {
      WidthsOnly(all, widths, t.keep.rollups, r);
    }
    BackfillMatches(t.rollups, AddRows(map[], NotBelow(t.cold, t.keep.raw), [width], Everything), widths, width,
                    t.cold, committed, later, t.keep.raw, t.keep.rollups, key);
  }

  predicate SameAt(a: map<Key, Rollup>, b: map<Key, Rollup>, key: Key) {
    (key in a <==> key in b) && (key in a ==> a[key] == b[key])
  }

  lemma WiderWidths(widths: seq<int>, width: int)
    requires Widths(widths) && width > 0 && width !in widths
    ensures Widths(widths + [width]) && Widths([width])
  {
  }

  /** Over a current checkpoint the segments hold exactly the retained rows of the history. */
  lemma AllCheckpointed(schema: Schema, states: seq<Machine>, k: nat, name: string)
    requires Run(schema, states) && k < |states| && name in schema.tables && name in states[k].live
    requires !states[k].fenced && states[k].flight.NoFlight? && states[k].checkpoint == states[k].sequence
    ensures var m, t := states[k], states[k].live[name];
      && schema.Valid() && multiset(t.cold) == multiset(Since(Rows(m.hist, name), t.keep))
      && t.rollups == AddRows(map[], Rows(m.hist, name), schema.tables[name].widths, t.keep.rollups)
  {
    hide Run, Rows, AddRows, Since, Flat, Unpruned, Receipts, Inv;
    RunKeeps(schema, states, k);
    LiveTab(schema, states[k], name);
    AtEnd(schema, states[k]);
    assert states[k].hist[..|states[k].hist|] == states[k].hist;
  }

  lemma AtEnd(schema: Schema, m: Machine)
    requires Inv(schema, m) && !m.fenced && m.flight.NoFlight? && m.checkpoint == m.sequence
    ensures m.checkpoint == |m.hist|
  {
    hide TabOk, DurableOk, FrozenFits;
  }
}
