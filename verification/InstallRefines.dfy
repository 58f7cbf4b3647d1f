/** Installing a frozen prefix in the engine is, table by table, the history model's publication. */
module InstallRefines {
  import opened Common
  import opened Rollup
  import opened Engine
  import opened History
  import opened EngineRefines
  import Install = EngineInstall

  // ------------------------------------------------------------ looking up the capture

  function FindRetirement(retirements: seq<Install.Retirement>, name: string): (r: Option<Install.Retirement>)
    ensures r.Some? ==> r.value.table == name && r.value in retirements
    ensures r.None? ==> forall i :: 0 <= i < |retirements| ==> retirements[i].table != name
  {
    if retirements == [] then None
    else
      var n := |retirements| - 1;
      if retirements[n].table == name then Some(retirements[n]) else FindRetirement(retirements[..n], name)
  }

  function FindHot(captured: seq<(string, seq<Batch>)>, name: string): (r: Option<seq<Batch>>)
    ensures r.Some? ==> exists i :: 0 <= i < |captured| && captured[i] == (name, r.value)
    ensures r.None? ==> forall i :: 0 <= i < |captured| ==> captured[i].0 != name
  {
    if captured == [] then None
    else
      var n := |captured| - 1;
      if captured[n].0 == name then Some(captured[n].1) else FindHot(captured[..n], name)
  }

  /** The rows written for a table, segment after segment. */
  function WrittenRows(written: seq<(string, Segment)>, name: string): (r: seq<Stored>) {
    if written == [] then []
    else
      var n := |written| - 1;
      WrittenRows(written[..n], name) + if written[n].0 == name then written[n].1.rows else []
  }

  /** The root a capture prepares for a table, with the rows written for it. */
  function RootOf(sz: Sizes, s: State, cap: Install.Captured, name: string): (r: Tab)
    requires name in s.tables
  {
    Frozen(SchemaOf(sz, s), name, View(s, name), s.floors, WrittenRows(cap.written, name))
  }

  /**
   * What capturing state `s` under its lock records: its sequence and floors, every table's nonempty
   * batches, and a retirement for every table that loses receipts or changes its floor.
   */
  ghost predicate Captures(sz: Sizes, s: State, cap: Install.Captured) {
    && Install.WellFormed(cap) && cap.checkpoint == s.sequence && cap.prior == s.checkpoint && cap.floors == s.floors
    && forall name <- s.tables :: CapturesTable(sz, s, cap, name)
  }

  /** A retirement, or its absence, as capturing table `name` calls for it. */
  ghost predicate RetirementOk(frozen: Tab, root: Tab, found: Option<Install.Retirement>) {
    match found
    case Some(r) => Install.Ids(r.removed) == Retired(frozen, root) && r.floor == root.floor
    case None => Retired(frozen, root) == {} && root.floor == frozen.floor
  }

  ghost predicate CapturesTable(sz: Sizes, s: State, cap: Install.Captured, name: string)
    requires name in s.tables
  {
    var frozen, root := View(s, name), RootOf(sz, s, cap, name);
    && FindHot(cap.hot, name) == (if name in s.hot && s.hot[name] != [] then Some(s.hot[name]) else None)
    && RetirementOk(frozen, root, FindRetirement(cap.retirements, name))
  }

  // ------------------------------------------------------------ the installed parts

  lemma {:induction false} RetireAt(tables: map<string, Table>, retirements: seq<Install.Retirement>, name: string)
    requires name in tables && Install.DistinctTables(retirements)
    ensures Install.Retire(tables, retirements)[name] ==
      match FindRetirement(retirements, name)
      case Some(r) => Install.Retired(tables[name], r)
      case None => tables[name]
  {
    if retirements != [] {
      var n := |retirements| - 1;
      RetireAt(tables, retirements[..n], name);
      if retirements[n].table == name {
        forall i | 0 <= i < n ensures retirements[..n][i].table != name {
          assert retirements[..n][i] == retirements[i];
        }
      }
    }
  }

  lemma {:induction false} SegmentsAt(tables: map<string, Table>, written: seq<(string, Segment)>, name: string)
    requires name in tables
    ensures SegmentRows(Install.AddSegments(tables, written)[name].segments)
         == SegmentRows(tables[name].segments) + WrittenRows(written, name)
  {
    if written != [] {
      var n := |written| - 1;
      SegmentsAt(tables, written[..n], name);
      var before := Install.AddSegments(tables, written[..n])[name].segments;
      assert (before + [written[n].1])[..|before|] == before;
    }
  }

  lemma {:induction false} DrainAt(hot: map<string, seq<Batch>>, captured: seq<(string, seq<Batch>)>, name: string)
    requires name in hot && (forall i, j :: 0 <= i < j < |captured| ==> captured[i].0 != captured[j].0)
    ensures var found := FindHot(captured, name);
      Install.Drain(hot, captured)[name]
        == if found.Some? && |found.value| <= |hot[name]| then hot[name][|found.value|..] else hot[name]
  {
    if captured != [] {
      var n := |captured| - 1;
      DrainAt(hot, captured[..n], name);
      if captured[n].0 == name {
        forall i | 0 <= i < n ensures captured[..n][i].0 != name {
          assert captured[..n][i] == captured[i];
        }
      }
    }
  }

  lemma UnprovedWithout(receipts: map<string, Receipt>, ids: set<string>)
    ensures Unproved(receipts - ids) == Unproved(receipts) - ids
  {
  }

  lemma HotRowsDrop(batches: seq<Batch>, n: nat)
    requires n <= |batches|
    ensures HotRows(batches[n..]) == HotRows(batches)[n..]
  {
  }

  // ------------------------------------------------------------ the whole table

  ghost function HotOf(s: State, name: string): (r: seq<Batch>) {
    if name in s.hot then s.hot[name] else []
  }

  /** The live batches after the install: those that arrived since the capture. */
  lemma InstalledHot(sz: Sizes, past: State, s: State, cap: Install.Captured, name: string)
    requires name in past.tables && Captures(sz, past, cap) && Install.Current(s, cap)
    ensures |HotOf(past, name)| <= |HotOf(s, name)|
    ensures HotOf(s.(hot := Install.Drain(s.hot, cap.hot)), name) == HotOf(s, name)[|HotOf(past, name)|..]
  {
    hide View, RootOf, Frozen, Retired, Install.Drain, FindRetirement;
    assert CapturesTable(sz, past, cap, name);
    var found := FindHot(cap.hot, name);
    if found.Some? {
      var i :| 0 <= i < |cap.hot| && cap.hot[i] == (name, found.value);
      assert Install.Heads(s.hot, cap.hot[i].0, cap.hot[i].1);
    }
    if name in s.hot {
      DrainAt(s.hot, cap.hot, name);
    }
  }

  /** The installed table, apart from its batches. */
  lemma InstalledTable(sz: Sizes, past: State, s: State, cap: Install.Captured, name: string)
    requires name in past.tables && name in s.tables && Captures(sz, past, cap)
    ensures
      var t := Install.Retire(Install.AddSegments(s.tables, cap.written), cap.retirements)[name];
      var gone := Retired(View(past, name), RootOf(sz, past, cap, name));
      && SegmentRows(t.segments) == SegmentRows(s.tables[name].segments) + WrittenRows(cap.written, name)
      && (s.tables[name].floor == past.tables[name].floor ==> t.floor == RootOf(sz, past, cap, name).floor)
      && t.receipts == s.tables[name].receipts - gone
      && t == s.tables[name].(segments := t.segments, receipts := t.receipts, floor := t.floor)
  {
    hide RootOf, Frozen, Retired, SegmentRows, WrittenRows, Install.Retire, Install.AddSegments, Install.Ids;
    assert CapturesTable(sz, past, cap, name);
    var extended := Install.AddSegments(s.tables, cap.written);
    RetireAt(extended, cap.retirements, name);
    SegmentsAt(s.tables, cap.written, name);
    Install.SegmentsOnly(s.tables, cap.written, name);
    assert s.tables[name].receipts - {} == s.tables[name].receipts;
  }

  /**
   * For a capture taken in state `past` and still current in the grown state `s`, installing the frozen
   * prefix gives every table exactly what publishing the captured root gives it in the history model.
   */
  lemma InstallRefinesPublish(sz: Sizes, past: State, s: State, cap: Install.Captured, plan: Install.Plan, name: string)
    requires name in past.tables && name in s.tables && Captures(sz, past, cap) && Install.Current(s, cap)
    requires s.tables[name].segments == past.tables[name].segments && s.tables[name].floor == past.tables[name].floor
    ensures name in Install.Installed(s, cap, plan).tables
    ensures |View(past, name).hot| <= |View(s, name).hot|
    ensures
      var frozen, root := View(past, name), RootOf(sz, past, cap, name);
      View(Install.Installed(s, cap, plan), name)
        == Thaw(SchemaOf(sz, past), name, View(s, name), frozen, root, Retired(frozen, root))
  {
    hide Captures, Retired, SegmentRows, HotRows, Unproved, Install.Retire, Install.AddSegments, Install.Drain,
      Install.Current, Prune, Raise;
    InstalledHot(sz, past, s, cap, name);
    InstalledTable(sz, past, s, cap, name);
    HotRowsDrop(HotOf(s, name), |HotOf(past, name)|);
    UnprovedWithout(s.tables[name].receipts, Retired(View(past, name), RootOf(sz, past, cap, name)));
  }

  // ------------------------------------------------------------ capturing

  /** The receipts under some IDs, one after another. */
  method ListReceipts(receipts: map<string, Receipt>, ids: set<string>) returns (out: seq<(string, Receipt)>)
    requires ids <= receipts.Keys
    ensures Install.DistinctIds(out) && Install.Ids(out) == ids && Install.Present(receipts, out)
  {
    out := [];
    var todo := ids;
    while todo != {}
      invariant todo <= ids && Install.DistinctIds(out) && Install.Present(receipts, out)
      invariant Install.Ids(out) == ids - todo
    {
      var id := Pick(todo);
      ghost var before := out;
      out := out + [(id, receipts[id])];
      assert out[..|before|] == before && out[..|before| + 1] == out;
      Install.IdsSnoc(out, |before|);
      forall i | 0 <= i < |before| ensures before[i].0 != id {
        assert before[i].0 in Install.Ids(before);
      }
      todo := todo - {id};
    }
  }

  lemma FindSnoc(retirements: seq<Install.Retirement>, r: Install.Retirement, name: string)
    ensures FindRetirement(retirements + [r], name) == if r.table == name then Some(r)
      else FindRetirement(retirements, name)
  {
    assert (retirements + [r])[..|retirements|] == retirements;
  }

  lemma FindHotSnoc(captured: seq<(string, seq<Batch>)>, entry: (string, seq<Batch>), name: string)
    ensures FindHot(captured + [entry], name) == if entry.0 == name then Some(entry.1) else FindHot(captured, name)
  {
    assert (captured + [entry])[..|captured|] == captured;
  }

  /** One pass over the tables: a retirement for each that loses receipts or changes its floor. */
  method CaptureRetirements(sz: Sizes, s: State, written: seq<(string, Segment)>) returns (out: seq<Install.Retirement>)
    ensures Install.DistinctTables(out) && Install.Retirable(s.tables, out)
    ensures forall name <- s.tables :: RetirementOk(
      View(s, name), Frozen(SchemaOf(sz, s), name, View(s, name), s.floors, WrittenRows(written, name)),
      FindRetirement(out, name))
  {
    hide View, Frozen, SchemaOf, WrittenRows, FindRetirement, RetirementOk;
    out := [];
    var todo := s.tables.Keys;
    while todo != {}
      invariant todo <= s.tables.Keys && Install.DistinctTables(out) && Install.Retirable(s.tables, out)
      invariant forall i :: 0 <= i < |out| ==> out[i].table !in todo
      invariant forall name <- s.tables :: name !in todo ==> RetirementOk(
        View(s, name), Frozen(SchemaOf(sz, s), name, View(s, name), s.floors, WrittenRows(written, name)),
        FindRetirement(out, name))
    {
      var name := Pick(todo);
      var frozen, root := View(s, name), Frozen(SchemaOf(sz, s), name, View(s, name), s.floors,
                                                WrittenRows(written, name));
      var gone := Retired(frozen, root);
      assert frozen.receipts.Keys == s.tables[name].receipts.Keys by { ViewIds(s, name); }
      ghost var before := out;
      if gone != {} || root.floor != frozen.floor {
        var removed := ListReceipts(s.tables[name].receipts, gone);
        var r := Install.Retirement(name, removed, root.floor);
        forall other ensures FindRetirement(before + [r], other) == if r.table == other then Some(r)
            else FindRetirement(before, other) {
          FindSnoc(before, r, other);
        }
        assert RetirementOk(frozen, root, Some(r)) by { IsOk(frozen, root, Some(r)); }
        out := out + [r];
      } else {
        NotFound(out, name);
        assert RetirementOk(frozen, root, None) by { IsOk(frozen, root, None); }
      }
      todo := todo - {name};
    }
  }

  lemma ViewIds(s: State, name: string)
    requires name in s.tables
    ensures View(s, name).receipts.Keys == s.tables[name].receipts.Keys
  {
  }

  lemma IsOk(frozen: Tab, root: Tab, found: Option<Install.Retirement>)
    requires found.Some? ==>
      Install.Ids(found.value.removed) == Retired(frozen, root) && found.value.floor == root.floor
    requires found.None? ==> Retired(frozen, root) == {} && root.floor == frozen.floor
    ensures RetirementOk(frozen, root, found)
  {
  }

  lemma NotFound(retirements: seq<Install.Retirement>, name: string)
    requires forall i :: 0 <= i < |retirements| ==> retirements[i].table != name
    ensures FindRetirement(retirements, name) == None
  {
  }

  lemma NoHot()
    ensures forall name :: FindHot([], name) == None
  {
  }

  /** One pass over the resident tables: the nonempty ones, with their batches. */
  method CaptureHot(hot: map<string, seq<Batch>>) returns (out: seq<(string, seq<Batch>)>)
    ensures forall i, j :: 0 <= i < j < |out| ==> out[i].0 != out[j].0
    ensures forall name :: FindHot(out, name) == if name in hot && hot[name] != [] then Some(hot[name]) else None
  {
    hide FindHot;
    out := [];
    assert forall name :: FindHot([], name) == None by { NoHot(); }
    var todo := hot.Keys;
    while todo != {}
      invariant todo <= hot.Keys && (forall i :: 0 <= i < |out| ==> out[i].0 in hot && out[i].0 !in todo)
      invariant forall i, j :: 0 <= i < j < |out| ==> out[i].0 != out[j].0
      invariant forall name :: FindHot(out, name) == if name in hot && name !in todo
        && hot[name] != [] then Some(hot[name]) else None
    {
      var name := Pick(todo);
      if hot[name] != [] {
        forall other ensures FindHot(out + [(name, hot[name])], other) == if name == other then Some(hot[name])
            else FindHot(out, other) {
          FindHotSnoc(out, (name, hot[name]), other);
        }
        out := out + [(name, hot[name])];
      }
      todo := todo - {name};
    }
  }

  /** Capture a frozen prefix; the segments are written from it later, off the lock. */
  method CaptureFrozen(sz: Sizes, s: State, written: seq<(string, Segment)>) returns (cap: Install.Captured)
    ensures Captures(sz, s, cap) && cap.written == written && Install.Retirable(s.tables, cap.retirements)
  {
    hide View, Frozen, SchemaOf, WrittenRows, FindRetirement, FindHot, Install.DistinctTables, Install.Retirable,
      Retired;
    var retirements := CaptureRetirements(sz, s, written);
    var hot := CaptureHot(s.hot);
    cap := Install.Captured(s.sequence, s.checkpoint, s.floors, hot, written, retirements);
  }
}
