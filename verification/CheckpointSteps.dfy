/** Every step of the append and checkpoint machine keeps its invariant, crashes included. */
module CheckpointSteps {
  import opened Common
  import opened Rollup
  import opened Engine
  import opened EngineReplay
  import opened History
  import opened Checkpoint

  // ------------------------------------------------------------ floors

  lemma RaiseCovered(schema: Schema, name: string, floor: Option<int>, captured: map<string, int>,
                     floors: map<string, int>)
    requires Covered(schema, name, floor, floors) && Rises(captured, floors)
    ensures Covered(schema, name, Raise(schema, name, floor, captured), floors)
    ensures !schema.Timed(name) ==> Raise(schema, name, floor, captured) == floor
  {
  }

  lemma StillCovered(schema: Schema, name: string, floor: Option<int>, a: map<string, int>, b: map<string, int>)
    requires Covered(schema, name, floor, a) && Rises(a, b)
    ensures Covered(schema, name, floor, b)
  {
  }

  lemma RisesOn(a: map<string, int>, b: map<string, int>, c: map<string, int>)
    requires Rises(a, b) && Rises(b, c)
    ensures Rises(a, c) && Rises(b, b + c)
  {
  }

  /** A record above the live floors is above every floor they cover. */
  lemma AboveCovered(schema: Schema, hist: seq<Record>, rec: Record, i: nat, floors: map<string, int>,
                     floor: Option<int>)
    requires FreshRecord(schema, hist, rec) && AboveFloors(schema, rec, floors) && i < |rec|
    requires Covered(schema, rec[i].table, floor, floors)
    ensures AtOrAbove(schema, rec[i], floor)
  {
  }

  lemma TailExtends(schema: Schema, hist: seq<Record>, m: nat, name: string, floor: Option<int>, rec: Record,
                    floors: map<string, int>, live: map<string, Tab>)
    requires m <= |hist| && name in live && TailAbove(schema, hist, m, name, floor, live[name].keep)
    requires FreshRecord(schema, hist, rec) && AboveFloors(schema, rec, floors) && Covered(schema, name, floor, floors)
    requires AllRetained(rec, live)
    ensures TailAbove(schema, hist + [rec], m, name, floor, live[name].keep)
  {
    hide FreshRecord, AboveFloors, Retained, AtOrAbove;
    var all: seq<Record> := hist + [rec];
    forall k, i | m <= k < |all| && 0 <= i < |all[k]| && all[k][i].table == name
      ensures AtOrAbove(schema, all[k][i], floor) && Retained(all[k][i].rows, live[name].keep)
    {
      if k == |hist| {
        AboveCovered(schema, hist, rec, i, floors, floor);
      }
    }
  }

  // ------------------------------------------------------------ syncing a record

  lemma RootExtends(schema: Schema, name: string, t: Tab, hist: seq<Record>, c: nat, rec: Record,
                    floors: map<string, int>, live: map<string, Tab>)
    requires schema.Valid() && name in schema.tables && c <= |hist| && RootOk(schema, name, t, hist, c)
    requires FreshRecord(schema, hist, rec) && AboveFloors(schema, rec, floors)
    requires Covered(schema, name, t.floor, floors)
    requires AllRetained(rec, live) && name in live && live[name].keep == t.keep
    ensures RootOk(schema, name, t, hist + [rec], c)
  {
    hide TabOk, FreshRecord, AboveFloors, AllRetained;
    assert (hist + [rec])[..c] == hist[..c];
    TailExtends(schema, hist, c, name, t.floor, rec, floors, live);
  }

  lemma SyncedDurable(schema: Schema, m: Machine)
    requires Inv(schema, m) && !m.fenced && m.flight.Pending?
    ensures var n := m.(hist := m.hist + [m.flight.rec]); Formed(schema, n) && DurableOk(schema, n)
  {
    hide TabOk, FreshRecord, AboveFloors, AllRetained, RootOk, CaptureOk, TailAbove;
    var n := m.(hist := m.hist + [m.flight.rec]);
    assert n.hist[..|m.hist|] == m.hist;
    forall name | name in schema.tables ensures RootOk(schema, name, n.root[name], n.hist, n.rootSequence) {
      RootExtends(schema, name, m.root[name], m.hist, m.rootSequence, m.flight.rec, m.floors, m.live);
    }
  }

  lemma FrozenExtends(schema: Schema, m: Machine, name: string)
    requires Inv(schema, m) && !m.fenced && m.flight.Pending? && name in schema.tables
    requires m.capture.Captured? && m.capture.epoch == m.epoch
    requires Formed(schema, m.(hist := m.hist + [m.flight.rec]))
    ensures FrozenFits(schema, m.(hist := m.hist + [m.flight.rec]), name, m.capture)
  {
    hide TabOk, FreshRecord, AboveFloors, AllRetained, RootOk, TailAbove, Rises, Covered, Frozen;
    var k, n := m.capture, m.(hist := m.hist + [m.flight.rec]);
    assert FrozenFits(schema, m, name, k);
    assert n.hist[..k.sequence] == m.hist[..k.sequence];
    FrozenFloor(schema, name, k.tabs[name], k.floors, k.written[name]);
    RaiseCovered(schema, name, k.tabs[name].floor, k.floors, m.floors);
    TailExtends(schema, m.hist, k.sequence, name, k.root[name].floor, m.flight.rec, m.floors, m.live);
  }

  lemma FrozenFloor(schema: Schema, name: string, t: Tab, floors: map<string, int>, written: seq<Stored>)
    ensures Frozen(schema, name, t, floors, written).floor == Raise(schema, name, t.floor, floors)
    ensures Frozen(schema, name, t, floors, written).hot == []
    ensures Frozen(schema, name, t, floors, written).keep == t.keep
  {
  }

  lemma SyncStep(schema: Schema, m: Machine, a: Action)
    requires Inv(schema, m) && Enabled(schema, m, a) && (a.Sync? || a.SyncUnknown?)
    ensures Inv(schema, Do(schema, m, a))
  {
    hide TabOk, FreshRecord, AboveFloors, RootOk, Rises, FrozenFits;
    SyncedDurable(schema, m);
    var n := Do(schema, m, a);
    if a.Sync? {
      assert n.hist[..m.sequence] == m.hist[..m.sequence];
      if m.capture.Captured? && m.capture.epoch == m.epoch {
        forall name | name in schema.tables ensures FrozenFits(schema, n, name, m.capture) {
          FrozenExtends(schema, m, name);
          SameFits(schema, m.(hist := n.hist), n, name, m.capture);
        }
      }
    }
  }

  lemma SameFits(schema: Schema, m: Machine, n: Machine, name: string, k: Capture)
    requires Formed(schema, m) && Formed(schema, n) && name in schema.tables && k.Captured?
    requires k.prior <= k.sequence <= m.sequence <= n.sequence
    requires name in k.tabs && name in k.root && name in k.written
    requires m.hist == n.hist && m.live[name].hot <= n.live[name].hot
    requires m.live[name].floor == n.live[name].floor && m.live[name].keep == n.live[name].keep
    requires FrozenFits(schema, m, name, k)
    ensures FrozenFits(schema, n, name, k)
  {
    hide TabOk, TailAbove, Frozen;
  }

  // ------------------------------------------------------------ installing a durable record

  lemma OnceOnlyLast(schema: Schema, hist: seq<Record>)
    requires OnceOnly(schema, hist) && hist != []
    ensures FreshRecord(schema, hist[..|hist| - 1], hist[|hist| - 1])
  {
    hide FreshRecord;
  }

  lemma InstalledTab(schema: Schema, m: Machine, name: string)
    requires Inv(schema, m) && !m.fenced && m.flight.Durable? && name in schema.tables
    ensures var t := ApplyRecord(schema, m.live[name], m.flight.rec, name, m.sequence + 1);
            && TabOk(schema, name, t, m.hist, m.checkpoint)
            && m.live[name].hot <= t.hot && t.floor == m.live[name].floor && t.keep == m.live[name].keep
  {
    hide TabOk, FreshRecord, AboveFloors, RootOk, CaptureOk, Replayable, ApplyRecord, Covered;
    var before, rec := m.hist[..m.sequence], m.flight.rec;
    OnceOnlyLast(schema, m.hist);
    assert m.hist == before + [rec];
    forall i | 0 <= i < |rec| && rec[i].table == name
      ensures AtOrAbove(schema, rec[i], m.live[name].floor) && Retained(rec[i].rows, m.live[name].keep)
    {
      AboveCovered(schema, before, rec, i, m.floors, m.live[name].floor);
    }
    FreshReplays(schema, name, m.live[name], before, m.checkpoint, rec);
    ApplyKeeps(schema, name, m.live[name], before, m.checkpoint, rec);
    ApplyRecordIs(schema, m.live[name], rec, name, m.sequence + 1);
  }

  lemma InstallStep(schema: Schema, m: Machine)
    requires Inv(schema, m) && Enabled(schema, m, InstallGroup)
    ensures Inv(schema, Do(schema, m, InstallGroup))
  {
    hide DurableOk, LiveOk, CaptureOk, AboveFloors, AllRetained, ApplyRecord, Rises;
    var n := Do(schema, m, InstallGroup);
    SelfRises(m.floors);
    RisesOn(m.floors, m.floors, m.flight.floors);
    DurableIsNext(schema, m);
    SameDurable(schema, m, n);
    InstalledLive(schema, m, n);
    CaptureStays(schema, m, n);
  }

  lemma DurableIsNext(schema: Schema, m: Machine)
    requires Inv(schema, m) && !m.fenced && m.flight.Durable?
    ensures m.sequence + 1 == |m.hist|
  {
    hide TabOk, DurableOk, CaptureOk;
  }

  lemma InstalledLive(schema: Schema, m: Machine, n: Machine)
    requires Inv(schema, m) && !m.fenced && m.flight.Durable? && Formed(schema, n) && Rises(m.floors, n.floors)
    requires n.hist == m.hist && n.root == m.root && n.rootSequence == m.rootSequence && n.checkpoint == m.checkpoint
    requires n.sequence == m.sequence + 1 && n.flight.NoFlight?
    requires n.live == map name | name in schema.tables ::
      ApplyRecord(schema, m.live[name], m.flight.rec, name, m.sequence + 1)
    ensures LiveOk(schema, n)
    ensures forall name :: name in schema.tables ==>
      && m.live[name].hot <= n.live[name].hot && m.live[name].floor == n.live[name].floor
      && m.live[name].keep == n.live[name].keep
  {
    hide TabOk, DurableOk, FlightOk, CaptureOk, ApplyRecord, Covered, Rises;
    assert m.hist[..n.sequence] == m.hist;
    forall name | name in schema.tables
      ensures TabOk(schema, name, n.live[name], n.hist[..n.sequence], n.checkpoint)
      ensures n.live[name].floor == n.root[name].floor && Covered(schema, name, n.live[name].floor, n.floors)
      ensures m.live[name].hot <= n.live[name].hot && n.live[name].keep == m.live[name].keep
    {
      InstalledTab(schema, m, name);
      StillCovered(schema, name, m.live[name].floor, m.floors, n.floors);
    }
  }

  /** A capture keeps fitting while tables only grow, the history stands and floors only rise. */
  lemma CaptureStays(schema: Schema, m: Machine, n: Machine)
    requires Formed(schema, m) && Formed(schema, n) && CaptureOk(schema, m)
    requires n.capture == m.capture && n.epoch == m.epoch && n.hist == m.hist && n.checkpoint == m.checkpoint
    requires m.sequence <= n.sequence
    requires Rises(m.floors, n.floors)
    requires forall name :: name in schema.tables ==>
      && m.live[name].hot <= n.live[name].hot && m.live[name].floor == n.live[name].floor
      && m.live[name].keep == n.live[name].keep
    ensures CaptureOk(schema, n)
  {
    hide FrozenFits, Rises;
    if m.capture.Captured? && m.capture.epoch == m.epoch {
      RisesOn(m.capture.floors, m.floors, n.floors);
      forall name | name in schema.tables ensures FrozenFits(schema, n, name, m.capture) {
        SameFits(schema, m, n, name, m.capture);
      }
    }
  }

  lemma SelfRises(a: map<string, int>)
    ensures Rises(a, a)
  {
  }

  // ------------------------------------------------------------ floors rise

  lemma FloorsRise(schema: Schema, m: Machine, floors: map<string, int>)
    requires Inv(schema, m) && !m.fenced && !m.flight.Durable? && Rises(m.floors, floors)
    ensures Inv(schema, m.(floors := floors, flight := NoFlight))
  {
    hide TabOk, FreshRecord, AboveFloors, RootOk, Covered, CaptureOk, Rises, OnceOnly;
    var n := m.(floors := floors, flight := NoFlight);
    forall name | name in schema.tables ensures Covered(schema, name, n.live[name].floor, n.floors) {
      StillCovered(schema, name, m.live[name].floor, m.floors, floors);
    }
    CaptureStays(schema, m, n);
  }

  // ------------------------------------------------------------ freezing and publishing

  lemma FreezeFits(schema: Schema, m: Machine, written: map<string, seq<Stored>>, name: string)
    requires Inv(schema, m) && !m.fenced && name in schema.tables && written.Keys == schema.tables.Keys
    requires multiset(written[name]) == multiset(Flat(m.live[name].hot))
    ensures FrozenFits(schema, m, name, DoFreeze(schema, m, written))
  {
    hide TabOk, FreshRecord, AboveFloors, RootOk, Covered, Rises, TailAbove, Frozen, CaptureOk;
    var k := DoFreeze(schema, m, written);
    SelfRises(m.floors);
    RaiseCovered(schema, name, m.live[name].floor, m.floors, m.floors);
    FrozenFloor(schema, name, m.live[name], m.floors, written[name]);
    var before := m.hist[..m.sequence];
    NoTail(schema, before, name, k.root[name].floor, k.root[name].keep);
    if m.flight.Durable? {
      OnceOnlyLast(schema, m.hist);
      assert m.hist == before + [m.flight.rec];
      TailExtends(schema, before, m.sequence, name, k.root[name].floor, m.flight.rec, m.floors, m.live);
    } else {
      assert m.hist == before;
    }
  }

  lemma NoTail(schema: Schema, hist: seq<Record>, name: string, floor: Option<int>, keep: Keep)
    ensures TailAbove(schema, hist, |hist|, name, floor, keep)
  {
  }

  lemma FreezeStep(schema: Schema, m: Machine, written: map<string, seq<Stored>>)
    requires Inv(schema, m) && Enabled(schema, m, Freeze(written))
    ensures Inv(schema, Do(schema, m, Freeze(written)))
  {
    hide TabOk, DurableOk, LiveOk, FlightOk, FrozenFits, Rises, Flat;
    var n := Do(schema, m, Freeze(written));
    SelfRises(m.floors);
    assert LiveShape(schema, m) by { LiveIs(schema, m); }
    forall name | name in schema.tables ensures FrozenFits(schema, n, name, n.capture) {
      FreezeFits(schema, m, written, name);
      SameFits(schema, m, n, name, n.capture);
    }
    OnlyCapture(schema, m, n);
  }

  lemma OnlyCapture(schema: Schema, m: Machine, n: Machine)
    requires Inv(schema, m) && n == m.(capture := n.capture) && Formed(schema, n)
    ensures DurableOk(schema, n) && (!m.fenced ==> LiveOk(schema, n) && FlightOk(schema, n))
  {
    hide TabOk, OnceOnly, RootOk, Covered, CaptureOk, FreshRecord, AboveFloors, AllRetained, Rises;
  }

  /** A fitting capture is a sound root, and installing it keeps the live tables right. */
  lemma PublishFits(schema: Schema, m: Machine, k: Capture, name: string)
    requires Inv(schema, m) && !m.fenced && m.flight.NoFlight? && name in schema.tables
    requires k.Captured? && k.prior == m.checkpoint <= k.sequence <= m.sequence
    requires name in k.tabs && name in k.root && name in k.written && Rises(k.floors, m.floors)
    requires FrozenFits(schema, m, name, k)
    ensures RootOk(schema, name, k.root[name], m.hist, k.sequence)
    ensures TabOk(schema, name,
                  Thaw(schema, name, m.live[name], k.tabs[name], k.root[name], Retired(k.tabs[name], k.root[name])),
                  m.hist, k.sequence)
    ensures Covered(schema, name, k.root[name].floor, m.floors) && k.root[name].keep == m.live[name].keep
  {
    hide TabOk, Covered, Rises, TailAbove, Frozen, CaptureOk, OnceOnly, Thaw, Retired;
    assert m.hist[..m.sequence] == m.hist;
    assert m.hist[..k.sequence][..k.sequence] == m.hist[..k.sequence];
    FrozenFloor(schema, name, k.tabs[name], k.floors, k.written[name]);
    RaiseCovered(schema, name, k.tabs[name].floor, k.floors, m.floors);
    assert RootOk(schema, name, m.root[name], m.hist, m.rootSequence);
    OnceOnlyPrefix(schema, m.hist, k.sequence);
    FrozenOk(schema, name, k.tabs[name], m.hist[..k.sequence], k.prior, k.floors, k.written[name]);
    ThawOk(schema, name, m.live[name], k.tabs[name], m.hist, k.prior, k.sequence, k.floors, k.written[name]);
  }

  lemma PublishKeeps(schema: Schema, m: Machine, k: Capture)
    requires Inv(schema, m) && !m.fenced && m.flight.NoFlight?
    requires k.Captured? && k.prior == m.checkpoint <= k.sequence <= m.sequence && Rises(k.floors, m.floors)
    requires k.tabs.Keys == k.root.Keys == k.written.Keys == schema.tables.Keys
    requires forall name :: name in schema.tables ==> FrozenFits(schema, m, name, k)
    ensures forall name :: name in schema.tables ==> k.tabs[name].hot <= m.live[name].hot
    ensures Inv(schema, DoPublish(schema, m, k))
    ensures Inv(schema, m.(root := k.root, rootSequence := k.sequence, fenced := true))
  {
    hide TabOk, Covered, Rises, FrozenFits, OnceOnly, RootOk, Thaw, Retired;
    forall name | name in schema.tables ensures k.tabs[name].hot <= m.live[name].hot { FitsPrefix(schema, m, name, k); }
    PublishRoot(schema, m, k, DoPublish(schema, m, k));
    PublishRoot(schema, m, k, m.(root := k.root, rootSequence := k.sequence, fenced := true));
    PublishLive(schema, m, k);
  }

  /** The published root is sound for the whole history. */
  lemma PublishRoot(schema: Schema, m: Machine, k: Capture, n: Machine)
    requires Inv(schema, m) && !m.fenced && m.flight.NoFlight?
    requires k.Captured? && k.prior == m.checkpoint <= k.sequence <= m.sequence && Rises(k.floors, m.floors)
    requires k.tabs.Keys == k.root.Keys == k.written.Keys == schema.tables.Keys
    requires forall name :: name in schema.tables ==> FrozenFits(schema, m, name, k)
    requires Formed(schema, n) && n.hist == m.hist && n.root == k.root && n.rootSequence == k.sequence
    ensures DurableOk(schema, n)
  {
    hide TabOk, Covered, Rises, FrozenFits, RootOk, Thaw, Retired, CaptureOk, FlightOk, LiveOk, OnceOnly;
    assert LiveShape(schema, m) by { LiveIs(schema, m); }
    forall name | name in schema.tables ensures RootOk(schema, name, n.root[name], n.hist, n.rootSequence) {
      PublishFits(schema, m, k, name);
    }
  }

  /** The live tables of a publication, and everything else about it that is live. */
  lemma PublishLive(schema: Schema, m: Machine, k: Capture)
    requires Inv(schema, m) && !m.fenced && m.flight.NoFlight?
    requires k.Captured? && k.prior == m.checkpoint <= k.sequence <= m.sequence && Rises(k.floors, m.floors)
    requires k.tabs.Keys == k.root.Keys == k.written.Keys == schema.tables.Keys
    requires forall name :: name in schema.tables ==> FrozenFits(schema, m, name, k)
    requires forall name :: name in schema.tables ==> k.tabs[name].hot <= m.live[name].hot
    ensures var n := DoPublish(schema, m, k);
      Formed(schema, n) && LiveOk(schema, n) && FlightOk(schema, n) && CaptureOk(schema, n)
  {
    hide Inv, LiveOk, FlightOk, CaptureOk, TabOk, Covered, Rises, FrozenFits, RootOk, Thaw, Retired;
    StandsAt(schema, m);
    var n := DoPublish(schema, m, k);
    forall name | name in schema.tables
      ensures TabOk(schema, name, n.live[name], n.hist[..n.sequence], n.checkpoint)
      ensures n.live[name].floor == n.root[name].floor && Covered(schema, name, n.live[name].floor, n.floors)
      ensures n.live[name].keep == n.root[name].keep
    {
      PublishFits(schema, m, k, name);
      ThawFloor(schema, name, m.live[name], k.tabs[name], k.root[name]);
    }
    Quiet(schema, n);
  }

  lemma ThawFloor(schema: Schema, name: string, live: Tab, frozen: Tab, root: Tab)
    requires |frozen.hot| <= |live.hot|
    ensures Thaw(schema, name, live, frozen, root, Retired(frozen, root)).floor == root.floor
    ensures Thaw(schema, name, live, frozen, root, Retired(frozen, root)).keep == live.keep
  {
  }

  lemma FitsPrefix(schema: Schema, m: Machine, name: string, k: Capture)
    requires Formed(schema, m) && name in schema.tables && k.Captured? && k.prior <= k.sequence <= m.sequence
    requires name in k.tabs && name in k.root && name in k.written && FrozenFits(schema, m, name, k)
    ensures k.tabs[name].hot <= m.live[name].hot
  {
  }

  lemma PublishStep(schema: Schema, m: Machine, a: Action)
    requires Inv(schema, m) && Enabled(schema, m, a) && (a.Publish? || a.PublishUnknown? || a.PublishLocked?)
    ensures Inv(schema, Do(schema, m, a))
  {
    hide TabOk, Covered, FrozenFits, OnceOnly, RootOk, DoPublish, DoFreeze, LiveOk;
    if a.PublishLocked? {
      var k := DoFreeze(schema, m, a.written);
      assert LiveShape(schema, m) by { LiveIs(schema, m); }
      FreezeShape(schema, m, a.written);
      SelfRises(m.floors);
      forall name | name in schema.tables ensures FrozenFits(schema, m, name, k) {
        FreezeFits(schema, m, a.written, name);
      }
      PublishKeeps(schema, m, k);
    } else {
      assert LiveShape(schema, m) by { LiveIs(schema, m); }
      PublishKeeps(schema, m, m.capture);
      if a.Publish? {
        ForgetKeeps(schema, DoPublish(schema, m, m.capture));
      }
    }
  }

  ghost predicate LiveShape(schema: Schema, m: Machine) {
    m.checkpoint == m.rootSequence <= m.sequence <= |m.hist|
  }

  lemma LiveIs(schema: Schema, m: Machine)
    requires Inv(schema, m) && !m.fenced
    ensures LiveShape(schema, m)
  {
  }

  lemma FreezeShape(schema: Schema, m: Machine, written: map<string, seq<Stored>>)
    requires Formed(schema, m) && written.Keys == schema.tables.Keys
    ensures var k := DoFreeze(schema, m, written);
            && k.tabs == m.live && k.tabs.Keys == k.root.Keys == schema.tables.Keys && k.written == written
            && k.prior == m.checkpoint && k.sequence == m.sequence && k.floors == m.floors && k.epoch == m.epoch
  {
  }

  lemma ForgetKeeps(schema: Schema, m: Machine)
    requires Inv(schema, m)
    ensures Inv(schema, m.(capture := NoCapture))
  {
    hide TabOk, Covered, FrozenFits, OnceOnly, RootOk;
  }

  // ------------------------------------------------------------ staging: exactly once

  lemma LiveTab(schema: Schema, m: Machine, name: string)
    requires Inv(schema, m) && !m.fenced && m.flight.NoFlight? && name in schema.tables
    ensures schema.Valid() && name in m.live && m.checkpoint <= |m.hist|
    ensures TabOk(schema, name, m.live[name], m.hist, m.checkpoint)
    ensures Covered(schema, name, m.live[name].floor, m.floors)
  {
    hide TabOk, DurableOk, CaptureOk;
    assert m.hist[..m.sequence] == m.hist;
  }

  lemma HistoryOnce(schema: Schema, m: Machine)
    requires Inv(schema, m)
    ensures OnceOnly(schema, m.hist)
  {
    hide OnceOnly, TabOk, LiveOk, FlightOk, CaptureOk;
  }

  lemma StagedFresh(schema: Schema, m: Machine, st: Staged)
    requires StagedOk(schema, m, st)
    ensures FreshRecord(schema, m.hist, st.rec)
  {
    hide FreshRecord;
  }

  /** What staging promises of the record it builds. */
  ghost predicate StagedOk(schema: Schema, m: Machine, st: Staged) {
    && FreshRecord(schema, m.hist, st.rec) && AboveFloors(schema, st.rec, m.floors)
    && AllRetained(st.rec, m.live) && Rises(m.floors, st.floors)
  }

  /**
   * A request that passes the retry check with no receipt in sight was never committed: its receipt
   * would still be there, unless a persisted floor retired it, and then the request is below the floor.
   */
  lemma NeverCommitted(schema: Schema, m: Machine, st: Staged, item: Item)
    requires Inv(schema, m) && !m.fenced && m.flight.NoFlight? && StagedOk(schema, m, st) && item.table in schema.tables
    requires var previous := if item.table in st.floors then Some(st.floors[item.table]) else None;
             var retry := RetryWith(schema.issued(item.id), schema.tables[item.table],
                                    FoundReceipt(schema, m, st, item), previous, item);
             retry.Retry? && retry.duplicate.None?
    ensures item.id !in Receipts(schema, m.hist, item.table) && !UsesId(st.rec, item.table, item.id)
    ensures AtOrAbove(schema, item, None)
    ensures (item.table in m.floors ==> AtOrAbove(schema, item, Some(m.floors[item.table])))
  {
    hide Inv, OnceOnly, TabOk, Receipts, RecordReceipts, UsesId, FreshRecord, AboveFloors, AllRetained;
    var name := item.table;
    LiveTab(schema, m, name);
    assert FoundReceipt(schema, m, st, item).None?;
    ReceiptIn(schema, st.rec, name, m.sequence + 1, item.id);
    UnseenId(schema, m, name, item.id);
  }

  /** An ID without a receipt was never committed, or lies below the live floor. */
  lemma UnseenId(schema: Schema, m: Machine, name: string, id: string)
    requires Inv(schema, m) && !m.fenced && m.flight.NoFlight? && name in schema.tables && name in m.live
    requires id !in m.live[name].receipts
    ensures id !in Receipts(schema, m.hist, name)
         || (schema.Timed(name) && schema.issued(id).Some? && name in m.floors
             && schema.issued(id).value < m.floors[name])
  {
    hide Inv, Receipts, OnceOnly, Rows, AddRows, Since, Flat;
    LiveTab(schema, m, name);
    HistoryOnce(schema, m);
    if id in Receipts(schema, m.hist, name) && schema.Timed(name) {
      TimedReceipts(schema, m.hist, name, id);
    }
  }

  lemma StageItemOk(schema: Schema, m: Machine, st: Staged, item: Item, admit: bool)
    requires Inv(schema, m) && !m.fenced && m.flight.NoFlight? && StagedOk(schema, m, st)
    ensures StagedOk(schema, m, StageItem(schema, m, st, item, admit))
  {
    hide Inv, Receipts, AtOrAbove, UsesId;
    assert Formed(schema, m) by { InvFormed(schema, m); }
    if item.table in schema.tables && item.table in m.live {
      var previous := if item.table in st.floors then Some(st.floors[item.table]) else None;
      var retry := RetryWith(schema.issued(item.id), schema.tables[item.table], FoundReceipt(schema, m, st, item),
                             previous, item);
      if retry.Retry? && retry.duplicate.None? {
        NeverCommitted(schema, m, st, item);
        FreshSnoc(schema, m.hist, st.rec, item);
      }
    }
  }

  lemma InvFormed(schema: Schema, m: Machine)
    requires Inv(schema, m)
    ensures Formed(schema, m)
  {
  }

  lemma FreshSnoc(schema: Schema, hist: seq<Record>, rec: Record, item: Item)
    requires FreshRecord(schema, hist, rec) && item.table in schema.tables
    requires item.id !in Receipts(schema, hist, item.table) && !UsesId(rec, item.table, item.id)
    requires AtOrAbove(schema, item, None)
    ensures FreshRecord(schema, hist, rec + [item])
  {
    hide UsesId, AtOrAbove, Receipts;
    var all := rec + [item];
    forall i | 0 <= i < |all|
      ensures all[i].table in schema.tables && all[i].id !in Receipts(schema, hist, all[i].table)
      ensures !UsesId(all[..i], all[i].table, all[i].id) && AtOrAbove(schema, all[i], None)
    {
      assert all[..i] == rec[..i];
      if i == |rec| {
        assert all[..i] == rec;
      }
    }
  }

  lemma {:induction false} StageItemsOk(schema: Schema, m: Machine, requests: seq<Item>, admit: seq<bool>)
    requires Inv(schema, m) && !m.fenced && m.flight.NoFlight? && |admit| == |requests|
    ensures StagedOk(schema, m, StageItems(schema, m, requests, admit))
  {
    hide Inv, StagedOk;
    if requests == [] {
      NothingStaged(schema, m);
    } else {
      var n := |requests| - 1;
      StageItemsOk(schema, m, requests[..n], admit[..n]);
      StageItemOk(schema, m, StageItems(schema, m, requests[..n], admit[..n]), requests[n], admit[n]);
    }
  }

  lemma NothingStaged(schema: Schema, m: Machine)
    ensures StagedOk(schema, m, Staged([], m.floors))
  {
  }

  lemma StageStep(schema: Schema, m: Machine, requests: seq<Item>, admit: seq<bool>)
    requires Inv(schema, m) && Enabled(schema, m, Stage(requests, admit))
    ensures Inv(schema, Do(schema, m, Stage(requests, admit)))
  {
    hide TabOk, FreshRecord, AboveFloors, RootOk, Covered, FrozenFits, Rises, OnceOnly, StageItems;
    StageItemsOk(schema, m, requests, admit);
    var st, n := StageItems(schema, m, requests, admit), Do(schema, m, Stage(requests, admit));
    if st.rec == [] {
      FloorsRise(schema, m, st.floors);
      assert n == m.(floors := st.floors, flight := NoFlight);
    } else {
      SelfRises(m.floors);
      CaptureStays(schema, m, n);
    }
  }

  // ------------------------------------------------------------ crash and recovery

  /** Replaying the durable tail into the root never fails and reaches the state the history calls for. */
  lemma {:induction false} RecoveredTab(schema: Schema, name: string, t: Tab, hist: seq<Record>, c: nat)
    requires schema.Valid() && name in schema.tables && c <= |hist| && OnceOnly(schema, hist)
    requires TabOk(schema, name, t, hist[..c], c) && TailAbove(schema, hist, c, name, t.floor, t.keep)
    ensures Recovers(schema, name, t, hist, c)
    ensures TabOk(schema, name, ReplayTo(schema, name, t, hist, c), hist, c)
    ensures ReplayTo(schema, name, t, hist, c).floor == t.floor && ReplayTo(schema, name, t, hist, c).keep == t.keep
    decreases |hist|
  {
    hide TabOk, FreshRecord, Replayable, ApplyRecord, AtOrAbove, TailAbove;
    if c == |hist| {
      assert hist[..c] == hist;
    } else {
      var n := |hist| - 1;
      assert hist[..n][..c] == hist[..c];
      TailInit(schema, hist, c, name, t.floor, t.keep);
      RecoveredTab(schema, name, t, hist[..n], c);
      ReplayNext(schema, name, ReplayTo(schema, name, t, hist[..n], c), hist, c);
    }
  }

  lemma TailInit(schema: Schema, hist: seq<Record>, c: nat, name: string, floor: Option<int>, keep: Keep)
    requires c < |hist| && TailAbove(schema, hist, c, name, floor, keep)
    ensures TailAbove(schema, hist[..|hist| - 1], c, name, floor, keep)
    ensures RecordAbove(schema, hist[|hist| - 1], name, floor, keep)
  {
    hide AtOrAbove, Retained;
  }

  lemma ReplayNext(schema: Schema, name: string, u: Tab, hist: seq<Record>, c: nat)
    requires schema.Valid() && name in schema.tables && c < |hist| && OnceOnly(schema, hist)
    requires TabOk(schema, name, u, hist[..|hist| - 1], c)
    requires RecordAbove(schema, hist[|hist| - 1], name, u.floor, u.keep)
    ensures var rec := hist[|hist| - 1];
            var t := ApplyRecord(schema, u, rec, name, |hist|);
            Replayable(schema, u, rec, name) && TabOk(schema, name, t, hist, c) && t.floor == u.floor
                && t.keep == u.keep
  {
    hide TabOk, FreshRecord, Replayable, ApplyRecord, AtOrAbove;
    var n := |hist| - 1;
    OnceOnlyLast(schema, hist);
    FreshReplays(schema, name, u, hist[..n], c, hist[n]);
    ApplyKeeps(schema, name, u, hist[..n], c, hist[n]);
    ApplyRecordIs(schema, u, hist[n], name, |hist|);
    assert hist == hist[..n] + [hist[n]];
  }

  lemma CrashStep(schema: Schema, m: Machine)
    requires Inv(schema, m)
    ensures Inv(schema, Recover(schema, m))
    ensures forall name :: name in schema.tables ==> Recovers(schema, name, m.root[name], m.hist, m.rootSequence)
  {
    hide TabOk, FreshRecord, Covered, TailAbove, OnceOnly, Recovers, ReplayTo, LiveOk, FlightOk, CaptureOk;
    var n := Recover(schema, m);
    assert n.hist[..n.sequence] == n.hist;
    forall name | name in schema.tables
      ensures Recovers(schema, name, m.root[name], m.hist, m.rootSequence)
      ensures TabOk(schema, name, n.live[name], n.hist, n.checkpoint)
      ensures n.live[name].floor == n.root[name].floor && n.live[name].keep == n.root[name].keep
      ensures Covered(schema, name, n.live[name].floor, n.floors)
    {
      assert RootOk(schema, name, m.root[name], m.hist, m.rootSequence);
      RecoveredTab(schema, name, m.root[name], m.hist, m.rootSequence);
      Persisted(schema, name, m.root);
    }
    Quiet(schema, n);
  }

  lemma Persisted(schema: Schema, name: string, tabs: map<string, Tab>)
    requires name in tabs
    ensures Covered(schema, name, tabs[name].floor, PersistedFloors(tabs))
  {
  }

  lemma Quiet(schema: Schema, n: Machine)
    requires Formed(schema, n) && n.flight.NoFlight? && (n.capture.Captured? ==> n.capture.epoch < n.epoch)
    requires n.checkpoint == n.rootSequence && n.sequence == |n.hist|
    requires forall name :: name in schema.tables ==>
      && TabOk(schema, name, n.live[name], n.hist[..n.sequence], n.checkpoint)
      && n.live[name].floor == n.root[name].floor && Covered(schema, name, n.live[name].floor, n.floors)
      && n.live[name].keep == n.root[name].keep
    ensures LiveOk(schema, n) && FlightOk(schema, n) && CaptureOk(schema, n)
  {
    hide TabOk, Covered;
  }

  // ------------------------------------------------------------ retention and compaction

  /** A maintained table is a sound root, live and durable alike. */
  lemma MaintainedTab(schema: Schema, m: Machine, upkeep: map<string, Upkeep>, name: string)
    requires Inv(schema, m) && Maintainable(schema, m, upkeep) && name in schema.tables
    ensures var t := Upkept(m.live[name], upkeep[name]);
      && TabOk(schema, name, t, m.hist, m.checkpoint) && m.checkpoint == |m.hist|
      && RootOk(schema, name, t.(hot := []), m.hist, m.rootSequence)
      && Covered(schema, name, t.floor, m.floors)
  {
    hide TabOk, OnceOnly, Covered, CaptureOk, FlightOk, TailAbove;
    var t := Upkept(m.live[name], upkeep[name]);
    assert m.hist[..m.sequence] == m.hist;
    assert RootOk(schema, name, m.root[name], m.hist, m.rootSequence);
    UpkeepKeeps(schema, name, m.live[name], upkeep[name], m.hist);
    NoTail(schema, m.hist, name, t.floor, t.keep);
    DropEmpty(schema, name, t, m.hist);
  }

  lemma DropEmpty(schema: Schema, name: string, t: Tab, hist: seq<Record>)
    requires schema.Valid() && name in schema.tables && TabOk(schema, name, t, hist, |hist|) && Flat(t.hot) == []
    ensures TabOk(schema, name, t.(hot := []), hist, |hist|)
  {
    hide Rows, Receipts, Unpruned, AddRows, Since;
  }

  lemma MaintainStep(schema: Schema, m: Machine, a: Action)
    requires Inv(schema, m) && Enabled(schema, m, a) && (a.Maintain? || a.MaintainUnknown?)
    ensures Inv(schema, Do(schema, m, a))
  {
    hide DurableOk, LiveOk, FlightOk, CaptureOk, Upkept, UpkeepOk;
    var k := DoMaintain(schema, m, a.upkeep);
    MaintainRoot(schema, m, a.upkeep, k);
    if a.Maintain? {
      MaintainLive(schema, m, a.upkeep);
    } else {
      MaintainRoot(schema, m, a.upkeep, m.(root := k.root, fenced := true));
      SameDurable(schema, m, m.(fenced := true));
    }
  }

  lemma SameDurable(schema: Schema, m: Machine, n: Machine)
    requires Formed(schema, m) && Formed(schema, n) && DurableOk(schema, m)
    requires n.hist == m.hist && n.root == m.root && n.rootSequence == m.rootSequence
    ensures DurableOk(schema, n)
  {
    hide OnceOnly, RootOk;
  }

  lemma MaintainRoot(schema: Schema, m: Machine, upkeep: map<string, Upkeep>, n: Machine)
    requires Inv(schema, m) && Maintainable(schema, m, upkeep)
    requires n.hist == m.hist && n.root == DoMaintain(schema, m, upkeep).root && n.rootSequence == m.rootSequence
    requires n.live.Keys == m.live.Keys && n.sequence == m.sequence && n.checkpoint == m.checkpoint
    requires n.walFrom == m.walFrom
    requires n.capture == m.capture
    ensures Formed(schema, n) && DurableOk(schema, n)
  {
    hide TabOk, Covered, OnceOnly, RootOk, Upkept, UpkeepOk, LiveOk, FlightOk, CaptureOk;
    forall name | name in schema.tables ensures RootOk(schema, name, n.root[name], n.hist, n.rootSequence) {
      MaintainedTab(schema, m, upkeep, name);
    }
  }

  lemma MaintainLive(schema: Schema, m: Machine, upkeep: map<string, Upkeep>)
    requires Inv(schema, m) && Maintainable(schema, m, upkeep)
    ensures var n := DoMaintain(schema, m, upkeep);
      Formed(schema, n) && LiveOk(schema, n) && FlightOk(schema, n) && CaptureOk(schema, n)
  {
    hide Inv, LiveOk, FlightOk, CaptureOk, TabOk, Covered, Upkept, UpkeepOk, RootOk;
    StandsAt(schema, m);
    var n := DoMaintain(schema, m, upkeep);
    forall name | name in schema.tables
      ensures TabOk(schema, name, n.live[name], n.hist[..n.sequence], n.checkpoint)
      ensures n.live[name].floor == n.root[name].floor && n.live[name].keep == n.root[name].keep
      ensures Covered(schema, name, n.live[name].floor, n.floors)
    {
      MaintainedTab(schema, m, upkeep, name);
    }
    Quiet(schema, n);
  }

  /** Between groups the whole history is live, and a capture is never of a later epoch. */
  lemma StandsAt(schema: Schema, m: Machine)
    requires Inv(schema, m) && !m.fenced && m.flight.NoFlight?
    ensures Formed(schema, m) && m.checkpoint == m.rootSequence && m.sequence == |m.hist|
    ensures m.hist[..m.sequence] == m.hist
    ensures m.capture.Captured? ==> m.capture.epoch <= m.epoch
  {
    hide TabOk, DurableOk, FrozenFits;
  }

  lemma RetireStep(schema: Schema, m: Machine, through: nat)
    requires Inv(schema, m) && Enabled(schema, m, RetireWal(through))
    ensures Inv(schema, Do(schema, m, RetireWal(through)))
  {
    hide TabOk, FreshRecord, AboveFloors, RootOk, Covered, FrozenFits, OnceOnly;
    SelfRises(m.floors);
    CaptureStays(schema, m, m.(walFrom := through));
  }

  // ------------------------------------------------------------ every run

  lemma StepKeeps(schema: Schema, m: Machine, a: Action)
    requires Inv(schema, m) && Enabled(schema, m, a)
    ensures Inv(schema, Do(schema, m, a))
  {
    hide Inv, Enabled, Do;
    match a
    case Stage(requests, admit) => StageStep(schema, m, requests, admit);
    case Sync => SyncStep(schema, m, a);
    case SyncRefused(floors) => RefusedStep(schema, m, a);
    case SyncUnknown(_) => SyncStep(schema, m, a);
    case InstallGroup => InstallStep(schema, m);
    case AdvanceFloors(floors) => RefusedStep(schema, m, a);
    case Freeze(written) => FreezeStep(schema, m, written);
    case Forget => ForgetStep(schema, m);
    case Publish => PublishStep(schema, m, a);
    case PublishUnknown(_) => PublishStep(schema, m, a);
    case PublishLocked(_) => PublishStep(schema, m, a);
    case Maintain(_) => MaintainStep(schema, m, a);
    case MaintainUnknown(_, _) => MaintainStep(schema, m, a);
    case RetireWal(through) => RetireStep(schema, m, through);
    case Crash => RecoverStep(schema, m);
  }

  lemma RefusedStep(schema: Schema, m: Machine, a: Action)
    requires Inv(schema, m) && Enabled(schema, m, a) && (a.SyncRefused? || a.AdvanceFloors?)
    ensures Inv(schema, Do(schema, m, a))
  {
    hide Inv;
    assert Formed(schema, m) by { InvFormed(schema, m); }
    FloorsRise(schema, m, a.floors);
    assert Do(schema, m, a) == m.(floors := a.floors, flight := NoFlight);
  }

  lemma ForgetStep(schema: Schema, m: Machine)
    requires Inv(schema, m)
    ensures Inv(schema, Do(schema, m, Forget))
  {
    ForgetKeeps(schema, m);
  }

  lemma RecoverStep(schema: Schema, m: Machine)
    requires Inv(schema, m)
    ensures Inv(schema, Do(schema, m, Crash))
  {
    hide Inv;
    assert Formed(schema, m) by { InvFormed(schema, m); }
    CrashStep(schema, m);
  }
}
