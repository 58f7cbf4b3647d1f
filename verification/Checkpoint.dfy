/**
 * Group appends, frozen-prefix checkpoints, crashes and recovery as one transition system. The
 * commit lock serializes appends, floor changes and publication; capturing a checkpoint needs only
 * the state lock, so it may happen while a group is being synced.
 */
module Checkpoint {
  import opened Common
  import opened Rollup
  import opened Engine
  import opened EngineReplay
  import opened History

  datatype Flight =
    | NoFlight
    | Pending(rec: Record, floors: map<string, int>)
    | Durable(rec: Record, floors: map<string, int>)

  /** A captured prefix, with the root prepared from it off the locks. */
  datatype Capture =
    | NoCapture
    | Captured(tabs: map<string, Tab>, root: map<string, Tab>, written: map<string, seq<Stored>>,
               sequence: nat, prior: nat, epoch: nat, floors: map<string, int>)

  datatype Machine = Machine(
    hist: seq<Record>,
    root: map<string, Tab>, rootSequence: nat,
    walFrom: nat,
    live: map<string, Tab>, sequence: nat, checkpoint: nat, epoch: nat, floors: map<string, int>,
    flight: Flight, capture: Capture, fenced: bool)

  datatype Action =
    | Stage(requests: seq<Item>, admit: seq<bool>)
    | Sync | SyncRefused(floors: map<string, int>) | SyncUnknown(durable: bool)
    | InstallGroup | AdvanceFloors(floors: map<string, int>)
    | Freeze(written: map<string, seq<Stored>>) | Forget
    | Publish | PublishUnknown(done: bool) | PublishLocked(written: map<string, seq<Stored>>)
    | Maintain(upkeep: map<string, Upkeep>) | MaintainUnknown(upkeep: map<string, Upkeep>, done: bool)
    | RetireWal(through: nat) | Crash

  const EMPTY: Tab := Tab([], [], map[], map[], None, Keep(None, Everything))

  function Init(schema: Schema): (m: Machine) {
    var tabs := map name | name in schema.tables :: EMPTY;
    Machine([], tabs, 0, 0, tabs, 0, 0, 0, map[], NoFlight, NoCapture, false)
  }

  /** Floors only ever rise. */
  ghost predicate Rises(a: map<string, int>, b: map<string, int>) {
    forall name :: name in a ==> name in b && a[name] <= b[name]
  }

  // ------------------------------------------------------------ staging

  datatype Staged = Staged(rec: Record, floors: map<string, int>)

  function FoundReceipt(schema: Schema, m: Machine, st: Staged, item: Item): (r: Option<Receipt>)
    requires item.table in m.live
  {
    var own := RecordReceipts(schema, st.rec, item.table, m.sequence + 1);
    if item.id in own then Some(own[item.id])
    else if item.id in m.live[item.table].receipts then Some(m.live[item.table].receipts[item.id])
    else None
  }

  function StageItem(schema: Schema, m: Machine, st: Staged, item: Item, admit: bool): (r: Staged) {
    if item.table !in schema.tables || item.table !in m.live then st
    else
      var retry := RetryWith(schema.issued(item.id), schema.tables[item.table], FoundReceipt(schema, m, st, item),
                             if item.table in st.floors then Some(st.floors[item.table]) else None, item);
      if retry.NoRetry? then st
      else
        var floors := if retry.floor.Some? then st.floors[item.table := retry.floor.value] else st.floors;
        if retry.duplicate.Some? || !admit || !Retained(item.rows, m.live[item.table].keep) then Staged(st.rec, floors)
        else Staged(st.rec + [item], floors)
  }

  function StageItems(schema: Schema, m: Machine, requests: seq<Item>, admit: seq<bool>): (r: Staged)
    requires |admit| == |requests|
  {
    if requests == [] then Staged([], m.floors)
    else
      var n := |requests| - 1;
      StageItem(schema, m, StageItems(schema, m, requests[..n], admit[..n]), requests[n], admit[n])
  }

  // ------------------------------------------------------------ recovery

  /** A table after replaying the records above `c` into what the root holds. */
  function ReplayTo(schema: Schema, name: string, t: Tab, hist: seq<Record>, c: nat): (r: Tab)
    requires schema.Valid() && name in schema.tables && c <= |hist|
    decreases |hist|
  {
    if c == |hist| then t
    else ApplyRecord(schema, ReplayTo(schema, name, t, hist[..|hist| - 1], c), hist[|hist| - 1], name, |hist|)
  }

  /** Recovery meets no record it has to refuse. */
  ghost predicate Recovers(schema: Schema, name: string, t: Tab, hist: seq<Record>, c: nat)
    requires schema.Valid() && name in schema.tables && c <= |hist|
    decreases |hist|
  {
    c < |hist| ==>
      var n := |hist| - 1;
      && Recovers(schema, name, t, hist[..n], c)
      && Replayable(schema, ReplayTo(schema, name, t, hist[..n], c), hist[n], name)
  }

  ghost function PersistedFloors(tabs: map<string, Tab>): (r: map<string, int>) {
    map name | name in tabs && tabs[name].floor.Some? :: tabs[name].floor.value
  }

  // ------------------------------------------------------------ steps

  /** `frozen_prefix_is_current`: nothing but appends happened since the capture. */
  predicate Current(m: Machine) {
    && m.capture.Captured?
    && m.sequence >= m.capture.sequence && m.checkpoint == m.capture.prior && m.epoch == m.capture.epoch
    && m.floors == m.capture.floors
    && (forall name :: name in m.capture.tabs ==> name in m.live && m.capture.tabs[name].hot <= m.live[name].hot)
  }

  ghost predicate Formed(schema: Schema, m: Machine) {
    && schema.Valid() && m.root.Keys == schema.tables.Keys && m.live.Keys == schema.tables.Keys
    && m.rootSequence <= |m.hist| && m.sequence <= |m.hist| && m.checkpoint <= m.sequence && m.walFrom <= m.rootSequence
    && (m.capture.Captured? ==> m.capture.tabs.Keys == schema.tables.Keys && m.capture.root.Keys == schema.tables.Keys
                                && m.capture.written.Keys == schema.tables.Keys)
  }

  ghost predicate Enabled(schema: Schema, m: Machine, a: Action) {
    match a
    case Stage(requests, admit) => !m.fenced && m.flight.NoFlight? && |admit| == |requests|
    case Sync => !m.fenced && m.flight.Pending?
    case SyncRefused(floors) => !m.fenced && m.flight.Pending? && Rises(m.floors, floors)
    case SyncUnknown(_) => !m.fenced && m.flight.Pending?
    case InstallGroup => !m.fenced && m.flight.Durable?
    case AdvanceFloors(floors) => !m.fenced && m.flight.NoFlight? && Rises(m.floors, floors)
    case Freeze(written) =>
      && !m.fenced && written.Keys == schema.tables.Keys
      && forall name :: name in m.live && name in written ==>
           multiset(written[name]) == multiset(Flat(m.live[name].hot))
    case Forget => true
    case Publish => !m.fenced && m.flight.NoFlight? && Current(m)
    case PublishUnknown(_) => !m.fenced && m.flight.NoFlight? && Current(m)
    case PublishLocked(written) =>
      && !m.fenced && m.flight.NoFlight? && written.Keys == schema.tables.Keys
      && forall name :: name in m.live && name in written ==>
           multiset(written[name]) == multiset(Flat(m.live[name].hot))
    case Maintain(upkeep) => Maintainable(schema, m, upkeep)
    case MaintainUnknown(upkeep, _) => Maintainable(schema, m, upkeep)
    case RetireWal(through) => !m.fenced && m.walFrom <= through <= m.checkpoint
    case Crash => true
  }

  /** Retention and compaction publish only over a current checkpoint. */
  ghost predicate Maintainable(schema: Schema, m: Machine, upkeep: map<string, Upkeep>) {
    && !m.fenced && m.flight.NoFlight? && m.checkpoint == m.sequence && upkeep.Keys == schema.tables.Keys
    && forall name :: name in m.live && name in upkeep ==> UpkeepOk(m.live[name], upkeep[name])
  }

  ghost function Do(schema: Schema, m: Machine, a: Action): (r: Machine)
    requires Formed(schema, m) && Enabled(schema, m, a)
  {
    match a
    case Stage(requests, admit) =>
      var st := StageItems(schema, m, requests, admit);
      if st.rec == [] then m.(floors := st.floors) else m.(flight := Pending(st.rec, st.floors))
    case Sync => m.(hist := m.hist + [m.flight.rec], flight := Durable(m.flight.rec, m.flight.floors))
    case SyncRefused(floors) => m.(flight := NoFlight, floors := floors)
    case SyncUnknown(durable) =>
      m.(hist := if durable then m.hist + [m.flight.rec] else m.hist, flight := NoFlight, fenced := true)
    case InstallGroup =>
      m.(live := map name | name in schema.tables ::
                   ApplyRecord(schema, m.live[name], m.flight.rec, name, m.sequence + 1),
         sequence := m.sequence + 1, floors := m.floors + m.flight.floors, flight := NoFlight)
    case AdvanceFloors(floors) => m.(floors := floors)
    case Freeze(written) => m.(capture := DoFreeze(schema, m, written))
    case Forget => m.(capture := NoCapture)
    case Publish => DoPublish(schema, m, m.capture).(capture := NoCapture)
    case PublishUnknown(done) =>
      m.(root := if done then m.capture.root else m.root,
         rootSequence := if done then m.capture.sequence else m.rootSequence, fenced := true)
    case PublishLocked(written) => DoPublish(schema, m, DoFreeze(schema, m, written))
    case Maintain(upkeep) => DoMaintain(schema, m, upkeep)
    case MaintainUnknown(upkeep, done) =>
      m.(root := if done then DoMaintain(schema, m, upkeep).root else m.root, fenced := true)
    case RetireWal(through) => m.(walFrom := through)
    case Crash => Recover(schema, m)
  }

  /** The catalog with rewritten segments and raised cutoffs becomes durable and live at once. */
  ghost function DoMaintain(schema: Schema, m: Machine, upkeep: map<string, Upkeep>): (r: Machine)
    requires Formed(schema, m) && upkeep.Keys == schema.tables.Keys
  {
    m.(root := map name | name in schema.tables :: Upkept(m.live[name], upkeep[name]).(hot := []),
       live := map name | name in schema.tables :: Upkept(m.live[name], upkeep[name]), epoch := m.epoch + 1)
  }

  /** Capture the live tables and prepare the root they amount to under the live floors. */
  ghost function DoFreeze(schema: Schema, m: Machine, written: map<string, seq<Stored>>): (k: Capture)
    requires Formed(schema, m) && written.Keys == schema.tables.Keys
    ensures k.Captured?
  {
    Captured(m.live, map name | name in schema.tables :: Frozen(schema, name, m.live[name], m.floors, written[name]),
             written, m.sequence, m.checkpoint, m.epoch, m.floors)
  }

  /** The root becomes durable, then the live state drops what the root now holds. */
  ghost function DoPublish(schema: Schema, m: Machine, k: Capture): (r: Machine)
    requires Formed(schema, m) && k.Captured? && k.tabs.Keys == k.root.Keys == schema.tables.Keys
    requires forall name :: name in schema.tables ==> k.tabs[name].hot <= m.live[name].hot
  {
    m.(root := k.root, rootSequence := k.sequence, checkpoint := k.sequence, epoch := m.epoch + 1,
       live := map name | name in schema.tables ::
                 Thaw(schema, name, m.live[name], k.tabs[name], k.root[name], Retired(k.tabs[name], k.root[name])))
  }

  /** Reopen: the root's tables, then every durable record above it. */
  ghost function Recover(schema: Schema, m: Machine): (r: Machine)
    requires Formed(schema, m)
  {
    m.(live := map name | name in schema.tables :: ReplayTo(schema, name, m.root[name], m.hist, m.rootSequence),
       sequence := |m.hist|, checkpoint := m.rootSequence, epoch := 0, floors := PersistedFloors(m.root),
       flight := NoFlight, capture := NoCapture, fenced := false)
  }

  // ------------------------------------------------------------ the invariant

  /** Disk alone: the root is the checkpointed prefix, and every later record replays into it. */
  ghost predicate DurableOk(schema: Schema, m: Machine)
    requires Formed(schema, m)
  {
    && OnceOnly(schema, m.hist)
    && forall name :: name in schema.tables ==> RootOk(schema, name, m.root[name], m.hist, m.rootSequence)
  }

  ghost predicate RootOk(schema: Schema, name: string, t: Tab, hist: seq<Record>, c: nat)
    requires schema.Valid() && name in schema.tables && c <= |hist|
  {
    && TabOk(schema, name, t, hist[..c], c) && t.hot == []
    && TailAbove(schema, hist, c, name, t.floor, t.keep) && (!schema.Timed(name) ==> t.floor.None?)
  }

  /** A live floor never falls behind the persisted one. */
  ghost predicate Covered(schema: Schema, name: string, floor: Option<int>, floors: map<string, int>) {
    schema.Timed(name) && floor.Some? ==> name in floors && floor.value <= floors[name]
  }

  ghost predicate LiveOk(schema: Schema, m: Machine)
    requires Formed(schema, m)
  {
    && m.checkpoint == m.rootSequence
    && m.sequence + (if m.flight.Durable? then 1 else 0) == |m.hist|
    && forall name :: name in schema.tables ==>
         && TabOk(schema, name, m.live[name], m.hist[..m.sequence], m.checkpoint)
         && m.live[name].floor == m.root[name].floor && Covered(schema, name, m.live[name].floor, m.floors)
         && m.live[name].keep == m.root[name].keep
  }

  /** No request of the record reaches below its table's raw cutoff. */
  ghost predicate AllRetained(rec: Record, live: map<string, Tab>) {
    forall i :: 0 <= i < |rec| && rec[i].table in live ==> Retained(rec[i].rows, live[rec[i].table].keep)
  }

  ghost predicate FlightOk(schema: Schema, m: Machine) {
    match m.flight
    case NoFlight => true
    case Pending(rec, floors) =>
      FreshRecord(schema, m.hist, rec) && AboveFloors(schema, rec, m.floors) && AllRetained(rec, m.live)
          && Rises(m.floors, floors)
    case Durable(rec, floors) =>
      && m.hist != [] && m.hist[|m.hist| - 1] == rec
      && AboveFloors(schema, rec, m.floors) && AllRetained(rec, m.live) && Rises(m.floors, floors)
  }

  ghost predicate CaptureOk(schema: Schema, m: Machine)
    requires Formed(schema, m)
  {
    m.capture.Captured? ==>
      && m.capture.epoch <= m.epoch
      && (m.capture.epoch == m.epoch ==>
            && m.capture.prior == m.checkpoint <= m.capture.sequence <= m.sequence && Rises(m.capture.floors, m.floors)
            && forall name :: name in schema.tables ==> FrozenFits(schema, m, name, m.capture))
  }

  ghost predicate FrozenFits(schema: Schema, m: Machine, name: string, k: Capture)
    requires Formed(schema, m) && name in schema.tables && k.Captured? && k.prior <= k.sequence <= m.sequence
    requires name in k.tabs && name in k.root && name in k.written
  {
    && TabOk(schema, name, k.tabs[name], m.hist[..k.sequence], k.prior)
    && k.tabs[name].hot <= m.live[name].hot && k.tabs[name].floor == m.live[name].floor
    && k.tabs[name].keep == m.live[name].keep
    && multiset(k.written[name]) == multiset(Flat(k.tabs[name].hot))
    && k.root[name] == Frozen(schema, name, k.tabs[name], k.floors, k.written[name])
    && TailAbove(schema, m.hist, k.sequence, name, k.root[name].floor, k.root[name].keep)
  }

  ghost predicate Inv(schema: Schema, m: Machine) {
    && Formed(schema, m) && DurableOk(schema, m)
    && (!m.fenced ==> LiveOk(schema, m) && FlightOk(schema, m) && CaptureOk(schema, m))
  }
}
