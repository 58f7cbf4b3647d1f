/** The floors a pressure checkpoint may persist in the middle of a group. */
module Floors {
  import opened Common
  import opened Rollup
  import opened Engine
  import opened EngineReplay
  import opened History

  /** Outcomes already checked against durable state survive a retry of the whole group. */
  datatype Verdict = Undecided | Settled(ok: bool)

  datatype Request = Bad | Good(item: Item, verdict: Verdict)

  /** Committed receipts and live floors. */
  datatype Catalog = Catalog(schema: Schema, receipts: map<string, map<string, Receipt>>, floors: map<string, int>)

  function Lookup<V>(m: map<string, V>, k: string): (r: Option<V>) {
    if k in m then Some(m[k]) else None
  }

  function MaxOf(a: Option<int>, b: Option<int>): (r: Option<int>) {
    if a.None? then b else if b.None? then a else Some(Max(a.value, b.value))
  }

  function MinOf(a: Option<int>, b: Option<int>): (r: Option<int>) {
    if a.None? then b else if b.None? then a else Some(if a.value < b.value then a.value else b.value)
  }

  predicate AtMostOf(a: Option<int>, b: int) {
    a.Some? ==> a.value <= b
  }

  function ReceiptFor(c: Catalog, item: Item): (r: Option<Receipt>) {
    if item.table in c.receipts then Lookup(c.receipts[item.table], item.id) else None
  }

  function RetryAt(c: Catalog, floor: Option<int>, item: Item): (r: Retry) {
    if item.table !in c.schema.tables then NoRetry
    else RetryWith(c.schema.issued(item.id), c.schema.tables[item.table], ReceiptFor(c, item), floor, item)
  }

  /** The floor a request's own clock implies. */
  function ClockFloor(c: Catalog, item: Item): (r: Option<int>)
    ensures r.Some? <==> c.schema.Timed(item.table)
  {
    if c.schema.Timed(item.table) then Some(Saturate(item.now - c.schema.tables[item.table].idWindow.value)) else None
  }

  // ------------------------------------------------------------ ordered clock validation

  /** The table's floor when ordered validation reaches request `i`. */
  function FloorAt(c: Catalog, requests: seq<Request>, i: nat, name: string): (r: Option<int>)
    requires i <= |requests|
  {
    if i == 0 then Lookup(c.floors, name)
    else
      var floor := FloorAt(c, requests, i - 1, name);
      if requests[i - 1].Good? && requests[i - 1].item.table == name then NextFloor(c, floor, requests[i - 1])
          else floor
  }

  function NextFloor(c: Catalog, floor: Option<int>, request: Request): (r: Option<int>)
    requires request.Good?
  {
    match request.verdict
    case Settled(ok) => if ok then MaxOf(floor, ClockFloor(c, request.item)) else floor
    case Undecided =>
      var retry := RetryAt(c, floor, request.item);
      if retry.Retry? && retry.floor.Some? then retry.floor else floor
  }

  lemma {:induction false} FloorSame(c: Catalog, a: seq<Request>, b: seq<Request>, i: nat, name: string)
    requires i <= |a| && i <= |b| && a[..i] == b[..i]
    ensures FloorAt(c, a, i, name) == FloorAt(c, b, i, name)
  {
    hide NextFloor;
    if i > 0 {
      assert a[..i - 1] == a[..i][..i - 1] && a[i - 1] == a[..i][i - 1] && b[i - 1] == b[..i][i - 1];
      FloorSame(c, a, b, i - 1, name);
    }
  }

  /** An unknown table or an existing receipt is answered from durable state. */
  predicate Known(c: Catalog, item: Item) {
    item.table !in c.schema.tables || ReceiptFor(c, item).Some?
  }

  ghost predicate Resolved(c: Catalog, requests: seq<Request>) {
    forall i :: 0 <= i < |requests| && requests[i].Good? && requests[i].verdict.Undecided? ==>
        !Known(c, requests[i].item)
  }

  /** What the durable prepass makes of request `i`, given the verdicts before it. */
  ghost predicate ResolvedAt(c: Catalog, requests: seq<Request>, out: seq<Request>, i: nat)
    requires i < |requests| == |out|
  {
    match requests[i]
    case Bad => out[i] == Bad
    case Good(item, Settled(_)) => out[i] == requests[i]
    case Good(item, Undecided) =>
      out[i] == Good(item,
                     if Known(c, item) then Settled(RetryAt(c, FloorAt(c, out, i, item.table), item).Retry?)
                         else Undecided)
  }

  predicate Mentions(requests: seq<Request>, name: string) {
    exists i :: 0 <= i < |requests| && requests[i].Good? && requests[i].item.table == name
  }

  /** The working floors agree with ordered validation on every table the group mentions. */
  ghost predicate Tracks(c: Catalog, requests: seq<Request>, i: nat, floors: map<string, int>)
    requires i <= |requests|
  {
    forall name :: Mentions(requests, name) && c.schema.Timed(name) ==>
        Lookup(floors, name) == FloorAt(c, requests, i, name)
  }

  /** Move the working floors past a request. */
  function Advance(c: Catalog, floors: map<string, int>, request: Request): (r: map<string, int>) {
    if request.Bad? then floors
    else
      var next := NextFloor(c, Lookup(floors, request.item.table), request);
      if c.schema.Timed(request.item.table) && next.Some? then floors[request.item.table := next.value] else floors
  }

  lemma RetryIgnores(c: Catalog, a: Option<int>, b: Option<int>, item: Item)
    requires c.schema.Timed(item.table) ==> a == b
    ensures RetryAt(c, a, item) == RetryAt(c, b, item)
  {
  }

  lemma NextRises(c: Catalog, floor: Option<int>, request: Request)
    requires request.Good? && floor.Some?
    ensures NextFloor(c, floor, request).Some? && floor.value <= NextFloor(c, floor, request).value
  {
  }

  lemma TracksNext(c: Catalog, requests: seq<Request>, i: nat, floors: map<string, int>)
    requires i < |requests| && Tracks(c, requests, i, floors)
    ensures Tracks(c, requests, i + 1, Advance(c, floors, requests[i]))
  {
    hide NextFloor;
    if requests[i].Good? {
      var name := requests[i].item.table;
      assert Mentions(requests, name);
      if c.schema.Timed(name) && name in floors {
        NextRises(c, Lookup(floors, name), requests[i]);
      }
    }
  }

  lemma TracksSame(c: Catalog, a: seq<Request>, b: seq<Request>, i: nat, floors: map<string, int>)
    requires i <= |a| == |b| && a[..i] == b[..i] && Tracks(c, a, i, floors)
    requires forall name :: Mentions(b, name) ==> Mentions(a, name)
    ensures Tracks(c, b, i, floors)
  {
    hide Mentions;
    forall name ensures FloorAt(c, a, i, name) == FloorAt(c, b, i, name) {
      FloorSame(c, a, b, i, name);
    }
  }

  lemma MentionsSame(requests: seq<Request>, i: nat, verdict: Verdict, name: string)
    requires i < |requests| && requests[i].Good?
    ensures Mentions(requests[i := requests[i].(verdict := verdict)], name) ==> Mentions(requests, name)
  {
  }

  /** The durable prepass over a group: it decides exactly the requests durable state can answer. */
  method ResolveGroupDurable(c: Catalog, requests: seq<Request>) returns (out: seq<Request>)
    ensures |out| == |requests| && Resolved(c, out)
    ensures forall i :: 0 <= i < |requests| ==> ResolvedAt(c, requests, out, i)
  {
    hide Tracks, RetryAt, NextFloor, FloorAt, Mentions;
    out := requests;
    var floors := map name | name in c.floors && Mentions(requests, name) :: c.floors[name];
    TracksStart(c, requests, floors);
    for i := 0 to |requests|
      invariant |out| == |requests| && out[i..] == requests[i..]
      invariant Tracks(c, out, i, floors)
      invariant forall j :: 0 <= j < i ==> ResolvedAt(c, requests, out, j)
    {
      ghost var was := out;
      assert out[i] == out[i..][0] == requests[i..][0] == requests[i];
      match requests[i] {
        case Bad =>
        case Good(item, Settled(_)) =>
        case Good(item, Undecided) =>
          if Known(c, item) {
            var retry := RetryAt(c, Lookup(floors, item.table), item);
            RetryHere(c, out, i, floors);
            out := out[i := Good(item, Settled(retry.Retry?))];
            forall name ensures Mentions(out, name) ==> Mentions(was, name) {
              MentionsSame(was, i, Settled(retry.Retry?), name);
            }
            TracksSame(c, was, out, i, floors);
          }
      }
      forall j | 0 <= j <= i ensures ResolvedAt(c, requests, out, j) {
        if requests[j].Good? {
          assert was[..j] == out[..j];
          FloorSame(c, was, out, j, requests[j].item.table);
        }
        assert j < i ==> ResolvedAt(c, requests, was, j);
      }
      TracksNext(c, out, i, floors);
      floors := Advance(c, floors, out[i]);
      assert out[i + 1..] == was[i..][1..] == requests[i..][1..] == requests[i + 1..];
    }
    forall i | 0 <= i < |out| && out[i].Good? && out[i].verdict.Undecided? ensures !Known(c, out[i].item) {
      assert ResolvedAt(c, requests, out, i);
    }
  }

  lemma TracksStart(c: Catalog, requests: seq<Request>, floors: map<string, int>)
    requires forall name :: name in floors <==> name in c.floors && Mentions(requests, name)
    requires forall name <- floors :: floors[name] == c.floors[name]
    ensures Tracks(c, requests, 0, floors)
  {
    hide Mentions;
  }

  lemma RetryHere(c: Catalog, requests: seq<Request>, i: nat, floors: map<string, int>)
    requires i < |requests| && requests[i].Good? && Tracks(c, requests, i, floors)
    ensures var item := requests[i].item;
            RetryAt(c, Lookup(floors, item.table), item) == RetryAt(c, FloorAt(c, requests, i, item.table), item)
  {
    hide RetryAt, FloorAt;
    var item := requests[i].item;
    assert Mentions(requests, item.table);
    RetryIgnores(c, Lookup(floors, item.table), FloorAt(c, requests, i, item.table), item);
  }

  // ------------------------------------------------------------ ceilings and duplicate clocks

  /** A new request that passes ordered clock validation. */
  predicate Passes(c: Catalog, requests: seq<Request>, i: nat)
    requires i < |requests|
  {
    && requests[i].Good? && requests[i].verdict.Undecided?
    && var retry := RetryAt(c, FloorAt(c, requests, i, requests[i].item.table), requests[i].item);
       retry.Retry? && retry.duplicate.None?
  }

  /** A refused retry whose durable receipt is still valid on its own clock and the live floor. */
  predicate StillValid(c: Catalog, request: Request) {
    && request.Good? && request.verdict == Settled(false)
    && var retry := RetryAt(c, Lookup(c.floors, request.item.table), request.item);
       retry.Retry? && retry.duplicate.Some?
  }

  /** A request the checkpoint must leave room for. */
  predicate Protected(c: Catalog, requests: seq<Request>, i: nat)
    requires i < |requests|
  {
    requests[i].Good? && c.schema.Timed(requests[i].item.table)
        && (Passes(c, requests, i) || StillValid(c, requests[i]))
  }

  function Ceiling(c: Catalog, requests: seq<Request>, n: nat, name: string): (r: Option<int>)
    requires n <= |requests|
  {
    if n == 0 then None
    else
      var rest := Ceiling(c, requests, n - 1, name);
      if Protected(c, requests, n - 1) && requests[n - 1].item.table == name
      then MinOf(rest, c.schema.issued(requests[n - 1].item.id)) else rest
  }

  /** The latest clock of a confirmed duplicate. */
  function DuplicateClock(c: Catalog, requests: seq<Request>, n: nat, name: string): (r: Option<int>)
    requires n <= |requests|
  {
    if n == 0 then None
    else
      var rest := DuplicateClock(c, requests, n - 1, name);
      if requests[n - 1].Good? && requests[n - 1].verdict == Settled(true) && requests[n - 1].item.table == name
      then MaxOf(rest, ClockFloor(c, requests[n - 1].item)) else rest
  }

  /** The live floor, raised to confirmed duplicates' clocks but to no protected request's issue time. */
  function CheckpointFloor(c: Catalog, requests: seq<Request>, name: string): (r: Option<int>) {
    var clock := DuplicateClock(c, requests, |requests|, name);
    if clock.None? then Lookup(c.floors, name)
    else MaxOf(Lookup(c.floors, name), MinOf(clock, Ceiling(c, requests, |requests|, name)))
  }

  ghost predicate CeilingsAre(c: Catalog, requests: seq<Request>, n: nat, m: map<string, int>)
    requires n <= |requests|
  {
    forall name :: Lookup(m, name) == Ceiling(c, requests, n, name)
  }

  ghost predicate ClocksAre(c: Catalog, requests: seq<Request>, n: nat, m: map<string, int>)
    requires n <= |requests|
  {
    forall name :: Lookup(m, name) == DuplicateClock(c, requests, n, name)
  }

  lemma ProtectedIssued(c: Catalog, requests: seq<Request>, i: nat)
    requires i < |requests| && Protected(c, requests, i)
    ensures c.schema.issued(requests[i].item.id).Some?
  {
  }

  function Put(m: map<string, int>, name: string, v: Option<int>): (r: map<string, int>) {
    if v.Some? then m[name := v.value] else m
  }

  lemma CeilingNext(c: Catalog, requests: seq<Request>, i: nat, m: map<string, int>)
    requires i < |requests| && CeilingsAre(c, requests, i, m)
    ensures !Protected(c, requests, i) ==> CeilingsAre(c, requests, i + 1, m)
    ensures Protected(c, requests, i) ==>
      var name := requests[i].item.table;
      CeilingsAre(c, requests, i + 1, Put(m, name, MinOf(Lookup(m, name), c.schema.issued(requests[i].item.id))))
  {
    hide Passes, StillValid;
    if Protected(c, requests, i) {
      ProtectedIssued(c, requests, i);
      var name := requests[i].item.table;
      assert Lookup(m, name) == Ceiling(c, requests, i, name);
      var next := Put(m, name, MinOf(Lookup(m, name), c.schema.issued(requests[i].item.id)));
      forall other ensures Lookup(next, other) == Ceiling(c, requests, i + 1, other) {
        assert Lookup(m, other) == Ceiling(c, requests, i, other);
      }
    }
  }

  lemma ClockNext(c: Catalog, requests: seq<Request>, i: nat, m: map<string, int>)
    requires i < |requests| && ClocksAre(c, requests, i, m)
    ensures !(requests[i].Good? && requests[i].verdict == Settled(true)) ==> ClocksAre(c, requests, i + 1, m)
    ensures requests[i].Good? && requests[i].verdict == Settled(true) ==>
      var name := requests[i].item.table;
      ClocksAre(c, requests, i + 1, Put(m, name, MaxOf(Lookup(m, name), ClockFloor(c, requests[i].item))))
  {
    hide ClockFloor;
    if requests[i].Good? && requests[i].verdict == Settled(true) {
      var name := requests[i].item.table;
      assert Lookup(m, name) == DuplicateClock(c, requests, i, name);
      var next := Put(m, name, MaxOf(Lookup(m, name), ClockFloor(c, requests[i].item)));
      forall other ensures Lookup(next, other) == DuplicateClock(c, requests, i + 1, other) {
        assert Lookup(m, other) == DuplicateClock(c, requests, i, other);
      }
    }
  }

  /** The floors to persist for the timed tables of a group; `None` stands for a table without one. */
  method GroupCheckpointFloors(c: Catalog, requests: seq<Request>) returns (r: map<string, Option<int>>)
    ensures forall name :: name in r <==> Mentions(requests, name) && c.schema.Timed(name)
    ensures forall name <- r :: r[name] == CheckpointFloor(c, requests, name)
  {
    hide Tracks, RetryAt, FloorAt, NextFloor, Ceiling, DuplicateClock, ClockFloor, CeilingsAre, ClocksAre,
      CheckpointFloor, MinOf, MaxOf, Mentions, Put;
    var simulated := map name | name in c.floors && Mentions(requests, name) :: c.floors[name];
    var ceilings: map<string, int>, clocks: map<string, int> := map[], map[];
    TracksStart(c, requests, simulated);
    NothingYet(c, requests);
    for i := 0 to |requests|
      invariant Tracks(c, requests, i, simulated)
      invariant CeilingsAre(c, requests, i, ceilings) && ClocksAre(c, requests, i, clocks)
    {
      CeilingNext(c, requests, i, ceilings);
      ClockNext(c, requests, i, clocks);
      TracksNext(c, requests, i, simulated);
      if requests[i].Good? {
        var item := requests[i].item;
        RetryHere(c, requests, i, simulated);
        if requests[i].verdict.Settled? {
          if requests[i].verdict.ok {
            clocks := Put(clocks, item.table, MaxOf(Lookup(clocks, item.table), ClockFloor(c, item)));
          } else if c.schema.Timed(item.table) {
            var retry := RetryAt(c, Lookup(c.floors, item.table), item);
            if retry.Retry? && retry.duplicate.Some? {
              ceilings := Put(ceilings, item.table, MinOf(Lookup(ceilings, item.table), c.schema.issued(item.id)));
            }
          }
        } else {
          var retry := RetryAt(c, Lookup(simulated, item.table), item);
          if retry.Retry? && retry.duplicate.None? && c.schema.Timed(item.table) {
            ceilings := Put(ceilings, item.table, MinOf(Lookup(ceilings, item.table), c.schema.issued(item.id)));
          }
        }
      }
      simulated := Advance(c, simulated, requests[i]);
    }
    var tables := set i | 0 <= i < |requests| && requests[i].Good? && c.schema.Timed(requests[i].item.table) ::
        requests[i].item.table;
    forall name ensures name in tables <==> Mentions(requests, name) && c.schema.Timed(name) {
      TablesAre(c, requests, tables, name);
    }
    forall name ensures CheckpointFloor(c, requests, name) ==
      if name !in clocks then Lookup(c.floors, name)
      else MaxOf(Lookup(c.floors, name), MinOf(Lookup(clocks, name), Lookup(ceilings, name)))
    {
      FloorsAre(c, requests, ceilings, clocks, name);
    }
    r := map name | name in tables ::
           if name !in clocks then Lookup(c.floors, name)
           else MaxOf(Lookup(c.floors, name), MinOf(Lookup(clocks, name), Lookup(ceilings, name)));
  }

  lemma TablesAre(c: Catalog, requests: seq<Request>, tables: set<string>, name: string)
    requires tables == set i | 0 <= i < |requests| && requests[i].Good? && c.schema.Timed(requests[i].item.table) ::
      requests[i].item.table
    ensures name in tables <==> Mentions(requests, name) && c.schema.Timed(name)
  {
  }

  lemma NothingYet(c: Catalog, requests: seq<Request>)
    ensures CeilingsAre(c, requests, 0, map[]) && ClocksAre(c, requests, 0, map[])
  {
  }

  lemma FloorsAre(c: Catalog, requests: seq<Request>, ceilings: map<string, int>, clocks: map<string, int>,
                  name: string)
    requires CeilingsAre(c, requests, |requests|, ceilings) && ClocksAre(c, requests, |requests|, clocks)
    ensures CheckpointFloor(c, requests, name) ==
      if name !in clocks then Lookup(c.floors, name)
      else MaxOf(Lookup(c.floors, name), MinOf(Lookup(clocks, name), Lookup(ceilings, name)))
  {
    hide Ceiling, DuplicateClock, MinOf, MaxOf;
    assert Lookup(ceilings, name) == Ceiling(c, requests, |requests|, name);
    assert Lookup(clocks, name) == DuplicateClock(c, requests, |requests|, name);
  }

  // ------------------------------------------------------------ what the checkpoint leaves possible

  /** A checkpoint never lowers a live floor. */
  lemma NeverLowered(c: Catalog, requests: seq<Request>, name: string)
    ensures name in c.floors ==>
      CheckpointFloor(c, requests, name).Some? && c.floors[name] <= CheckpointFloor(c, requests, name).value
  {
    hide Ceiling, DuplicateClock;
  }

  lemma {:induction false} FloorRises(c: Catalog, requests: seq<Request>, i: nat, name: string)
    requires i <= |requests| && name in c.floors
    ensures FloorAt(c, requests, i, name).Some? && c.floors[name] <= FloorAt(c, requests, i, name).value
  {
    hide NextFloor;
    if i > 0 {
      FloorRises(c, requests, i - 1, name);
      if requests[i - 1].Good? {
        NextRises(c, FloorAt(c, requests, i - 1, name), requests[i - 1]);
      }
    }
  }

  /** A timed request that validation lets through was issued at or after the floor it met. */
  lemma IssuedAbove(c: Catalog, floor: Option<int>, item: Item)
    requires c.schema.Timed(item.table) && RetryAt(c, floor, item).Retry?
    ensures c.schema.issued(item.id).Some? && AtMostOf(floor, c.schema.issued(item.id).value)
  {
  }

  lemma {:induction false} CeilingBounds(c: Catalog, requests: seq<Request>, n: nat, i: nat)
    requires i < n <= |requests| && Protected(c, requests, i) && c.schema.issued(requests[i].item.id).Some?
    ensures var ceiling := Ceiling(c, requests, n, requests[i].item.table);
            ceiling.Some? && ceiling.value <= c.schema.issued(requests[i].item.id).value
  {
    hide Protected;
    if i < n - 1 {
      CeilingBounds(c, requests, n - 1, i);
    }
  }

  /** Every protected request was issued at or after the floor the checkpoint persists for its table. */
  lemma ProtectedAbove(c: Catalog, requests: seq<Request>, i: nat)
    requires i < |requests| && Protected(c, requests, i)
    ensures c.schema.issued(requests[i].item.id).Some?
    ensures AtMostOf(CheckpointFloor(c, requests, requests[i].item.table), c.schema.issued(requests[i].item.id).value)
  {
    hide FloorAt, Ceiling, DuplicateClock, RetryAt;
    var item := requests[i].item;
    if Passes(c, requests, i) {
      IssuedAbove(c, FloorAt(c, requests, i, item.table), item);
      if item.table in c.floors {
        FloorRises(c, requests, i, item.table);
      }
    } else {
      IssuedAbove(c, Lookup(c.floors, item.table), item);
    }
    CeilingBounds(c, requests, |requests|, i);
  }

  /** The receipts a checkpoint keeps for a table. */
  function Retained(schema: Schema, name: string, floor: Option<int>, receipts: map<string, Receipt>):
    (r: map<string, Receipt>)
  {
    if !schema.Timed(name) then receipts
    else
      map id | id in receipts && receipts[id].issued.Some? && AtMostOf(floor, receipts[id].issued.value) :: receipts[id]
  }

  /** The catalog once the checkpoint has published these floors and dropped the receipts below them. */
  ghost predicate Checkpointed(c: Catalog, requests: seq<Request>, after: Catalog) {
    && after.schema == c.schema
    && (forall name :: Lookup(after.floors, name) == CheckpointFloor(c, requests, name))
    && after.receipts.Keys == c.receipts.Keys
    && (forall name :: name in c.receipts ==>
          after.receipts[name] == Retained(c.schema, name, CheckpointFloor(c, requests, name), c.receipts[name]))
  }

  lemma NoNewReceipt(c: Catalog, requests: seq<Request>, after: Catalog, item: Item)
    requires Checkpointed(c, requests, after)
    ensures ReceiptFor(c, item).None? ==> ReceiptFor(after, item).None?
    ensures !c.schema.Timed(item.table) ==> ReceiptFor(after, item) == ReceiptFor(c, item)
  {
    hide CheckpointFloor;
  }

  /** A timed request that passes under `low` was issued at or after `extra` too. */
  predicate Clears(c: Catalog, low: Option<int>, extra: Option<int>, item: Item) {
    RetryAt(c, low, item).Retry? && c.schema.Timed(item.table) ==>
      c.schema.issued(item.id).Some? && AtMostOf(extra, c.schema.issued(item.id).value)
  }

  /** A new request meets the same verdict under a higher floor it was issued after. */
  lemma SameVerdict(c: Catalog, after: Catalog, low: Option<int>, extra: Option<int>, item: Item)
    requires after.schema == c.schema && ReceiptFor(c, item).None? && ReceiptFor(after, item).None?
    requires Clears(c, low, extra, item)
    ensures
      var here, there := RetryAt(c, low, item), RetryAt(after, MaxOf(low, extra), item);
      && (there.Retry? <==> here.Retry?)
      && (here.Retry? ==> here.duplicate.None? && there.duplicate.None?)
      && (here.Retry? ==> (here.floor.Some? <==> c.schema.Timed(item.table)))
      && (here.Retry? ==> there.floor == if here.floor.Some? then MaxOf(here.floor, extra) else None)
  {
  }

  /** Ordered validation after the checkpoint meets the same floors, raised by what was persisted. */
  lemma {:induction false} FloorsAfter(c: Catalog, requests: seq<Request>, after: Catalog, i: nat, name: string)
    requires i <= |requests| && Resolved(c, requests) && Checkpointed(c, requests, after)
    ensures FloorAt(after, requests, i, name) == MaxOf(FloorAt(c, requests, i, name),
                                                       CheckpointFloor(c, requests, name))
  {
    hide RetryAt, Checkpointed, CheckpointFloor;
    if i == 0 {
      StartsAfter(c, requests, after, name);
    } else {
      FloorsAfter(c, requests, after, i - 1, name);
      if requests[i - 1].Good? && requests[i - 1].item.table == name {
        NextAfter(c, requests, after, i - 1);
      }
    }
  }

  lemma StartsAfter(c: Catalog, requests: seq<Request>, after: Catalog, name: string)
    requires Checkpointed(c, requests, after)
    ensures Lookup(after.floors, name) == MaxOf(Lookup(c.floors, name), CheckpointFloor(c, requests, name))
  {
    hide CheckpointFloor;
    NeverLowered(c, requests, name);
  }

  /** A pending request has no receipt on either side and clears the persisted floor. */
  lemma PendingClears(c: Catalog, requests: seq<Request>, after: Catalog, i: nat)
    requires i < |requests| && requests[i].Good? && requests[i].verdict.Undecided?
    requires Resolved(c, requests) && Checkpointed(c, requests, after)
    ensures
      var item, low := requests[i].item, FloorAt(c, requests, i, requests[i].item.table);
      var extra := CheckpointFloor(c, requests, item.table);
      ReceiptFor(c, item).None? && ReceiptFor(after, item).None? && after.schema == c.schema
          && Clears(c, low, extra, item)
  {
    hide CheckpointFloor, RetryAt, FloorAt, ReceiptFor;
    var item := requests[i].item;
    NoNewReceipt(c, requests, after, item);
    var low := FloorAt(c, requests, i, item.table);
    if RetryAt(c, low, item).Retry? && c.schema.Timed(item.table) {
      NewMeansNone(c, low, item);
      ProtectedAbove(c, requests, i);
    }
  }

  lemma NewMeansNone(c: Catalog, floor: Option<int>, item: Item)
    requires ReceiptFor(c, item).None? && RetryAt(c, floor, item).Retry?
    ensures RetryAt(c, floor, item).duplicate.None?
  {
  }

  lemma NextAfter(c: Catalog, requests: seq<Request>, after: Catalog, i: nat)
    requires i < |requests| && requests[i].Good? && Resolved(c, requests) && Checkpointed(c, requests, after)
    ensures
      var low := FloorAt(c, requests, i, requests[i].item.table);
      var extra := CheckpointFloor(c, requests, requests[i].item.table);
      NextFloor(after, MaxOf(low, extra), requests[i]) == MaxOf(NextFloor(c, low, requests[i]), extra)
  {
    hide CheckpointFloor, RetryAt, FloorAt, ReceiptFor;
    var item, low := requests[i].item, FloorAt(c, requests, i, requests[i].item.table);
    var extra := CheckpointFloor(c, requests, item.table);
    if requests[i].verdict.Undecided? {
      PendingClears(c, requests, after, i);
      SameVerdict(c, after, low, extra, item);
    }
  }

  /**
   * Persisting the checkpoint's floors in the middle of a group refuses no pending request and admits
   * none: each new request passes ordered validation after the checkpoint exactly when it did before.
   */
  lemma PendingUnaffected(c: Catalog, requests: seq<Request>, after: Catalog, i: nat)
    requires i < |requests| && Resolved(c, requests) && Checkpointed(c, requests, after)
    ensures Passes(after, requests, i) <==> Passes(c, requests, i)
  {
    hide CheckpointFloor, RetryAt, FloorAt, ReceiptFor, Checkpointed, Resolved;
    if requests[i].Good? && requests[i].verdict.Undecided? {
      var item, low := requests[i].item, FloorAt(c, requests, i, requests[i].item.table);
      FloorsAfter(c, requests, after, i, item.table);
      PendingClears(c, requests, after, i);
      SameVerdict(c, after, low, CheckpointFloor(c, requests, item.table), item);
    }
  }

  /** A refused retry that was still valid on its own keeps its receipt and its answer. */
  lemma AnswerKept(c: Catalog, requests: seq<Request>, after: Catalog, i: nat)
    requires i < |requests| && Checkpointed(c, requests, after) && StillValid(c, requests[i])
    requires c.schema.Timed(requests[i].item.table) && ReceiptFor(c, requests[i].item).Some?
    requires ReceiptFor(c, requests[i].item).value.issued == c.schema.issued(requests[i].item.id)
    ensures ReceiptFor(after, requests[i].item) == ReceiptFor(c, requests[i].item)
    ensures StillValid(after, requests[i])
  {
    hide CheckpointFloor;
    ProtectedAbove(c, requests, i);
    var name := requests[i].item.table;
    assert Lookup(after.floors, name) == CheckpointFloor(c, requests, name);
  }
}
