/**
 * The four-stage ingestion pipeline on the ring: validate, prepare a group, commit it, complete.
 * Each action is one worker's turn on its next sequences, or one admission. A stage sees a sequence
 * once its predecessor finished it, in order, with the published event (IngestRing.InOrder).
 */
module Ingest {
  import opened Common

  const GROUP_OVERHEAD: nat := 128

  datatype Limits = Limits(capacity: nat, maxPending: nat, maxRows: nat, maxBytes: nat, maxRequests: nat) {
    predicate Valid() {
      capacity > 0 && maxRows > 0 && maxBytes > GROUP_OVERHEAD && maxRequests > 0
    }
  }

  /** What was admitted: a write with its size, or a flush barrier. */
  datatype Event = Event(write: bool, rows: nat, bytes: nat)

  /** The cell an event carries through the stages; a write's result is its receipt's sequence, or a failure. */
  datatype Payload =
    | Input | Validated | Head(count: nat) | Member | Written(result: Option<nat>)
    | Open | Marked(sequence: nat)
    | Empty

  datatype Span = Span(first: nat, count: nat) {
    function End(): (r: int) {
      first - 1 + count
    }
  }

  datatype Stats = Stats(submitted: nat, pending: int, pendingBytes: int, completed: nat, succeeded: nat, failed: nat)

  datatype Reply = Reply(sequence: nat, completed: nat, succeeded: nat, failed: nat)

  /**
   * `events[q - 1]` is sequence `q`; the four stages have finished `v`, `p`, `c` and `d`. `decided` holds
   * what commit gave each write, `answers` and `replies` what its caller was told.
   */
  datatype State = State(
    events: seq<Event>, cells: seq<Payload>, v: nat, p: nat, c: nat, d: nat,
    validated: nat, published: nat, awaiting: nat, entries: set<nat>, stats: Stats,
    decided: map<nat, Option<nat>>, answers: map<nat, Option<nat>>, replies: map<nat, Reply>,
    groups: seq<Span>, frontier: nat, closed: bool, broken: bool)

  /** `frontier` is the engine's committed sequence once a commit has published. */
  datatype Action =
    | Enqueue(rows: nat, bytes: nat) | Flush | Close
    | Validate | NoteValidated | Prepare | Commit(results: seq<Option<nat>>, frontier: nat) | NotePublished | Complete

  function Init(): (s: State) {
    State([], [], 0, 0, 0, 0, 0, 0, 0, {}, Stats(0, 0, 0, 0, 0, 0), map[], map[], map[], [], 0, false, false)
  }

  // ------------------------------------------------------------ group formation

  function RowSum(events: seq<Event>, first: nat, n: nat): (r: nat)
    requires 1 <= first && first - 1 + n <= |events|
  {
    if n == 0 then 0 else RowSum(events, first, n - 1) + events[first - 1 + n - 1].rows
  }

  function ByteSum(events: seq<Event>, first: nat, n: nat): (r: nat)
    requires 1 <= first && first - 1 + n <= |events|
  {
    if n == 0 then GROUP_OVERHEAD else ByteSum(events, first, n - 1) + events[first - 1 + n - 1].bytes
  }

  /** A group of writes within every limit. */
  ghost predicate GroupOk(limits: Limits, events: seq<Event>, g: Span) {
    && 1 <= g.first && 1 <= g.count && g.End() <= |events|
    && (forall i :: g.first - 1 <= i < g.End() ==> events[i].write)
    && g.count <= limits.maxRequests
    && RowSum(events, g.first, g.count) <= limits.maxRows && ByteSum(events, g.first, g.count) <= limits.maxBytes
  }

  /** The admitted sizes: a write fits a group of its own. */
  ghost predicate Sized(limits: Limits, events: seq<Event>) {
    forall i :: 0 <= i < |events| && events[i].write ==>
      events[i].rows <= limits.maxRows && events[i].bytes + GROUP_OVERHEAD <= limits.maxBytes
  }

  /** A group that another event would not extend: a barrier, an exceeded limit, or a limit already met. */
  ghost predicate Full(limits: Limits, events: seq<Event>, g: Span)
    requires GroupOk(limits, events, g) && g.End() < |events|
  {
    var next := events[g.End()];
    || !next.write
    || RowSum(events, g.first, g.count) + next.rows > limits.maxRows
    || ByteSum(events, g.first, g.count) + next.bytes > limits.maxBytes
    || g.count == limits.maxRequests
    || RowSum(events, g.first, g.count) == limits.maxRows
    || ByteSum(events, g.first, g.count) == limits.maxBytes
  }

  /** The scan goes on: the next sequence is validated, a write, and fits, and no limit is met yet. */
  predicate Takes(limits: Limits, events: seq<Event>, first: nat, validated: nat, n: nat)
    requires 1 <= first && validated <= |events| && first - 1 + n <= |events|
  {
    && first + n <= validated
    && events[first - 1 + n].write
    && RowSum(events, first, n) + events[first - 1 + n].rows <= limits.maxRows
    && ByteSum(events, first, n) + events[first - 1 + n].bytes <= limits.maxBytes
    && (n > 0 ==> n != limits.maxRequests)
    && (n > 0 ==> RowSum(events, first, n) != limits.maxRows && ByteSum(events, first, n) != limits.maxBytes)
  }

  function ScanFrom(limits: Limits, events: seq<Event>, first: nat, validated: nat, n: nat): (r: nat)
    requires 1 <= first && validated <= |events| && first - 1 + n <= |events|
    ensures n <= r && first - 1 + r <= |events|
    decreases |events| - n
  {
    if Takes(limits, events, first, validated, n) then ScanFrom(limits, events, first, validated, n + 1) else n
  }

  /** The group that starts at `first`: what the scan takes, and the first event alone at least. */
  function GroupCount(limits: Limits, events: seq<Event>, first: nat, validated: nat): (r: nat)
    requires 1 <= first <= |events| && validated <= |events|
    ensures r >= 1 && first - 1 + r <= |events|
  {
    if !events[first - 1].write then 1
    else
      var n := ScanFrom(limits, events, first, validated, 0);
      if n == 0 then 1 else n
  }

  /** The scan that forms a group, once its waiting is over. */
  method GroupLen(limits: Limits, events: seq<Event>, first: nat, validated: nat) returns (count: nat)
    requires 1 <= first <= |events| && validated <= |events|
    ensures count == GroupCount(limits, events, first, validated)
  {
    if !events[first - 1].write {
      return 1;
    }
    count := 0;
    var rows, bytes := 0, GROUP_OVERHEAD;
    while first + count <= validated
      invariant first - 1 + count <= |events|
      invariant rows == RowSum(events, first, count) && bytes == ByteSum(events, first, count)
      invariant ScanFrom(limits, events, first, validated, 0) == ScanFrom(limits, events, first, validated, count)
      invariant count > 0 ==> count != limits.maxRequests && rows != limits.maxRows && bytes != limits.maxBytes
      decreases validated - count
    {
      var event := events[first - 1 + count];
      if !event.write || rows + event.rows > limits.maxRows || bytes + event.bytes > limits.maxBytes {
        return if count == 0 then 1 else count;
      }
      SumNext(events, first, count);
      count, rows, bytes := count + 1, rows + event.rows, bytes + event.bytes;
      if count == limits.maxRequests || rows == limits.maxRows || bytes == limits.maxBytes {
        return;
      }
    }
    if count == 0 {
      count := 1;
    }
  }

  lemma {:induction false} ScanFormed(limits: Limits, events: seq<Event>, first: nat, validated: nat, n: nat)
    requires 1 <= first && validated <= |events| && first - 1 + n <= |events| && limits.Valid()
    requires n > 0 ==> GroupOk(limits, events, Span(first, n)) && first - 1 + n <= validated
    ensures var r := ScanFrom(limits, events, first, validated, n);
      r > 0 ==>
        && GroupOk(limits, events, Span(first, r)) && first - 1 + r <= validated
        && (first - 1 + r < validated ==> Full(limits, events, Span(first, r)))
    decreases |events| - n
  {
    hide RowSum, ByteSum;
    if Takes(limits, events, first, validated, n) {
      SumNext(events, first, n);
      ScanFormed(limits, events, first, validated, n + 1);
    }
  }

  /**
   * A group that starts at a write holds writes only, within every limit, and leaves no validated write
   * behind that would have fitted.
   */
  lemma GroupFormed(limits: Limits, events: seq<Event>, first: nat, validated: nat)
    requires limits.Valid() && Sized(limits, events) && 1 <= first <= |events| && validated <= |events|
    requires events[first - 1].write
    ensures var count := GroupCount(limits, events, first, validated);
      && GroupOk(limits, events, Span(first, count))
      && (count == 1 || first - 1 + count <= validated)
      && (first - 1 + count < validated ==> Full(limits, events, Span(first, count)))
  {
    hide RowSum, ByteSum, ScanFrom;
    NoSum(events, first);
    SumNext(events, first, 0);
    ScanFormed(limits, events, first, validated, 0);
    ScanStarts(limits, events, first, validated);
  }

  lemma ScanStarts(limits: Limits, events: seq<Event>, first: nat, validated: nat)
    requires 1 <= first && validated <= |events| && first - 1 <= |events|
    ensures ScanFrom(limits, events, first, validated, 0) == 0 ==> !Takes(limits, events, first, validated, 0)
  {
  }

  lemma NoSum(events: seq<Event>, first: nat)
    requires 1 <= first <= |events|
    ensures RowSum(events, first, 0) == 0 && ByteSum(events, first, 0) == GROUP_OVERHEAD
  {
  }

  lemma SumNext(events: seq<Event>, first: nat, n: nat)
    requires 1 <= first && first + n <= |events|
    ensures RowSum(events, first, n + 1) == RowSum(events, first, n) + events[first - 1 + n].rows
    ensures ByteSum(events, first, n + 1) == ByteSum(events, first, n) + events[first - 1 + n].bytes
  {
  }

  // ------------------------------------------------------------ steps

  /** How many ready events a coalescing delivery returns when it asks for `count`. */
  function Coalesced(limits: Limits, count: nat, ready: nat): (r: nat) {
    if count <= limits.capacity && count <= ready then count
    else if limits.capacity <= ready then limits.capacity
    else ready
  }

  predicate Shape(s: State) {
    && s.d <= s.c <= s.p <= s.v <= |s.events| == |s.cells|
    && s.validated <= s.v && s.published <= s.c && s.awaiting <= s.p
  }

  /** The engine's contract: one result per request of the group, and every receipt is committed. */
  ghost predicate Publishes(s: State, results: seq<Option<nat>>, frontier: nat)
    requires Shape(s) && s.c < s.p
  {
    && s.frontier <= frontier
    && (s.cells[s.c].Head? ==> |results| == s.cells[s.c].count)
    && (forall i :: 0 <= i < |results| && results[i].Some? ==> results[i].value <= frontier)
  }

  ghost predicate Enabled(limits: Limits, s: State, a: Action)
    requires Shape(s)
  {
    match a
    case Enqueue(rows, bytes) =>
      && !s.closed && |s.events| - s.d < limits.capacity
      && rows <= limits.maxRows && bytes + GROUP_OVERHEAD <= limits.maxBytes
      && s.stats.pendingBytes + bytes <= limits.maxPending
    case Flush => !s.closed && |s.events| - s.d < limits.capacity
    case Close => true
    case Validate => s.validated == s.v < |s.events|
    case NoteValidated => s.validated < s.v
    case Prepare => s.p < s.v && s.awaiting <= s.published
    case Commit(results, frontier) => s.published == s.c < s.p && Publishes(s, results, frontier)
    case NotePublished => s.published < s.c
    case Complete => s.d < s.c
  }

  ghost function Do(limits: Limits, s: State, a: Action): (t: State)
    requires Shape(s) && Enabled(limits, s, a)
  {
    match a
    case Enqueue(rows, bytes) =>
      Admit(s, Event(true, rows, bytes), Input).(stats := s.stats.(submitted := s.stats.submitted + 1,
        pending := s.stats.pending + 1, pendingBytes := s.stats.pendingBytes + bytes))
    case Flush => Admit(s, Event(false, 0, 0), Open)
    case Close => s.(closed := true)
    case Validate => DoValidate(s)
    case NoteValidated => s.(validated := s.v)
    case Prepare => DoPrepare(limits, s)
    case Commit(results, frontier) => DoCommit(limits, s, results, frontier)
    case NotePublished => s.(published := s.c)
    case Complete => DoComplete(s)
  }

  function Admit(s: State, event: Event, cell: Payload): (t: State) {
    s.(events := s.events + [event], cells := s.cells + [cell], entries := s.entries + {|s.events| + 1})
  }

  function DoValidate(s: State): (t: State)
    requires Shape(s) && s.v < |s.events|
  {
    var cell := s.cells[s.v];
    if cell.Input? then s.(cells := s.cells[s.v := Validated], v := s.v + 1)
    else if cell.Open? then s.(v := s.v + 1)
    else s.(broken := true)
  }

  /** The group's head owns the epoch; the other cells become members. */
  function Staged(cells: seq<Payload>, g: Span): (r: seq<Payload>)
    requires 1 <= g.first && 1 <= g.count && g.End() <= |cells|
    ensures |r| == |cells|
  {
    seq(|cells|, i requires 0 <= i < |cells| =>
      if i == g.first - 1 then Head(g.count) else if g.first - 1 < i < g.End() then Member else cells[i])
  }

  function DoPrepare(limits: Limits, s: State): (t: State)
    requires Shape(s) && s.p < s.v
  {
    var first := s.p + 1;
    if !s.events[s.p].write then
      if s.cells[s.p].Open? then s.(p := first) else s.(broken := true)
    else if first !in s.entries then s.(broken := true)
    else
      var g := Span(first, GroupCount(limits, s.events, first, s.validated));
      if Coalesced(limits, g.count, s.v - s.p) != g.count then s.(broken := true)
      else if exists i :: s.p <= i < g.End() && !s.cells[i].Validated? then s.(broken := true)
      else s.(cells := Staged(s.cells, g), p := s.p + g.count, awaiting := s.p + g.count, groups := s.groups + [g])
  }

  function Results(cells: seq<Payload>, at: nat, results: seq<Option<nat>>): (r: seq<Payload>)
    requires at + |results| <= |cells|
    ensures |r| == |cells|
  {
    seq(|cells|, i requires 0 <= i < |cells| => if at <= i < at + |results| then Written(results[i - at]) else cells[i])
  }

  /** What commit decided, with the results for the sequences after `at`. */
  function Decide(decided: map<nat, Option<nat>>, at: nat, results: seq<Option<nat>>): (r: map<nat, Option<nat>>) {
    decided + map q | at < q <= at + |results| :: ResultAt(results, at, q)
  }

  function ResultAt(results: seq<Option<nat>>, at: nat, q: nat): (r: Option<nat>)
    requires at < q <= at + |results|
  {
    results[q - at - 1]
  }

  function DoCommit(limits: Limits, s: State, results: seq<Option<nat>>, frontier: nat): (t: State)
    requires Shape(s) && s.c < s.p
  {
    var cell := s.cells[s.c];
    if !s.events[s.c].write then
      if cell.Open? then s.(cells := s.cells[s.c := Marked(s.frontier)], c := s.c + 1) else s.(broken := true)
    else if !cell.Head? then s.(broken := true)
    else if Coalesced(limits, cell.count, s.p - s.c) != cell.count then s.(broken := true)
    else if exists i :: s.c < i < s.c + cell.count && !s.cells[i].Member? then s.(broken := true)
    else if |results| != cell.count then s.(broken := true)
    else s.(cells := Results(s.cells, s.c, results), c := s.c + cell.count, decided := Decide(s.decided, s.c, results),
            frontier := frontier)
  }

  function Answered(stats: Stats, bytes: nat, result: Option<nat>): (r: Stats) {
    var less := stats.(pending := stats.pending - 1, pendingBytes := stats.pendingBytes - bytes,
                       completed := stats.completed + 1);
    if result.Some? then less.(succeeded := stats.succeeded + 1) else less.(failed := stats.failed + 1)
  }

  function DoComplete(s: State): (t: State)
    requires Shape(s) && s.d < |s.events|
  {
    var cell, q := s.cells[s.d], s.d + 1;
    var t := s.(cells := s.cells[s.d := Empty], entries := s.entries - {q}, d := q);
    if q !in s.entries then s.(broken := true)
    else if s.events[s.d].write && cell.Written? then
      t.(stats := Answered(s.stats, s.events[s.d].bytes, cell.result), answers := s.answers[q := cell.result])
    else if !s.events[s.d].write && cell.Marked? then
      t.(replies := s.replies[q := Reply(cell.sequence, s.stats.completed, s.stats.succeeded, s.stats.failed)])
    else s.(broken := true)
  }
}
