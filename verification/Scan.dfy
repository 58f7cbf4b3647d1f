/** Partitioning checkpointed rows into segments, and scanning hot rows and segments with pruning. */
module Scan {
  import opened Common
  import opened Rollup
  import Order

  /** A segment file: its placement, its time range and its rows. */
  datatype Piece = Piece(shard: nat, window: int, minTime: int, maxTime: int, rows: seq<Stored>)

  datatype Place = Place(shard: nat, window: int)

  /** The table's placement rules: shard count, window width and the shard hash. */
  datatype Layout = Layout(shards: nat, window: int, shardFor: (string, string, nat) -> nat) {
    function PlaceOf(s: Stored): (r: Place)
      requires window > 0
    {
      Place(shardFor(s.row.tenant, s.row.series, shards), WindowStart(s.row.time, window))
    }
  }

  // ------------------------------------------------------------ the order of rows

  /** Tenant, series, time, sequence, ordinal. */
  predicate Precedes(a: Stored, b: Stored) {
    || Order.Less(a.row.tenant, b.row.tenant)
    || (a.row.tenant == b.row.tenant && Order.Less(a.row.series, b.row.series))
    || (a.row.tenant == b.row.tenant && a.row.series == b.row.series && Before(MarkOf(a), MarkOf(b)))
  }

  lemma PrecedesTransitive(a: Stored, b: Stored, c: Stored)
    requires !Precedes(b, a) && !Precedes(c, b)
    ensures !Precedes(c, a)
  {
    hide Order.Less;
    Compare(a.row.tenant, b.row.tenant);
    Compare(b.row.tenant, c.row.tenant);
    Compare(a.row.tenant, c.row.tenant);
    Compare(a.row.series, b.row.series);
    Compare(b.row.series, c.row.series);
    Compare(a.row.series, c.row.series);
    if Order.Less(a.row.tenant, b.row.tenant) && Order.Less(b.row.tenant, c.row.tenant) {
      Order.Transitive(a.row.tenant, b.row.tenant, c.row.tenant);
    }
    if Order.Less(a.row.series, b.row.series) && Order.Less(b.row.series, c.row.series) {
      Order.Transitive(a.row.series, b.row.series, c.row.series);
    }
  }

  lemma Compare(a: string, b: string)
    ensures (Order.Less(a, b) && !Order.Less(b, a) && a != b) || (Order.Less(b, a) && !Order.Less(a, b) && a != b)
         || (a == b && !Order.Less(a, b) && !Order.Less(b, a))
  {
    hide Order.Less;
    Order.Total(a, b);
    Order.Irreflexive(a);
    if Order.Less(a, b) { Order.NotBoth(a, b); }
    if Order.Less(b, a) { Order.NotBoth(b, a); }
  }

  /** Two rows neither of which precedes the other share their mark. */
  lemma Incomparable(a: Stored, b: Stored)
    requires !Precedes(a, b) && !Precedes(b, a)
    ensures MarkOf(a) == MarkOf(b)
  {
    hide Order.Less;
    Compare(a.row.tenant, b.row.tenant);
    Compare(a.row.series, b.row.series);
  }

  predicate Ascending(rows: seq<Stored>) {
    forall i :: 0 < i < |rows| ==> !Precedes(rows[i], rows[i - 1])
  }

  lemma {:induction false} AscendingPair(rows: seq<Stored>, i: nat, j: nat)
    requires Ascending(rows) && i <= j < |rows|
    ensures i < j ==> !Precedes(rows[j], rows[i])
  {
    hide Precedes;
    if i + 1 < j {
      AscendingPair(rows, i, j - 1);
      PrecedesTransitive(rows[i], rows[j - 1], rows[j]);
    }
  }

  /** No two different rows share a mark. */
  ghost predicate Named(rows: multiset<Stored>) {
    forall s, t :: s in rows && t in rows && MarkOf(s) == MarkOf(t) ==> s == t
  }

  /** A set of rows has one ascending listing. */
  lemma {:induction false} OneListing(a: seq<Stored>, b: seq<Stored>)
    requires Ascending(a) && Ascending(b) && multiset(a) == multiset(b) && Named(multiset(a))
    ensures a == b
  {
    hide Precedes, Named, Ascending;
    assert |a| == |multiset(a)| == |multiset(b)| == |b|;
    if a != [] {
      var n := |a| - 1;
      SameLast(a, b);
      Init(a);
      Init(b);
      OneListing(a[..n], b[..n]);
    }
  }

  lemma Init(a: seq<Stored>)
    requires a != []
    ensures multiset(a[..|a| - 1]) == multiset(a) - multiset{a[|a| - 1]} && a == a[..|a| - 1] + [a[|a| - 1]]
    ensures Ascending(a) ==> Ascending(a[..|a| - 1])
    ensures Named(multiset(a)) ==> Named(multiset(a[..|a| - 1]))
  {
    hide Precedes;
    var n := |a| - 1;
    WithoutRows(a, n);
    assert a[..n] + a[n + 1..] == a[..n];
  }

  lemma NamedPart(part: multiset<Stored>, rows: multiset<Stored>)
    requires Named(rows) && forall s :: s in part ==> s in rows
    ensures Named(part)
  {
  }

  lemma SameLast(a: seq<Stored>, b: seq<Stored>)
    requires Ascending(a) && Ascending(b) && multiset(a) == multiset(b) && Named(multiset(a)) && |a| == |b| > 0
    ensures a[|a| - 1] == b[|b| - 1]
  {
    hide Precedes, Ascending;
    var n := |a| - 1;
    var i := Find(a, b, n);
    var j := Find(b, a, n);
    AscendingPair(b, i, n);
    AscendingPair(a, j, n);
    if i != n && j != n {
      Incomparable(a[n], b[n]);
      assert b[n] in multiset(b);
    }
  }

  // ------------------------------------------------------------ sorting

  function Insert(rows: seq<Stored>, s: Stored): (r: seq<Stored>)
    ensures |r| == |rows| + 1 && multiset(r) == multiset(rows) + multiset{s}
  {
    if rows == [] then [s]
    else
      var n := |rows| - 1;
      assert rows == rows[..n] + [rows[n]];
      if Precedes(s, rows[n]) then Insert(rows[..n], s) + [rows[n]] else rows + [s]
  }

  lemma {:induction false} InsertAscending(rows: seq<Stored>, s: Stored)
    requires Ascending(rows)
    ensures Ascending(Insert(rows, s))
    ensures Insert(rows, s)[|rows|] == s || (rows != [] && Insert(rows, s)[|rows|] == rows[|rows| - 1])
  {
    hide Precedes;
    if rows != [] {
      var n := |rows| - 1;
      if Precedes(s, rows[n]) {
        InsertAscending(rows[..n], s);
        Asymmetric(s, rows[n]);
        AscendingSnoc(Insert(rows[..n], s), rows[n]);
      } else {
        AscendingSnoc(rows, s);
      }
    }
  }

  lemma AscendingSnoc(rows: seq<Stored>, s: Stored)
    requires Ascending(rows) && (rows != [] ==> !Precedes(s, rows[|rows| - 1]))
    ensures Ascending(rows + [s])
  {
    hide Precedes;
  }

  lemma Asymmetric(a: Stored, b: Stored)
    requires Precedes(a, b)
    ensures !Precedes(b, a)
  {
    hide Order.Less;
    Compare(a.row.tenant, b.row.tenant);
    Compare(a.row.series, b.row.series);
  }

  method SortRows(rows: seq<Stored>) returns (out: seq<Stored>)
    ensures Ascending(out) && multiset(out) == multiset(rows)
  {
    hide Precedes, Insert;
    out := [];
    for i := 0 to |rows|
      invariant Ascending(out) && multiset(out) == multiset(rows[..i])
    {
      InsertAscending(out, rows[i]);
      assert rows[..i + 1] == rows[..i] + [rows[i]];
      out := Insert(out, rows[i]);
    }
    assert rows[..|rows|] == rows;
  }

  // ------------------------------------------------------------ partitioning

  /** A segment holds ascending rows of one place, and its time range is theirs. */
  ghost predicate PieceOk(layout: Layout, limit: nat, p: Piece)
    requires layout.window > 0
  {
    && 0 < |p.rows| <= limit && Ascending(p.rows)
    && (forall i :: 0 <= i < |p.rows| ==> layout.PlaceOf(p.rows[i]) == Place(p.shard, p.window))
    && (forall i :: 0 <= i < |p.rows| ==> p.minTime <= p.rows[i].row.time <= p.maxTime)
    && (exists i :: 0 <= i < |p.rows| && p.rows[i].row.time == p.minTime)
    && (exists i :: 0 <= i < |p.rows| && p.rows[i].row.time == p.maxTime)
  }

  function Rows(pieces: seq<Piece>): (r: seq<Stored>) {
    if pieces == [] then [] else Rows(pieces[..|pieces| - 1]) + pieces[|pieces| - 1].rows
  }

  lemma RowsSnoc(pieces: seq<Piece>, p: Piece)
    ensures Rows(pieces + [p]) == Rows(pieces) + p.rows
  {
    assert (pieces + [p])[..|pieces|] == pieces;
  }

  method TimeRange(rows: seq<Stored>) returns (lo: int, hi: int)
    requires rows != []
    ensures forall i :: 0 <= i < |rows| ==> lo <= rows[i].row.time <= hi
    ensures exists i :: 0 <= i < |rows| && rows[i].row.time == lo
    ensures exists i :: 0 <= i < |rows| && rows[i].row.time == hi
  {
    lo, hi := rows[0].row.time, rows[0].row.time;
    for k := 1 to |rows|
      invariant forall i :: 0 <= i < k ==> lo <= rows[i].row.time <= hi
      invariant exists i :: 0 <= i < k && rows[i].row.time == lo
      invariant exists i :: 0 <= i < k && rows[i].row.time == hi
    {
      var time := rows[k].row.time;
      if time < lo { lo := time; }
      if time > hi { hi := time; }
    }
  }

  /** Cut one partition's sorted rows into segments of at most `limit` rows. */
  method Chunk(layout: Layout, limit: nat, place: Place, rows: seq<Stored>) returns (out: seq<Piece>)
    requires layout.window > 0 && limit > 0 && Ascending(rows)
    requires forall i :: 0 <= i < |rows| ==> layout.PlaceOf(rows[i]) == place
    ensures Rows(out) == rows && forall k :: 0 <= k < |out| ==> PieceOk(layout, limit, out[k])
  {
    hide Precedes, PieceOk, WindowStart;
    out := [];
    var at := 0;
    assert rows[..0] == [];
    while at < |rows|
      invariant at <= |rows| && Rows(out) == rows[..at]
      invariant forall k :: 0 <= k < |out| ==> PieceOk(layout, limit, out[k])
    {
      var end := if at + limit < |rows| then at + limit else |rows|;
      var chunk := rows[at..end];
      var lo, hi := TimeRange(chunk);
      var piece := Piece(place.shard, place.window, lo, hi, chunk);
      ChunkOk(layout, limit, place, rows, at, end, piece);
      RowsSnoc(out, piece);
      assert rows[..end] == rows[..at] + chunk;
      out := out + [piece];
      at := end;
    }
    assert rows[..|rows|] == rows;
  }

  lemma ChunkOk(layout: Layout, limit: nat, place: Place, rows: seq<Stored>, at: nat, end: nat, p: Piece)
    requires layout.window > 0 && at < end <= |rows| && end - at <= limit && Ascending(rows)
    requires forall i :: 0 <= i < |rows| ==> layout.PlaceOf(rows[i]) == place
    requires p.rows == rows[at..end] && p.shard == place.shard && p.window == place.window
    requires forall i :: 0 <= i < |p.rows| ==> p.minTime <= p.rows[i].row.time <= p.maxTime
    requires exists i :: 0 <= i < |p.rows| && p.rows[i].row.time == p.minTime
    requires exists i :: 0 <= i < |p.rows| && p.rows[i].row.time == p.maxTime
    ensures PieceOk(layout, limit, p)
  {
    hide Precedes, WindowStart;
    assert forall i :: 0 <= i < |p.rows| ==> p.rows[i] == rows[at + i];
    forall i | 0 < i < |p.rows| ensures !Precedes(p.rows[i], p.rows[i - 1]) {
      assert !Precedes(rows[at + i], rows[at + i - 1]);
    }
  }

  /** How often a row occurs in the partitions: only ever in its own. */
  ghost function CountIn(layout: Layout, parts: map<Place, seq<Stored>>, s: Stored): (r: nat)
    requires layout.window > 0
  {
    if layout.PlaceOf(s) in parts then multiset(parts[layout.PlaceOf(s)])[s] else 0
  }

  ghost predicate Placed(layout: Layout, parts: map<Place, seq<Stored>>)
    requires layout.window > 0
  {
    forall place <- parts :: forall i :: 0 <= i < |parts[place]| ==> layout.PlaceOf(parts[place][i]) == place
  }

  method Partition(layout: Layout, rows: seq<Stored>) returns (parts: map<Place, seq<Stored>>)
    requires layout.window > 0
    ensures Placed(layout, parts)
    ensures forall s :: CountIn(layout, parts, s) == multiset(rows)[s]
  {
    hide WindowStart;
    parts := map[];
    for i := 0 to |rows|
      invariant Placed(layout, parts)
      invariant forall s :: CountIn(layout, parts, s) == multiset(rows[..i])[s]
    {
      var place := layout.PlaceOf(rows[i]);
      var was := if place in parts then parts[place] else [];
      assert rows[..i + 1] == rows[..i] + [rows[i]];
      assert multiset(was + [rows[i]]) == multiset(was) + multiset{rows[i]};
      ghost var before := parts;
      parts := parts[place := was + [rows[i]]];
      forall s ensures CountIn(layout, parts, s) == multiset(rows[..i + 1])[s] {
        assert CountIn(layout, before, s) == multiset(rows[..i])[s];
        assert place !in before ==> CountIn(layout, before, rows[i]) == 0;
      }
    }
    assert rows[..|rows|] == rows;
  }

  /** Partition by shard and window, sort, and cut: no row is lost, copied or misplaced. */
  method WritePartitioned(layout: Layout, limit: nat, rows: seq<Stored>) returns (r: Option<seq<Piece>>)
    requires layout.window > 0 && limit > 0
    ensures r.None? <==> exists i :: 0 <= i < |rows| && WindowStart(rows[i].row.time, layout.window) < I64_MIN
    ensures r.Some? ==> multiset(Rows(r.value)) == multiset(rows)
    ensures r.Some? ==> forall k :: 0 <= k < |r.value| ==> PieceOk(layout, limit, r.value[k])
  {
    hide PieceOk, Ascending, WindowStart, Rows, CountIn;
    for i := 0 to |rows|
      invariant forall k :: 0 <= k < i ==> WindowStart(rows[k].row.time, layout.window) >= I64_MIN
    {
      if WindowStart(rows[i].row.time, layout.window) < I64_MIN {
        return None;
      }
    }
    var parts := Partition(layout, rows);
    var out: seq<Piece> := [];
    assert Rows(out) == [] by { NoRows(); }
    while parts.Keys != {}
      invariant Placed(layout, parts) && Balanced(layout, parts, Rows(out), rows)
      invariant forall k :: 0 <= k < |out| ==> PieceOk(layout, limit, out[k])
      decreases |parts.Keys|
    {
      var place :| place in parts;
      var sorted := SortRows(parts[place]);
      SamePlace(layout, place, parts[place], sorted);
      var pieces := Chunk(layout, limit, place, sorted);
      RowsConcat(out, pieces);
      BalancedNext(layout, parts, place, sorted, Rows(out), rows);
      out := out + pieces;
      parts := parts - {place};
    }
    AllWritten(layout, parts, Rows(out), rows);
    r := Some(out);
  }

  lemma {:induction false} RowsConcat(a: seq<Piece>, b: seq<Piece>)
    ensures Rows(a + b) == Rows(a) + Rows(b)
  {
    if b == [] {
      assert a + b == a;
    } else {
      var n := |b| - 1;
      RowsConcat(a, b[..n]);
      assert (a + b)[..|a| + n] == a + b[..n] && (a + b)[|a| + n] == b[n];
      assert Rows(a) + (Rows(b[..n]) + b[n].rows) == Rows(a) + Rows(b[..n]) + b[n].rows;
    }
  }

  lemma SamePlace(layout: Layout, place: Place, rows: seq<Stored>, sorted: seq<Stored>)
    requires layout.window > 0 && multiset(sorted) == multiset(rows)
    requires forall i :: 0 <= i < |rows| ==> layout.PlaceOf(rows[i]) == place
    ensures forall i :: 0 <= i < |sorted| ==> layout.PlaceOf(sorted[i]) == place
  {
    forall i | 0 <= i < |sorted| ensures layout.PlaceOf(sorted[i]) == place {
      var j := Find(sorted, rows, i);
    }
  }

  lemma Misplaced(layout: Layout, place: Place, rows: seq<Stored>, s: Stored)
    requires layout.window > 0 && forall i :: 0 <= i < |rows| ==> layout.PlaceOf(rows[i]) == place
    ensures layout.PlaceOf(s) != place ==> multiset(rows)[s] == 0
  {
    if s in multiset(rows) {
      assert s in rows;
    }
  }

  /** Every row is either still in its partition or already written. */
  ghost predicate Balanced(layout: Layout, parts: map<Place, seq<Stored>>, out: seq<Stored>, rows: seq<Stored>)
    requires layout.window > 0
  {
    forall s :: CountIn(layout, parts, s) + multiset(out)[s] == multiset(rows)[s]
  }

  lemma BalancedNext(layout: Layout, parts: map<Place, seq<Stored>>, place: Place, sorted: seq<Stored>,
                     out: seq<Stored>, rows: seq<Stored>)
    requires layout.window > 0 && place in parts && Balanced(layout, parts, out, rows)
    requires multiset(sorted) == multiset(parts[place])
    requires forall i :: 0 <= i < |sorted| ==> layout.PlaceOf(sorted[i]) == place
    ensures Balanced(layout, parts - {place}, out + sorted, rows)
  {
    hide WindowStart;
    forall s ensures CountIn(layout, parts - {place}, s) + multiset(out + sorted)[s] == multiset(rows)[s] {
      assert CountIn(layout, parts, s) + multiset(out)[s] == multiset(rows)[s];
      Misplaced(layout, place, sorted, s);
    }
  }

  lemma NoRows()
    ensures Rows([]) == []
  {
  }

  lemma AllWritten(layout: Layout, parts: map<Place, seq<Stored>>, out: seq<Stored>, rows: seq<Stored>)
    requires layout.window > 0 && parts.Keys == {} && Balanced(layout, parts, out, rows)
    ensures multiset(out) == multiset(rows)
  {
    forall s ensures multiset(out)[s] == multiset(rows)[s] {
      assert CountIn(layout, parts, s) == 0;
    }
  }

  // ------------------------------------------------------------ scanning

  datatype Query = Query(start: Option<int>, end: Option<int>, tenant: Option<string>, series: Option<string>)

  /** The scan starts no earlier than the raw retention cutoff. */
  function Since(q: Query, cutoff: Option<int>): (r: Option<int>) {
    if q.start.Some? && cutoff.Some? then Some(if q.start.value > cutoff.value then q.start.value else cutoff.value)
    else if q.start.Some? then q.start
    else cutoff
  }

  predicate Matches(q: Query, cutoff: Option<int>, s: Stored) {
    && (Since(q, cutoff).Some? ==> s.row.time >= Since(q, cutoff).value)
    && (q.end.Some? ==> s.row.time < q.end.value)
    && (q.tenant.Some? ==> s.row.tenant == q.tenant.value)
    && (q.series.Some? ==> s.row.series == q.series.value)
  }

  function Filter(q: Query, cutoff: Option<int>, rows: seq<Stored>): (r: seq<Stored>) {
    if rows == [] then []
    else Filter(q, cutoff, rows[..|rows| - 1]) + if Matches(q, cutoff, rows[|rows| - 1]) then [rows[|rows| - 1]] else []
  }

  /** What pruning keeps: time ranges that touch the query, and the shard of a fully named series. */
  predicate Touches(layout: Layout, q: Query, cutoff: Option<int>, p: Piece) {
    && !(Since(q, cutoff).Some? && p.maxTime < Since(q, cutoff).value)
    && !(q.end.Some? && p.minTime >= q.end.value)
    && (q.tenant.Some? && q.series.Some? ==> p.shard == layout.shardFor(q.tenant.value, q.series.value, layout.shards))
  }

  /** A pruned segment holds no matching row. */
  lemma {:induction false} PrunedIsEmpty(layout: Layout, limit: nat, q: Query, cutoff: Option<int>, p: Piece,
                                         rows: seq<Stored>)
    requires layout.window > 0 && PieceOk(layout, limit, p) && !Touches(layout, q, cutoff, p)
    requires forall i :: 0 <= i < |rows| ==> rows[i] in p.rows
    ensures Filter(q, cutoff, rows) == []
  {
    if rows != [] {
      var n := |rows| - 1;
      PrunedIsEmpty(layout, limit, q, cutoff, p, rows[..n]);
      var i :| 0 <= i < |p.rows| && p.rows[i] == rows[n];
      assert layout.PlaceOf(p.rows[i]) == Place(p.shard, p.window);
    }
  }

  lemma {:induction false} FilterConcat(q: Query, cutoff: Option<int>, a: seq<Stored>, b: seq<Stored>)
    ensures Filter(q, cutoff, a + b) == Filter(q, cutoff, a) + Filter(q, cutoff, b)
  {
    if b == [] {
      assert a + b == a;
    } else {
      var n := |b| - 1;
      FilterConcat(q, cutoff, a, b[..n]);
      assert (a + b)[..|a| + n] == a + b[..n];
    }
  }

  /** Estimated bytes of an answer. */
  function Weight(size: Stored -> nat, rows: seq<Stored>): (r: nat) {
    if rows == [] then 0 else Weight(size, rows[..|rows| - 1]) + size(rows[|rows| - 1])
  }

  lemma {:induction false} WeightConcat(size: Stored -> nat, a: seq<Stored>, b: seq<Stored>)
    ensures Weight(size, a + b) == Weight(size, a) + Weight(size, b)
  {
    if b == [] {
      assert a + b == a;
    } else {
      var n := |b| - 1;
      WeightConcat(size, a, b[..n]);
      assert (a + b)[..|a| + n] == a + b[..n];
    }
  }

  /** Add the matching rows to an answer unless it would exceed the output budget. */
  method PushMatching(q: Query, cutoff: Option<int>, size: Stored -> nat, budget: nat, rows: seq<Stored>,
                      sofar: seq<Stored>, had: nat)
    returns (ok: bool, out: seq<Stored>, bytes: nat)
    requires had == Weight(size, sofar) && had <= budget
    ensures ok <==> Weight(size, sofar + Filter(q, cutoff, rows)) <= budget
    ensures ok ==> out == sofar + Filter(q, cutoff, rows) && bytes == Weight(size, out)
  {
    hide Matches;
    out, bytes := sofar, had;
    for i := 0 to |rows|
      invariant out == sofar + Filter(q, cutoff, rows[..i]) && bytes == Weight(size, out) && bytes <= budget
    {
      assert rows[..i + 1][..i] == rows[..i];
      if Matches(q, cutoff, rows[i]) {
        var next := bytes + size(rows[i]);
        assert (out + [rows[i]])[..|out|] == out;
        if next > budget {
          TooMuch(q, cutoff, size, rows, i, sofar);
          ok := false;
          return;
        }
        out, bytes := out + [rows[i]], next;
      }
    }
    assert rows[..|rows|] == rows;
    ok := true;
  }

  lemma TooMuch(q: Query, cutoff: Option<int>, size: Stored -> nat, rows: seq<Stored>, i: nat, sofar: seq<Stored>)
    requires i < |rows| && Matches(q, cutoff, rows[i])
    ensures Weight(size, sofar + Filter(q, cutoff, rows[..i]))
      + size(rows[i]) <= Weight(size, sofar + Filter(q, cutoff, rows))
  {
    hide Matches, Weight;
    var first := Filter(q, cutoff, rows[..i]);
    assert rows[..i + 1][..i] == rows[..i] && rows == rows[..i + 1] + rows[i + 1..];
    FilterConcat(q, cutoff, rows[..i + 1], rows[i + 1..]);
    var rest := Filter(q, cutoff, rows[i + 1..]);
    assert Filter(q, cutoff, rows) == first + [rows[i]] + rest;
    assert sofar + Filter(q, cutoff, rows) == (sofar + first) + [rows[i]] + rest;
    WeightConcat(size, (sofar + first) + [rows[i]], rest);
    WeightConcat(size, sofar + first, [rows[i]]);
    WeightOne(size, rows[i]);
  }

  lemma WeightOne(size: Stored -> nat, s: Stored)
    ensures Weight(size, [s]) == size(s)
  {
    assert [s][..0] == [];
  }

  lemma ScanStart(hot: seq<Stored>, pieces: seq<Piece>)
    ensures hot + Rows(pieces[..0]) == hot
  {
  }

  lemma ScanNext(q: Query, cutoff: Option<int>, hot: seq<Stored>, pieces: seq<Piece>, k: nat)
    requires k < |pieces|
    ensures Filter(q, cutoff, hot + Rows(pieces[..k + 1]))
         == Filter(q, cutoff, hot + Rows(pieces[..k])) + Filter(q, cutoff, pieces[k].rows)
  {
    hide Filter, Rows;
    assert pieces[..k + 1] == pieces[..k] + [pieces[k]];
    RowsSnoc(pieces[..k], pieces[k]);
    assert hot + (Rows(pieces[..k]) + pieces[k].rows) == (hot + Rows(pieces[..k])) + pieces[k].rows;
    FilterConcat(q, cutoff, hot + Rows(pieces[..k]), pieces[k].rows);
  }

  /** What the first `k` segments and the resident rows contribute is part of the whole answer. */
  lemma {:induction false} ScanPart(q: Query, cutoff: Option<int>, size: Stored -> nat, hot: seq<Stored>,
                                    pieces: seq<Piece>, k: nat)
    requires k <= |pieces|
    ensures Weight(size, Filter(q, cutoff, hot + Rows(pieces[..k]))) <= Weight(size,
      Filter(q, cutoff, hot + Rows(pieces)))
    decreases |pieces| - k
  {
    hide Weight, Filter, Rows;
    if k < |pieces| {
      ScanNext(q, cutoff, hot, pieces, k);
      WeightConcat(size, Filter(q, cutoff, hot + Rows(pieces[..k])), Filter(q, cutoff, pieces[k].rows));
      ScanPart(q, cutoff, size, hot, pieces, k + 1);
    } else {
      assert pieces[..k] == pieces;
    }
  }

  /**
   * Scan the resident rows and the segments pruning leaves. Within the output budget, the answer lists
   * exactly the retained rows that match, in tenant, series, time, sequence and ordinal order.
   */
  method ScanTable(layout: Layout, limit: nat, size: Stored -> nat, budget: nat, hot: seq<Stored>, pieces: seq<Piece>,
                   cutoff: Option<int>, q: Query)
    returns (r: Option<seq<Stored>>)
    requires layout.window > 0 && forall k :: 0 <= k < |pieces| ==> PieceOk(layout, limit, pieces[k])
    ensures r.None? <==> (q.start.Some? && q.end.Some? && q.start.value > q.end.value)
                         || Weight(size, Filter(q, cutoff, hot + Rows(pieces))) > budget
    ensures r.Some? ==> Ascending(r.value) && multiset(r.value) == multiset(Filter(q, cutoff, hot + Rows(pieces)))
  {
    hide PieceOk, Precedes, Matches, Touches, Filter, Rows, Ascending, Weight;
    if q.start.Some? && q.end.Some? && q.start.value > q.end.value {
      return None;
    }
    assert Weight(size, []) == 0 by { WeightNone(size); }
    var ok, out, bytes := PushMatching(q, cutoff, size, budget, hot, [], 0);
    ScanStart(hot, pieces);
    assert [] + Filter(q, cutoff, hot) == Filter(q, cutoff, hot);
    ScanPart(q, cutoff, size, hot, pieces, 0);
    if !ok {
      return None;
    }
    for k := 0 to |pieces|
      invariant out == Filter(q, cutoff, hot + Rows(pieces[..k])) && bytes == Weight(size, out) && bytes <= budget
    {
      var p := pieces[k];
      ScanNext(q, cutoff, hot, pieces, k);
      if Touches(layout, q, cutoff, p) {
        ok, out, bytes := PushMatching(q, cutoff, size, budget, p.rows, out, bytes);
        if !ok {
          ScanPart(q, cutoff, size, hot, pieces, k + 1);
          return None;
        }
      } else {
        PrunedIsEmpty(layout, limit, q, cutoff, p, p.rows);
      }
    }
    assert pieces[..|pieces|] == pieces;
    var sorted := SortRows(out);
    r := Some(sorted);
  }

  lemma WeightNone(size: Stored -> nat)
    ensures Weight(size, []) == 0
  {
  }

  // ------------------------------------------------------------ checkpoints and scans

  lemma {:induction false} FilterCount(q: Query, cutoff: Option<int>, rows: seq<Stored>, s: Stored)
    ensures multiset(Filter(q, cutoff, rows))[s] == if Matches(q, cutoff, s) then multiset(rows)[s] else 0
  {
    hide Matches;
    if rows != [] {
      var n := |rows| - 1;
      var rest, last := rows[..n], rows[n];
      var kept := Filter(q, cutoff, rest);
      FilterCount(q, cutoff, rest, s);
      assert rows == rest + [last];
      assert Filter(q, cutoff, rows) == if Matches(q, cutoff, last) then kept + [last] else kept;
      CountSnoc(rest, last, s);
      CountSnoc(kept, last, s);
    }
  }

  lemma NamedByMarks(rows: seq<Stored>)
    requires DistinctMarks(rows)
    ensures Named(multiset(rows))
  {
    forall s, t | s in multiset(rows) && t in multiset(rows) && MarkOf(s) == MarkOf(t) ensures s == t {
      var i :| 0 <= i < |rows| && rows[i] == s;
      var j :| 0 <= j < |rows| && rows[j] == t;
    }
  }

  /**
   * Moving a prefix of the resident rows into segments changes no answer: any two ascending listings of
   * the matching rows, one taken before and one after, are equal.
   */
  lemma CheckpointKeepsScans(q: Query, cutoff: Option<int>, prefix: seq<Stored>, tail: seq<Stored>,
                             pieces: seq<Piece>, written: seq<Piece>, before: seq<Stored>, after: seq<Stored>)
    requires DistinctMarks(prefix + tail + Rows(pieces)) && multiset(Rows(written)) == multiset(prefix)
    requires Ascending(before) && multiset(before) == multiset(Filter(q, cutoff, prefix + tail + Rows(pieces)))
    requires Ascending(after) && multiset(after) == multiset(Filter(q, cutoff, tail + Rows(pieces + written)))
    ensures before == after
  {
    hide Filter, Rows, DistinctMarks, Ascending, Matches;
    var all := prefix + tail + Rows(pieces);
    RowsConcat(pieces, written);
    forall s ensures multiset(before)[s] == multiset(after)[s] {
      FilterCount(q, cutoff, all, s);
      FilterCount(q, cutoff, tail + (Rows(pieces) + Rows(written)), s);
    }
    assert multiset(before) == multiset(after);
    NamedByMarks(all);
    forall s | s in multiset(before) ensures s in multiset(all) {
      FilterCount(q, cutoff, all, s);
    }
    NamedPart(multiset(before), multiset(all));
    OneListing(before, after);
  }
}
