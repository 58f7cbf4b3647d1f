/** Incremental rollups: one aggregate per width, bucket and series, kept as rows arrive. */
module Rollup {
  import opened Common

  datatype Row = Row(time: int, tenant: string, series: string, tags: map<string, string>, value: real)

  /** A committed row: the record's sequence and the row's place among the group's accepted rows. */
  datatype Stored = Stored(row: Row, sequence: nat, ordinal: nat)

  /** The order in which `first` and `last` are decided. */
  datatype Mark = Mark(time: int, sequence: nat, ordinal: nat)

  datatype Key = Key(width: int, bucket: int, tenant: string, series: string, tags: map<string, string>)

  datatype Rollup = Rollup(count: nat, sum: real, min: real, max: real, first: real, last: real, firstAt: Mark,
                           lastAt: Mark)

  /** The rollup retention cutoff of a table, if it has one. */
  datatype Cut = Everything | From(at: int)

  const I64_MIN: int := -0x8000_0000_0000_0000
  const I64_MAX: int := 0x7fff_ffff_ffff_ffff

  predicate Before(a: Mark, b: Mark) {
    || a.time < b.time
    || (a.time == b.time && a.sequence < b.sequence)
    || (a.time == b.time && a.sequence == b.sequence && a.ordinal < b.ordinal)
  }

  function MarkOf(s: Stored): (r: Mark) {
    Mark(s.row.time, s.sequence, s.ordinal)
  }

  /** Start of the window holding `time`: Euclidean division, refused when it leaves the i64 range. */
  function WindowStart(time: int, width: int): (r: int)
    requires width > 0
    ensures r <= time < r + width
  {
    time / width * width
  }

  function KeyOf(s: Stored, width: int): (r: Key)
    requires width > 0
  {
    Key(width, WindowStart(s.row.time, width), s.row.tenant, s.row.series, s.row.tags)
  }

  function One(s: Stored): (r: Rollup) {
    var v := s.row.value;
    Rollup(1, v, v, v, v, v, MarkOf(s), MarkOf(s))
  }

  function Add(r: Rollup, s: Stored): (t: Rollup) {
    var v, at := s.row.value, MarkOf(s);
    Rollup(r.count + 1, r.sum + v, if v < r.min then v else r.min, if v > r.max then v else r.max,
           if Before(at, r.firstAt) then v else r.first, if Before(r.lastAt, at) then v else r.last,
           if Before(at, r.firstAt) then at else r.firstAt, if Before(r.lastAt, at) then at else r.lastAt)
  }

  // ------------------------------------------------------------ what one rollup says

  function Total(rows: seq<Stored>): (r: real) {
    if rows == [] then 0.0 else Total(rows[..|rows| - 1]) + rows[|rows| - 1].row.value
  }

  /** The rollup of a nonempty run of rows, in arrival order. */
  function Summary(rows: seq<Stored>): (r: Rollup)
    requires rows != []
  {
    var n := |rows| - 1;
    if n == 0 then One(rows[0]) else Add(Summary(rows[..n]), rows[n])
  }

  /** No two rows share a place in the history. */
  predicate DistinctMarks(rows: seq<Stored>) {
    forall i, j :: 0 <= i < j < |rows| ==> MarkOf(rows[i]) != MarkOf(rows[j])
  }

  ghost predicate Least(v: real, rows: seq<Stored>) {
    (exists i :: 0 <= i < |rows| && v == rows[i].row.value) && forall i :: 0 <= i < |rows| ==> v <= rows[i].row.value
  }

  ghost predicate Greatest(v: real, rows: seq<Stored>) {
    (exists i :: 0 <= i < |rows| && v == rows[i].row.value) && forall i :: 0 <= i < |rows| ==> rows[i].row.value <= v
  }

  ghost predicate Earliest(at: Mark, v: real, rows: seq<Stored>) {
    && (exists i :: 0 <= i < |rows| && at == MarkOf(rows[i]) && v == rows[i].row.value)
    && forall i :: 0 <= i < |rows| ==> !Before(MarkOf(rows[i]), at)
  }

  ghost predicate Latest(at: Mark, v: real, rows: seq<Stored>) {
    && (exists i :: 0 <= i < |rows| && at == MarkOf(rows[i]) && v == rows[i].row.value)
    && forall i :: 0 <= i < |rows| ==> !Before(at, MarkOf(rows[i]))
  }

  /** A rollup states count, sum, extremes and the earliest and latest row of `rows`. */
  ghost predicate Describes(r: Rollup, rows: seq<Stored>) {
    && r.count == |rows| && r.sum == Total(rows)
    && Least(r.min, rows) && Greatest(r.max, rows)
    && Earliest(r.firstAt, r.first, rows) && Latest(r.lastAt, r.last, rows)
  }

  lemma {:induction false} SummaryDescribes(rows: seq<Stored>)
    requires rows != []
    ensures Describes(Summary(rows), rows)
  {
    hide Least, Greatest, Earliest, Latest, Add;
    var n := |rows| - 1;
    if n == 0 {
      OneDescribes(rows[0]);
      assert rows == [rows[0]];
    } else {
      var init := rows[..n];
      SummaryDescribes(init);
      assert rows == init + [rows[n]];
      AddDescribes(Summary(init), init, rows[n]);
    }
  }

  lemma OneDescribes(s: Stored)
    ensures Describes(One(s), [s])
  {
    assert [s][..0] == [];
    assert [s][0] == s;
  }

  lemma AddDescribes(r: Rollup, rows: seq<Stored>, s: Stored)
    requires Describes(r, rows)
    ensures Describes(Add(r, s), rows + [s])
  {
    hide Least, Greatest, Earliest, Latest;
    var t := Add(r, s);
    assert (rows + [s])[..|rows|] == rows;
    AddLeast(r.min, rows, s);
    AddGreatest(r.max, rows, s);
    AddEarliest(r.firstAt, r.first, rows, s);
    AddLatest(r.lastAt, r.last, rows, s);
  }

  lemma AddLeast(v: real, rows: seq<Stored>, s: Stored)
    requires Least(v, rows)
    ensures Least(if s.row.value < v then s.row.value else v, rows + [s])
  {
    var i :| 0 <= i < |rows| && v == rows[i].row.value;
    assert (rows + [s])[i] == rows[i] && (rows + [s])[|rows|] == s;
  }

  lemma AddGreatest(v: real, rows: seq<Stored>, s: Stored)
    requires Greatest(v, rows)
    ensures Greatest(if s.row.value > v then s.row.value else v, rows + [s])
  {
    var i :| 0 <= i < |rows| && v == rows[i].row.value;
    assert (rows + [s])[i] == rows[i] && (rows + [s])[|rows|] == s;
  }

  lemma AddEarliest(at: Mark, v: real, rows: seq<Stored>, s: Stored)
    requires Earliest(at, v, rows)
    ensures if Before(MarkOf(s), at) then Earliest(MarkOf(s), s.row.value, rows + [s]) else Earliest(at, v, rows + [s])
  {
    var i :| 0 <= i < |rows| && at == MarkOf(rows[i]) && v == rows[i].row.value;
    assert (rows + [s])[i] == rows[i] && (rows + [s])[|rows|] == s;
  }

  lemma AddLatest(at: Mark, v: real, rows: seq<Stored>, s: Stored)
    requires Latest(at, v, rows)
    ensures if Before(at, MarkOf(s)) then Latest(MarkOf(s), s.row.value, rows + [s]) else Latest(at, v, rows + [s])
  {
    var i :| 0 <= i < |rows| && at == MarkOf(rows[i]) && v == rows[i].row.value;
    assert (rows + [s])[i] == rows[i] && (rows + [s])[|rows|] == s;
  }

  // ------------------------------------------------------------ order does not matter

  lemma WithoutRows(rows: seq<Stored>, i: nat)
    requires i < |rows|
    ensures multiset(rows[..i] + rows[i + 1..]) == multiset(rows) - multiset{rows[i]}
  {
    assert rows == rows[..i] + [rows[i]] + rows[i + 1..];
  }

  lemma {:induction false} WithoutTotal(rows: seq<Stored>, i: nat)
    requires i < |rows|
    ensures Total(rows) == Total(rows[..i] + rows[i + 1..]) + rows[i].row.value
  {
    var n := |rows| - 1;
    if i == n {
      assert rows[..i] + rows[i + 1..] == rows[..n];
    } else {
      WithoutTotal(rows[..n], i);
      assert rows[..n][..i] == rows[..i] && rows[..n][i + 1..] == rows[i + 1..n];
      var less := rows[..i] + rows[i + 1..];
      assert less[..|less| - 1] == rows[..i] + rows[i + 1..n];
    }
  }

  lemma {:induction false} TotalPermutes(a: seq<Stored>, b: seq<Stored>)
    requires multiset(a) == multiset(b)
    ensures Total(a) == Total(b) && |a| == |b|
  {
    assert |a| == |multiset(a)| == |multiset(b)| == |b|;
    if a != [] {
      var n := |a| - 1;
      var i := Find(a, b, n);
      WithoutRows(b, i);
      WithoutTotal(b, i);
      WithoutRows(a, n);
      assert a[..n] + a[n + 1..] == a[..n];
      TotalPermutes(a[..n], b[..i] + b[i + 1..]);
    }
  }

  /** At most one rollup describes a set of rows, in whatever order they are listed. */
  lemma DescribedOnce(r: Rollup, t: Rollup, a: seq<Stored>, b: seq<Stored>)
    requires Describes(r, a) && Describes(t, b) && multiset(a) == multiset(b) && DistinctMarks(a)
    ensures r == t
  {
    hide Least, Greatest, Earliest, Latest, DistinctMarks;
    TotalPermutes(a, b);
    SameLeast(r.min, t.min, a, b);
    SameGreatest(r.max, t.max, a, b);
    SameEarliest(r.firstAt, r.first, t.firstAt, t.first, a, b);
    SameLatest(r.lastAt, r.last, t.lastAt, t.last, a, b);
  }

  lemma Find(a: seq<Stored>, b: seq<Stored>, i: nat) returns (j: nat)
    requires multiset(a) == multiset(b) && i < |a|
    ensures j < |b| && b[j] == a[i]
  {
    assert a[i] in multiset(a);
    assert a[i] in b;
    j :| 0 <= j < |b| && b[j] == a[i];
  }

  lemma SameLeast(v: real, w: real, a: seq<Stored>, b: seq<Stored>)
    requires Least(v, a) && Least(w, b) && multiset(a) == multiset(b)
    ensures v == w
  {
    var i :| 0 <= i < |a| && v == a[i].row.value;
    var j :| 0 <= j < |b| && w == b[j].row.value;
    var x := Find(a, b, i);
    var y := Find(b, a, j);
  }

  lemma SameGreatest(v: real, w: real, a: seq<Stored>, b: seq<Stored>)
    requires Greatest(v, a) && Greatest(w, b) && multiset(a) == multiset(b)
    ensures v == w
  {
    var i :| 0 <= i < |a| && v == a[i].row.value;
    var j :| 0 <= j < |b| && w == b[j].row.value;
    var x := Find(a, b, i);
    var y := Find(b, a, j);
  }

  lemma SameEarliest(at: Mark, v: real, bt: Mark, w: real, a: seq<Stored>, b: seq<Stored>)
    requires Earliest(at, v, a) && Earliest(bt, w, b) && multiset(a) == multiset(b) && DistinctMarks(a)
    ensures at == bt && v == w
  {
    var i :| 0 <= i < |a| && at == MarkOf(a[i]) && v == a[i].row.value;
    var j :| 0 <= j < |b| && bt == MarkOf(b[j]) && w == b[j].row.value;
    var x := Find(a, b, i);
    var y := Find(b, a, j);
    assert !Before(MarkOf(b[x]), bt) && !Before(MarkOf(a[y]), at);
  }

  lemma SameLatest(at: Mark, v: real, bt: Mark, w: real, a: seq<Stored>, b: seq<Stored>)
    requires Latest(at, v, a) && Latest(bt, w, b) && multiset(a) == multiset(b) && DistinctMarks(a)
    ensures at == bt && v == w
  {
    var i :| 0 <= i < |a| && at == MarkOf(a[i]) && v == a[i].row.value;
    var j :| 0 <= j < |b| && bt == MarkOf(b[j]) && w == b[j].row.value;
    var x := Find(a, b, i);
    var y := Find(b, a, j);
    assert !Before(bt, MarkOf(b[x])) && !Before(at, MarkOf(a[y]));
  }

  // ------------------------------------------------------------ all rollups of a table

  /** Rows a width keeps: below the rollup cutoff whole buckets are no longer maintained. */
  predicate Kept(s: Stored, width: int, cutoff: Cut)
    requires width > 0
  {
    var end := WindowStart(s.row.time, width) + width;
    cutoff.Everything? || (if end > I64_MAX then I64_MAX else end) > cutoff.at
  }

  function AddAt(m: map<Key, Rollup>, s: Stored, width: int, cutoff: Cut): (r: map<Key, Rollup>)
    requires width > 0
  {
    var key := KeyOf(s, width);
    if !Kept(s, width, cutoff) then m
    else m[key := if key in m then Add(m[key], s) else One(s)]
  }

  predicate Widths(widths: seq<int>) {
    && (forall i :: 0 <= i < |widths| ==> widths[i] > 0)
    && (forall i, j :: 0 <= i < j < |widths| ==> widths[i] != widths[j])
  }

  function AddRow(m: map<Key, Rollup>, s: Stored, widths: seq<int>, cutoff: Cut): (r: map<Key, Rollup>)
    requires forall i :: 0 <= i < |widths| ==> widths[i] > 0
  {
    if widths == [] then m
    else AddAt(AddRow(m, s, widths[..|widths| - 1], cutoff), s, widths[|widths| - 1], cutoff)
  }

  function AddRows(m: map<Key, Rollup>, rows: seq<Stored>, widths: seq<int>, cutoff: Cut): (r: map<Key, Rollup>)
    requires forall i :: 0 <= i < |widths| ==> widths[i] > 0
  {
    if rows == [] then m
    else AddRow(AddRows(m, rows[..|rows| - 1], widths, cutoff), rows[|rows| - 1], widths, cutoff)
  }

  /** The rows that belong to a key. */
  function Members(rows: seq<Stored>, key: Key, cutoff: Cut): (r: seq<Stored>)
    requires key.width > 0
    ensures forall i :: 0 <= i < |r| ==> r[i] in rows
  {
    if rows == [] then []
    else
      var n := |rows| - 1;
      var rest := Members(rows[..n], key, cutoff);
      if KeyOf(rows[n], key.width) == key && Kept(rows[n], key.width, cutoff) then rest + [rows[n]] else rest
  }

  /** A key's entry after one more row. */
  lemma {:induction false} RowAt(m: map<Key, Rollup>, s: Stored, widths: seq<int>, cutoff: Cut, key: Key)
    requires Widths(widths) && key.width > 0
    ensures var t := AddRow(m, s, widths, cutoff);
            if key.width in widths && KeyOf(s, key.width) == key && Kept(s, key.width, cutoff)
            then key in t && t[key] == (if key in m then Add(m[key], s) else One(s))
            else (key in t <==> key in m) && (key in m ==> t[key] == m[key])
  {
    if widths != [] {
      var n := |widths| - 1;
      RowAt(m, s, widths[..n], cutoff, key);
      assert key.width in widths <==> key.width in widths[..n] || key.width == widths[n];
    }
  }

  /** Every rollup is the summary of its members, in arrival order. */
  lemma {:induction false} RowsAt(rows: seq<Stored>, widths: seq<int>, cutoff: Cut, key: Key)
    requires Widths(widths) && key.width > 0
    ensures var t, members := AddRows(map[], rows, widths, cutoff), Members(rows, key, cutoff);
            && (key in t <==> key.width in widths && members != [])
            && (key in t ==> t[key] == Summary(members))
  {
    hide AddRow, Add, One, Kept, KeyOf;
    if rows != [] {
      var n := |rows| - 1;
      RowsAt(rows[..n], widths, cutoff, key);
      RowAt(AddRows(map[], rows[..n], widths, cutoff), rows[n], widths, cutoff, key);
      var rest := Members(rows[..n], key, cutoff);
      assert (rest + [rows[n]])[..|rest|] == rest;
    }
  }

  lemma {:induction false} MembersPermute(a: seq<Stored>, b: seq<Stored>, key: Key, cutoff: Cut)
    requires key.width > 0 && multiset(a) == multiset(b)
    ensures multiset(Members(a, key, cutoff)) == multiset(Members(b, key, cutoff))
  {
    forall s ensures multiset(Members(a, key, cutoff))[s] == multiset(Members(b, key, cutoff))[s] {
      MemberCount(a, key, cutoff, s);
      MemberCount(b, key, cutoff, s);
    }
  }

  lemma {:induction false} MemberCount(rows: seq<Stored>, key: Key, cutoff: Cut, s: Stored)
    requires key.width > 0
    ensures multiset(Members(rows, key, cutoff))[s]
         == if KeyOf(s, key.width) == key && Kept(s, key.width, cutoff) then multiset(rows)[s] else 0
  {
    if rows != [] {
      var n := |rows| - 1;
      MemberCount(rows[..n], key, cutoff, s);
      assert rows == rows[..n] + [rows[n]];
    }
  }

  lemma {:induction false} MembersDistinct(rows: seq<Stored>, key: Key, cutoff: Cut)
    requires key.width > 0 && DistinctMarks(rows)
    ensures DistinctMarks(Members(rows, key, cutoff))
  {
    if rows != [] {
      var n := |rows| - 1;
      MembersDistinct(rows[..n], key, cutoff);
      var rest := Members(rows[..n], key, cutoff);
      forall i | 0 <= i < |rest| ensures MarkOf(rest[i]) != MarkOf(rows[n]) {
        assert rest[i] in rows[..n];
      }
    }
  }

  /** The rollups of a table depend only on which rows it holds, not on the order they arrived in. */
  lemma RollupsIgnoreOrder(a: seq<Stored>, b: seq<Stored>, widths: seq<int>, cutoff: Cut)
    requires Widths(widths) && multiset(a) == multiset(b) && DistinctMarks(a)
    ensures AddRows(map[], a, widths, cutoff) == AddRows(map[], b, widths, cutoff)
  {
    hide AddRows, Members, Summary, Describes, DistinctMarks;
    var x, y := AddRows(map[], a, widths, cutoff), AddRows(map[], b, widths, cutoff);
    forall key: Key ensures (key in x <==> key in y) && (key in x ==> x[key] == y[key]) {
      if key.width > 0 {
        RowsAt(a, widths, cutoff, key);
        RowsAt(b, widths, cutoff, key);
        MembersPermute(a, b, key, cutoff);
        var p, q := Members(a, key, cutoff), Members(b, key, cutoff);
        if p != [] && q != [] {
          MembersDistinct(a, key, cutoff);
          SummaryDescribes(p);
          SummaryDescribes(q);
          DescribedOnce(Summary(p), Summary(q), p, q);
        } else {
          assert p == [] <==> multiset(p) == multiset{};
          assert q == [] <==> multiset(q) == multiset{};
        }
      } else {
        NoSuchWidth(a, widths, cutoff, key);
        NoSuchWidth(b, widths, cutoff, key);
      }
    }
  }

  lemma {:induction false} NoSuchWidth(rows: seq<Stored>, widths: seq<int>, cutoff: Cut, key: Key)
    requires Widths(widths) && key.width <= 0
    ensures key !in AddRows(map[], rows, widths, cutoff)
  {
    if rows != [] {
      NoSuchWidth(rows[..|rows| - 1], widths, cutoff, key);
      NoSuchWidthRow(AddRows(map[], rows[..|rows| - 1], widths, cutoff), rows[|rows| - 1], widths, cutoff, key);
    }
  }

  lemma {:induction false} NoSuchWidthRow(m: map<Key, Rollup>, s: Stored, widths: seq<int>, cutoff: Cut, key: Key)
    requires Widths(widths) && key.width <= 0
    ensures key in AddRow(m, s, widths, cutoff) ==> key in m
  {
    if widths != [] {
      NoSuchWidthRow(m, s, widths[..|widths| - 1], cutoff, key);
    }
  }

  // ------------------------------------------------------------ moving the rollup cutoff

  /** Whether a bucket ends after the cutoff. */
  predicate KeptKey(key: Key, cutoff: Cut) {
    var end := key.bucket + key.width;
    cutoff.Everything? || (if end > I64_MAX then I64_MAX else end) > cutoff.at
  }

  /** The rollups a cutoff keeps. */
  function Restrict(m: map<Key, Rollup>, cutoff: Cut): (r: map<Key, Rollup>) {
    map key | key in m && KeptKey(key, cutoff) :: m[key]
  }

  /** A later cutoff. */
  predicate CutRises(a: Cut, b: Cut) {
    a.Everything? || (b.From? && a.at <= b.at)
  }

  lemma {:induction false} MembersKept(rows: seq<Stored>, key: Key, cutoff: Cut)
    requires key.width > 0
    ensures Members(rows, key, cutoff) == if KeptKey(key, cutoff) then Members(rows, key, Everything) else []
  {
    if rows != [] {
      MembersKept(rows[..|rows| - 1], key, cutoff);
    }
  }

  /** Dropping the buckets below a later cutoff is never having kept them. */
  lemma RestrictIs(rows: seq<Stored>, widths: seq<int>, was: Cut, now: Cut)
    requires Widths(widths) && CutRises(was, now)
    ensures Restrict(AddRows(map[], rows, widths, was), now) == AddRows(map[], rows, widths, now)
  {
    hide AddRows, Members, Summary;
    var a, b := Restrict(AddRows(map[], rows, widths, was), now), AddRows(map[], rows, widths, now);
    forall key ensures key in a <==> key in b {
      RestrictAt(rows, widths, was, now, key);
    }
    forall key | key in a && key in b ensures a[key] == b[key] {
      RestrictAt(rows, widths, was, now, key);
    }
  }

  lemma RestrictAt(rows: seq<Stored>, widths: seq<int>, was: Cut, now: Cut, key: Key)
    requires Widths(widths) && CutRises(was, now)
    ensures var a, b := Restrict(AddRows(map[], rows, widths, was), now), AddRows(map[], rows, widths, now);
      (key in a <==> key in b) && (key in a ==> a[key] == b[key])
  {
    hide AddRows, Members, Summary;
    if key.width > 0 {
      RowsAt(rows, widths, was, key);
      RowsAt(rows, widths, now, key);
      MembersKept(rows, key, was);
      MembersKept(rows, key, now);
    } else {
      NoSuchWidth(rows, widths, was, key);
      NoSuchWidth(rows, widths, now, key);
    }
  }

  // ------------------------------------------------------------ the update loop of an append

  /** Rows of one request, numbered from the group's next ordinal. */
  function Number(rows: seq<Row>, sequence: nat, ordinal: nat): (r: seq<Stored>)
    ensures |r| == |rows|
  {
    seq(|rows|, i requires 0 <= i < |rows| => Stored(rows[i], sequence, ordinal + i))
  }

  /** Every bucket start of the rows is an i64. */
  predicate InRange(rows: seq<Row>, widths: seq<int>)
    requires forall i :: 0 <= i < |widths| ==> widths[i] > 0
  {
    forall i, j :: 0 <= i < |rows| && 0 <= j < |widths| ==> WindowStart(rows[i].time, widths[j]) >= I64_MIN
  }

  datatype Updates = Updates(changed: map<Key, Rollup>) | OutOfRange | OverBudget

  /** Rollups touched so far and the bytes charged for them, once each, at first touch. */
  datatype Spend = Spend(keys: set<Key>, bytes: nat)

  function SpendAt(p: Spend, s: Stored, width: int, cutoff: Cut, cost: (Key, Row) -> nat): (r: Spend)
    requires width > 0
    ensures p.bytes <= r.bytes && p.keys <= r.keys
  {
    var key := KeyOf(s, width);
    if !Kept(s, width, cutoff) || key in p.keys then p else Spend(p.keys + {key}, p.bytes + cost(key, s.row))
  }

  function SpendRow(p: Spend, s: Stored, widths: seq<int>, cutoff: Cut, cost: (Key, Row) -> nat): (r: Spend)
    requires forall i :: 0 <= i < |widths| ==> widths[i] > 0
    ensures p.bytes <= r.bytes && p.keys <= r.keys
  {
    if widths == [] then p
    else SpendAt(SpendRow(p, s, widths[..|widths| - 1], cutoff, cost), s, widths[|widths| - 1], cutoff, cost)
  }

  function SpendRows(rows: seq<Stored>, widths: seq<int>, cutoff: Cut, cost: (Key, Row) -> nat): (r: Spend)
    requires forall i :: 0 <= i < |widths| ==> widths[i] > 0
  {
    if rows == [] then Spend({}, 0)
    else SpendRow(SpendRows(rows[..|rows| - 1], widths, cutoff, cost), rows[|rows| - 1], widths, cutoff, cost)
  }

  lemma {:induction false} SpendRowPrefix(p: Spend, s: Stored, widths: seq<int>, j: nat, cutoff: Cut,
                                          cost: (Key, Row) -> nat)
    requires j <= |widths| && forall i :: 0 <= i < |widths| ==> widths[i] > 0
    ensures SpendRow(p, s, widths[..j], cutoff, cost).bytes <= SpendRow(p, s, widths, cutoff, cost).bytes
  {
    if j < |widths| {
      var n := |widths| - 1;
      SpendRowPrefix(p, s, widths[..n], j, cutoff, cost);
      assert widths[..n][..j] == widths[..j];
    } else {
      assert widths[..j] == widths;
    }
  }

  lemma {:induction false} SpendPrefix(rows: seq<Stored>, i: nat, widths: seq<int>, cutoff: Cut,
                                       cost: (Key, Row) -> nat)
    requires i <= |rows| && forall k :: 0 <= k < |widths| ==> widths[k] > 0
    ensures SpendRows(rows[..i], widths, cutoff, cost).bytes <= SpendRows(rows, widths, cutoff, cost).bytes
  {
    if i < |rows| {
      var n := |rows| - 1;
      SpendPrefix(rows[..n], i, widths, cutoff, cost);
      assert rows[..n][..i] == rows[..i];
    } else {
      assert rows[..i] == rows;
    }
  }

  /** Charges so far are charges of the whole request. */
  lemma SpentAlready(all: seq<Stored>, i: nat, widths: seq<int>, j: nat, cutoff: Cut, cost: (Key, Row) -> nat)
    requires i < |all| && j <= |widths| && forall k :: 0 <= k < |widths| ==> widths[k] > 0
    ensures SpendRow(SpendRows(all[..i], widths, cutoff, cost), all[i], widths[..j], cutoff, cost).bytes
         <= SpendRows(all, widths, cutoff, cost).bytes
  {
    hide SpendRow;
    assert all[..i + 1][..i] == all[..i];
    SpendRowPrefix(SpendRows(all[..i], widths, cutoff, cost), all[i], widths, j, cutoff, cost);
    SpendPrefix(all, i + 1, widths, cutoff, cost);
  }

  lemma SpendNext(p: Spend, s: Stored, widths: seq<int>, j: nat, cutoff: Cut, cost: (Key, Row) -> nat)
    requires j < |widths| && forall k :: 0 <= k < |widths| ==> widths[k] > 0
    ensures SpendRow(p, s, widths[..j + 1], cutoff, cost) == SpendAt(SpendRow(p, s, widths[..j], cutoff, cost), s,
                                                                     widths[j], cutoff, cost)
  {
    assert widths[..j + 1][..j] == widths[..j];
  }

  /** The touched rollups are exactly those some row of the request belongs to. */
  lemma {:induction false} TouchedAre(rows: seq<Stored>, widths: seq<int>, cutoff: Cut, cost: (Key, Row) -> nat,
                                      key: Key)
    requires Widths(widths)
    ensures key in SpendRows(rows, widths, cutoff, cost).keys <==>
      key.width in widths && Members(rows, key, cutoff) != []
  {
    hide SpendRow;
    if rows != [] {
      var n := |rows| - 1;
      TouchedAre(rows[..n], widths, cutoff, cost, key);
      TouchedByRow(SpendRows(rows[..n], widths, cutoff, cost), rows[n], widths, cutoff, cost, key);
    }
  }

  lemma {:induction false} TouchedByRow(p: Spend, s: Stored, widths: seq<int>, cutoff: Cut, cost: (Key, Row) -> nat,
                                        key: Key)
    requires Widths(widths)
    ensures key in SpendRow(p, s, widths, cutoff, cost).keys
       <==> key in p.keys || (key.width in widths && KeyOf(s, key.width) == key && Kept(s, key.width, cutoff))
  {
    if widths != [] {
      var n := |widths| - 1;
      TouchedByRow(p, s, widths[..n], cutoff, cost, key);
      assert key.width in widths <==> key.width in widths[..n] || key.width == widths[n];
    }
  }

  /**
   * The touched rollups of an append, looked up in `base` at first touch. Laid over `base` they
   * are what adding the rows one by one to `base` gives. An error means a bucket start below the
   * smallest i64, or touched rollups that cost more than the budget.
   */
  method AggregateUpdates(base: map<Key, Rollup>, widths: seq<int>, cutoff: Cut, rows: seq<Row>, sequence: nat,
                          ordinal: nat, cost: (Key, Row) -> nat, budget: nat) returns (r: Updates)
    requires Widths(widths)
    ensures r.Updates? ==> base + r.changed == AddRows(base, Number(rows, sequence, ordinal), widths, cutoff)
    ensures r.Updates? ==> forall key :: key in r.changed <==>
      key.width in widths && Members(Number(rows, sequence, ordinal), key, cutoff) != []
    ensures r.Updates? <==>
      InRange(rows, widths) && SpendRows(Number(rows, sequence, ordinal), widths, cutoff, cost).bytes <= budget
    ensures r.OutOfRange? ==> !InRange(rows, widths)
    ensures r.OverBudget? ==> SpendRows(Number(rows, sequence, ordinal), widths, cutoff, cost).bytes > budget
  {
    hide AddRows, AddRow, SpendRow, SpendRows, Kept, WindowStart;
    var changed: map<Key, Rollup>, bytes: nat := map[], 0;
    ghost var all := Number(rows, sequence, ordinal);
    assert base + map[] == base;
    NoRows(base, widths, cutoff);
    NothingSpent(all, widths, cutoff, cost);
    for i := 0 to |rows|
      invariant base + changed == AddRows(base, all[..i], widths, cutoff)
      invariant Spend(changed.Keys, bytes) == SpendRows(all[..i], widths, cutoff, cost) && bytes <= budget
      invariant forall k, j :: 0 <= k < i && 0 <= j < |widths| ==> WindowStart(rows[k].time, widths[j]) >= I64_MIN
    {
      var s := Stored(rows[i], sequence, ordinal + i);
      ghost var before, had := base + changed, Spend(changed.Keys, bytes);
      NoWidths(before, s, cutoff);
      NoWidthSpent(had, s, cutoff, cost);
      assert widths[..0] == [];
      for j := 0 to |widths|
        invariant base + changed == AddRow(before, s, widths[..j], cutoff)
        invariant Spend(changed.Keys, bytes) == SpendRow(had, s, widths[..j], cutoff, cost) && bytes <= budget
        invariant forall m :: 0 <= m < j ==> WindowStart(rows[i].time, widths[m]) >= I64_MIN
      {
        var width := widths[j];
        WidthNext(before, s, widths, j, cutoff);
        SpendNext(had, s, widths, j, cutoff, cost);
        if WindowStart(s.row.time, width) < I64_MIN {
          return OutOfRange;
        }
        if Kept(s, width, cutoff) {
          var key := KeyOf(s, width);
          if key !in changed {
            bytes := bytes + cost(key, rows[i]);
            if bytes > budget {
              SpentAlready(all, i, widths, j + 1, cutoff, cost);
              return OverBudget;
            }
          }
          changed := Touch(base, changed, s, width, cutoff);
        }
      }
      assert widths[..|widths|] == widths;
      RowNext(base, all, i, widths, cutoff);
      SpendRowNext(all, i, widths, cutoff, cost);
    }
    assert all[..|rows|] == all;
    forall key ensures key in changed <==> key.width in widths && Members(all, key, cutoff) != [] {
      TouchedAre(all, widths, cutoff, cost, key);
    }
    r := Updates(changed);
  }

  /** One touch: the entry moves from `base` to the changes on first use. */
  method Touch(base: map<Key, Rollup>, changed: map<Key, Rollup>, s: Stored, width: int, cutoff: Cut)
    returns (r: map<Key, Rollup>)
    requires width > 0 && Kept(s, width, cutoff)
    ensures base + r == AddAt(base + changed, s, width, cutoff) && r.Keys == changed.Keys + {KeyOf(s, width)}
  {
    var key := KeyOf(s, width);
    r := changed[key := if key in changed then Add(changed[key], s) else if key in base then Add(base[key], s)
        else One(s)];
  }

  lemma NothingSpent(all: seq<Stored>, widths: seq<int>, cutoff: Cut, cost: (Key, Row) -> nat)
    requires Widths(widths)
    ensures SpendRows(all[..0], widths, cutoff, cost) == Spend({}, 0)
  {
  }

  lemma NoWidthSpent(p: Spend, s: Stored, cutoff: Cut, cost: (Key, Row) -> nat)
    ensures SpendRow(p, s, [], cutoff, cost) == p
  {
  }

  lemma SpendRowNext(all: seq<Stored>, i: nat, widths: seq<int>, cutoff: Cut, cost: (Key, Row) -> nat)
    requires i < |all| && Widths(widths)
    ensures SpendRows(all[..i + 1], widths, cutoff, cost) == SpendRow(SpendRows(all[..i], widths, cutoff, cost), all[i],
                                                                      widths, cutoff, cost)
  {
    hide SpendRow;
    assert all[..i + 1][..i] == all[..i];
  }

  lemma NoRows(base: map<Key, Rollup>, widths: seq<int>, cutoff: Cut)
    requires Widths(widths)
    ensures AddRows(base, [], widths, cutoff) == base
  {
  }

  lemma NoWidths(m: map<Key, Rollup>, s: Stored, cutoff: Cut)
    ensures AddRow(m, s, [], cutoff) == m
  {
  }

  lemma WidthNext(m: map<Key, Rollup>, s: Stored, widths: seq<int>, j: nat, cutoff: Cut)
    requires Widths(widths) && j < |widths|
    ensures AddRow(m, s, widths[..j + 1], cutoff) == AddAt(AddRow(m, s, widths[..j], cutoff), s, widths[j], cutoff)
  {
    assert widths[..j + 1][..j] == widths[..j];
  }

  lemma RowNext(m: map<Key, Rollup>, rows: seq<Stored>, i: nat, widths: seq<int>, cutoff: Cut)
    requires Widths(widths) && i < |rows|
    ensures AddRows(m, rows[..i + 1], widths, cutoff) == AddRow(AddRows(m, rows[..i], widths, cutoff), rows[i], widths,
                                                                cutoff)
  {
    assert rows[..i + 1][..i] == rows[..i];
  }

  lemma {:induction false} RowsConcat(m: map<Key, Rollup>, a: seq<Stored>, b: seq<Stored>, widths: seq<int>,
                                      cutoff: Cut)
    requires Widths(widths)
    ensures AddRows(m, a + b, widths, cutoff) == AddRows(AddRows(m, a, widths, cutoff), b, widths, cutoff)
  {
    hide AddRow;
    if b == [] {
      assert a + b == a;
    } else {
      var n := |b| - 1;
      RowsConcat(m, a, b[..n], widths, cutoff);
      assert (a + b)[..|a| + n] == a + b[..n];
    }
  }

  // ------------------------------------------------------------ backfilling a new width

  /** A row the raw retention cutoff still keeps. */
  predicate NotExpired(s: Stored, floor: Option<int>) {
    floor.Some? ==> s.row.time >= floor.value
  }

  function NotBelow(rows: seq<Stored>, floor: Option<int>): (r: seq<Stored>) {
    if rows == [] then []
    else
      var n := |rows| - 1;
      NotBelow(rows[..n], floor) + if NotExpired(rows[n], floor) then [rows[n]] else []
  }

  /** What backfilling one more row needs: a bucket start in range, and output within the byte budgets. */
  ghost predicate BackfillFits(rows: seq<Stored>, width: int, floor: Option<int>, fits: map<Key, Rollup> -> bool,
                               i: nat)
    requires width > 0 && i < |rows|
  {
    NotExpired(rows[i], floor) ==>
      && WindowStart(rows[i].row.time, width) >= I64_MIN
      && fits(AddRows(map[], NotBelow(rows[..i + 1], floor), [width], Everything))
  }

  /** The backfill scan over the checkpointed rows that retention still keeps. */
  method AggregateWidth(rows: seq<Stored>, width: int, floor: Option<int>, fits: map<Key, Rollup> -> bool)
    returns (r: Option<map<Key, Rollup>>)
    requires width > 0
    ensures r.Some? <==> forall i :: 0 <= i < |rows| ==> BackfillFits(rows, width, floor, fits, i)
    ensures r.Some? ==> r.value == AddRows(map[], NotBelow(rows, floor), [width], Everything)
  {
    hide AddRow, WindowStart;
    var output: map<Key, Rollup> := map[];
    for i := 0 to |rows|
      invariant output == AddRows(map[], NotBelow(rows[..i], floor), [width], Everything)
      invariant forall k :: 0 <= k < i ==> BackfillFits(rows, width, floor, fits, k)
    {
      assert rows[..i + 1][..i] == rows[..i];
      ghost var kept := NotBelow(rows[..i], floor);
      if NotExpired(rows[i], floor) {
        if WindowStart(rows[i].row.time, width) < I64_MIN {
          assert !BackfillFits(rows, width, floor, fits, i);
          return None;
        }
        var key := KeyOf(rows[i], width);
        assert (kept + [rows[i]])[..|kept|] == kept;
        OneWidth(output, rows[i], width);
        output := output[key := if key in output then Add(output[key], rows[i]) else One(rows[i])];
        if !fits(output) {
          assert !BackfillFits(rows, width, floor, fits, i);
          return None;
        }
      } else {
        assert kept + [] == kept;
      }
    }
    assert rows[..|rows|] == rows;
    r := Some(output);
  }

  lemma OneWidth(m: map<Key, Rollup>, s: Stored, width: int)
    requires width > 0
    ensures AddRow(m, s, [width], Everything) == AddAt(m, s, width, Everything)
  {
    assert [width][..0] == [];
  }

  /** What a key's rollup becomes depends only on its own entry and on whether its width is maintained. */
  lemma {:induction false} SameEntry(m: map<Key, Rollup>, n: map<Key, Rollup>, rows: seq<Stored>,
                                     ws: seq<int>, vs: seq<int>, cutoff: Cut, key: Key)
    requires Widths(ws) && Widths(vs) && key.width > 0 && (key.width in ws <==> key.width in vs)
    requires (key in m <==> key in n) && (key in m ==> m[key] == n[key])
    ensures var a, b := AddRows(m, rows, ws, cutoff), AddRows(n, rows, vs, cutoff);
            (key in a <==> key in b) && (key in a ==> a[key] == b[key])
  {
    hide AddRow;
    if rows != [] {
      var k := |rows| - 1;
      SameEntry(m, n, rows[..k], ws, vs, cutoff, key);
      RowAt(AddRows(m, rows[..k], ws, cutoff), rows[k], ws, cutoff, key);
      RowAt(AddRows(n, rows[..k], vs, cutoff), rows[k], vs, cutoff, key);
    }
  }

  /**
   * A width added to a live table: backfill from the checkpointed rows in whatever order the
   * segments hold them, then maintain incrementally. Its rollups are those of adding the same
   * rows in commit order, and every other width is untouched.
   */
  lemma BackfillMatches(table: map<Key, Rollup>, backfill: map<Key, Rollup>, widths: seq<int>, width: int,
                        segments: seq<Stored>, committed: seq<Stored>, later: seq<Stored>, floor: Option<int>,
                        cutoff: Cut, key: Key)
    requires Widths(widths) && width > 0 && width !in widths && key.width > 0
    requires forall k :: k in table ==> k.width != width
    requires multiset(segments) == multiset(committed) && DistinctMarks(committed)
    requires backfill == AddRows(map[], NotBelow(segments, floor), [width], Everything)
    ensures var live := AddRows(table + backfill, later, widths + [width], cutoff);
            var fromScratch := AddRows(AddRows(map[], NotBelow(committed, floor), [width], Everything), later, [width],
                                       cutoff);
            var without := AddRows(table, later, widths, cutoff);
            && (key.width == width ==>
                  (key in live <==> key in fromScratch) && (key in live ==> live[key] == fromScratch[key]))
            && (key.width != width ==> (key in live <==> key in without) && (key in live ==> live[key] == without[key]))
  {
    hide AddRows, DistinctMarks;
    var all := widths + [width];
    assert all[|widths|] == width && forall i :: 0 <= i < |widths| ==> all[i] == widths[i];
    assert Widths([width]) && Widths(all);
    KeptPermutes(segments, committed, floor);
    KeptDistinct(committed, floor);
    RollupsIgnoreOrder(NotBelow(committed, floor), NotBelow(segments, floor), [width], Everything);
    RowsAt(NotBelow(segments, floor), [width], Everything, key);
    if key.width == width {
      assert key !in table;
      SameEntry(table + backfill, backfill, later, all, [width], cutoff, key);
    } else {
      assert key.width !in [width];
      assert key !in backfill;
      SameEntry(table + backfill, table, later, all, widths, cutoff, key);
    }
  }

  lemma CountSnoc(rows: seq<Stored>, last: Stored, s: Stored)
    ensures multiset(rows + [last])[s] == multiset(rows)[s] + if last == s then 1 else 0
  {
  }

  lemma {:induction false} KeptCount(rows: seq<Stored>, floor: Option<int>, s: Stored)
    ensures multiset(NotBelow(rows, floor))[s] == if NotExpired(s, floor) then multiset(rows)[s] else 0
  {
    if rows != [] {
      var n := |rows| - 1;
      var rest, last := rows[..n], rows[n];
      var kept := NotBelow(rest, floor);
      KeptCount(rest, floor, s);
      assert rows == rest + [last];
      assert NotBelow(rows, floor) == if NotExpired(last, floor) then kept + [last] else kept;
      CountSnoc(rest, last, s);
      CountSnoc(kept, last, s);
    }
  }

  lemma KeptPermutes(a: seq<Stored>, b: seq<Stored>, floor: Option<int>)
    requires multiset(a) == multiset(b)
    ensures multiset(NotBelow(a, floor)) == multiset(NotBelow(b, floor))
  {
    forall s ensures multiset(NotBelow(a, floor))[s] == multiset(NotBelow(b, floor))[s] {
      KeptCount(a, floor, s);
      KeptCount(b, floor, s);
    }
  }

  lemma {:induction false} KeptDistinct(rows: seq<Stored>, floor: Option<int>)
    requires DistinctMarks(rows)
    ensures DistinctMarks(NotBelow(rows, floor))
    ensures forall i :: 0 <= i < |NotBelow(rows, floor)| ==> NotBelow(rows, floor)[i] in rows
  {
    if rows != [] {
      var n := |rows| - 1;
      KeptDistinct(rows[..n], floor);
      var rest := NotBelow(rows[..n], floor);
      forall i | 0 <= i < |rest| ensures MarkOf(rest[i]) != MarkOf(rows[n]) {
        assert rest[i] in rows[..n];
      }
    }
  }
}
