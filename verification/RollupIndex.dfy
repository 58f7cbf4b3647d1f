/** The resident rollup index: width, tenant, series and bucket, down to row keys. */
module RollupIndex {
  import opened Common
  import opened Rollup
  import opened Sums
  import Order

  type Buckets = map<int, set<string>>
  type Series = map<string, Buckets>
  type Tenants = map<string, Series>
  type Widths = map<int, Tenants>

  /** Exact tenant and series filters, an exact width, and a half-open bucket range. */
  datatype Selection = Selection(tenant: Option<string>, series: Option<string>, width: Option<int>, start: Option<int>,
                                 end: Option<int>)

  predicate InBuckets(sel: Selection, bucket: int) {
    (sel.start.Some? ==> sel.start.value <= bucket) && (sel.end.Some? ==> bucket < sel.end.value)
  }

  predicate Wants<T(==)>(filter: Option<T>, value: T) {
    filter.Some? ==> filter.value == value
  }

  predicate Selected(sel: Selection, row: Key) {
    Wants(sel.width, row.width) && Wants(sel.tenant, row.tenant) && Wants(sel.series, row.series)
        && InBuckets(sel, row.bucket)
  }

  /** Bytes a selection's working list is charged for each key: four string references. */
  const KEY_WORKING: nat := 64

  /** Every level of the tree is charged as if no other row shared it. */
  function EntryBytes(key: string, row: Key): (r: nat) {
    1024 + |key| + |row.tenant| + |row.series|
  }

  // ------------------------------------------------------------ the tree

  ghost predicate Holds(widths: Widths, row: Key, key: string) {
    && row.width in widths && row.tenant in widths[row.width] && row.series in widths[row.width][row.tenant]
    && row.bucket in widths[row.width][row.tenant][row.series]
    && key in widths[row.width][row.tenant][row.series][row.bucket]
  }

  function AddBucket(m: Buckets, bucket: int, key: string): (r: Buckets) {
    m[bucket := (if bucket in m then m[bucket] else {}) + {key}]
  }

  function AddSeries(m: Series, series: string, bucket: int, key: string): (r: Series) {
    m[series := AddBucket(if series in m then m[series] else map[], bucket, key)]
  }

  function AddTenant(m: Tenants, tenant: string, series: string, bucket: int, key: string): (r: Tenants) {
    m[tenant := AddSeries(if tenant in m then m[tenant] else map[], series, bucket, key)]
  }

  function AddPath(m: Widths, row: Key, key: string): (r: Widths) {
    m[row.width := AddTenant(if row.width in m then m[row.width] else map[], row.tenant, row.series, row.bucket, key)]
  }

  lemma AddPathHolds(m: Widths, row: Key, key: string, other: Key, k: string)
    ensures Holds(AddPath(m, row, key), other, k) <==>
      Holds(m, other, k) ||
      (k == key && other.width == row.width && other.tenant == row.tenant && other.series == row.series
          && other.bucket == row.bucket)
  {
  }

  // ------------------------------------------------------------ visiting

  ghost predicate BucketsHave(m: Buckets, sel: Selection, key: string) {
    exists b :: b in m && InBuckets(sel, b) && key in m[b]
  }

  ghost predicate SeriesHave(m: Series, sel: Selection, key: string) {
    exists s :: s in m && Wants(sel.series, s) && BucketsHave(m[s], sel, key)
  }

  ghost predicate TenantsHave(m: Tenants, sel: Selection, key: string) {
    exists t :: t in m && Wants(sel.tenant, t) && SeriesHave(m[t], sel, key)
  }

  ghost predicate WidthsHave(m: Widths, sel: Selection, key: string) {
    exists w :: w in m && Wants(sel.width, w) && TenantsHave(m[w], sel, key)
  }

  method VisitBuckets(m: Buckets, sel: Selection) returns (keys: set<string>)
    ensures forall key :: key in keys <==> BucketsHave(m, sel, key)
  {
    keys := {};
    var todo := m.Keys;
    while todo != {}
      invariant todo <= m.Keys
      invariant forall key :: key in keys <==> exists b :: b in m && b !in todo && InBuckets(sel, b) && key in m[b]
    {
      var b := Pick(todo);
      if InBuckets(sel, b) {
        keys := keys + m[b];
      }
      todo := todo - {b};
    }
  }

  method VisitSeries(m: Series, sel: Selection) returns (keys: set<string>)
    ensures forall key :: key in keys <==> SeriesHave(m, sel, key)
  {
    hide BucketsHave;
    keys := {};
    var todo := m.Keys;
    while todo != {}
      invariant todo <= m.Keys
      invariant forall key :: key in keys <==>
        exists s :: s in m && s !in todo && Wants(sel.series, s) && BucketsHave(m[s], sel, key)
    {
      var s := Pick(todo);
      if Wants(sel.series, s) {
        var more := VisitBuckets(m[s], sel);
        keys := keys + more;
      }
      todo := todo - {s};
    }
  }

  method VisitTenants(m: Tenants, sel: Selection) returns (keys: set<string>)
    ensures forall key :: key in keys <==> TenantsHave(m, sel, key)
  {
    hide SeriesHave;
    keys := {};
    var todo := m.Keys;
    while todo != {}
      invariant todo <= m.Keys
      invariant forall key :: key in keys <==>
        exists t :: t in m && t !in todo && Wants(sel.tenant, t) && SeriesHave(m[t], sel, key)
    {
      var t := Pick(todo);
      if Wants(sel.tenant, t) {
        var more := VisitSeries(m[t], sel);
        keys := keys + more;
      }
      todo := todo - {t};
    }
  }

  method VisitWidths(m: Widths, sel: Selection) returns (keys: set<string>)
    ensures forall key :: key in keys <==> WidthsHave(m, sel, key)
  {
    hide TenantsHave;
    keys := {};
    var todo := m.Keys;
    while todo != {}
      invariant todo <= m.Keys
      invariant forall key :: key in keys <==>
        exists w :: w in m && w !in todo && Wants(sel.width, w) && TenantsHave(m[w], sel, key)
    {
      var w := Pick(todo);
      if Wants(sel.width, w) {
        var more := VisitTenants(m[w], sel);
        keys := keys + more;
      }
      todo := todo - {w};
    }
  }

  /** Visiting finds exactly the keys held under some selected path. */
  lemma HaveIsHolds(m: Widths, sel: Selection, key: string)
    ensures WidthsHave(m, sel, key) <==> exists row: Key :: Selected(sel, row) && Holds(m, row, key)
  {
    if WidthsHave(m, sel, key) {
      var w :| w in m && Wants(sel.width, w) && TenantsHave(m[w], sel, key);
      var t :| t in m[w] && Wants(sel.tenant, t) && SeriesHave(m[w][t], sel, key);
      var s :| s in m[w][t] && Wants(sel.series, s) && BucketsHave(m[w][t][s], sel, key);
      var b :| b in m[w][t][s] && InBuckets(sel, b) && key in m[w][t][s][b];
      var row := Key(w, b, t, s, map[]);
      assert Selected(sel, row) && Holds(m, row, key);
    }
    if row: Key :| Selected(sel, row) && Holds(m, row, key) {
      var series := m[row.width][row.tenant];
      assert BucketsHave(series[row.series], sel, key);
      assert SeriesHave(series, sel, key);
      assert TenantsHave(m[row.width], sel, key);
    }
  }

  // ------------------------------------------------------------ key order

  predicate KeysAscend(keys: seq<string>) {
    forall i :: 0 < i < |keys| ==> Order.Less(keys[i - 1], keys[i])
  }

  function InsertKey(keys: seq<string>, key: string): (r: seq<string>)
    ensures forall k :: k in r <==> k in keys || k == key
  {
    if keys == [] then [key]
    else
      var n := |keys| - 1;
      assert keys == keys[..n] + [keys[n]];
      if Order.Less(key, keys[n]) then InsertKey(keys[..n], key) + [keys[n]] else keys + [key]
  }

  lemma {:induction false} InsertAscends(keys: seq<string>, key: string)
    requires KeysAscend(keys) && key !in keys
    ensures KeysAscend(InsertKey(keys, key)) && |InsertKey(keys, key)| == |keys| + 1
    ensures InsertKey(keys, key)[|keys|] == key || (keys != [] && InsertKey(keys, key)[|keys|] == keys[|keys| - 1])
  {
    hide Order.Less;
    if keys != [] {
      var n := |keys| - 1;
      Order.Total(key, keys[n]);
      if Order.Less(key, keys[n]) {
        assert key !in keys[..n];
        InsertAscends(keys[..n], key);
      }
    }
  }

  method SortKeys(keys: set<string>) returns (out: seq<string>)
    ensures KeysAscend(out) && |out| == |keys| && forall key :: key in out <==> key in keys
  {
    hide Order.Less, InsertKey;
    out := [];
    var todo := keys;
    while todo != {}
      invariant todo <= keys && KeysAscend(out) && |out| + |todo| == |keys|
      invariant forall key :: key in out <==> key in keys && key !in todo
    {
      var key :| key in todo;
      InsertAscends(out, key);
      out := InsertKey(out, key);
      todo := todo - {key};
    }
  }

  // ------------------------------------------------------------ the index object

  /** JSON of a rollup's identity names one rollup. */
  ghost predicate Injective(canonical: Key -> string) {
    forall a, b :: canonical(a) == canonical(b) ==> a == b
  }

  ghost function Costs(entries: map<string, Key>): (r: map<string, nat>) {
    map key | key in entries :: EntryBytes(key, entries[key])
  }

  class Index {
    const canonical: Key -> string
    var widths: Widths
    var residentBytes: nat

    /** The indexed rows by key. */
    ghost var entries: map<string, Key>

    ghost predicate Valid()
      reads this
    {
      && Injective(canonical)
      && (forall key <- entries :: key == canonical(entries[key]))
      && (forall row: Key, key: string :: Holds(widths, row, key) <==>
            key in entries && SamePath(entries[key], row))
      && residentBytes == Sum(Costs(entries))
    }

    constructor (canonical: Key -> string)
      requires Injective(canonical)
      ensures Valid() && entries == map[] && this.canonical == canonical
    {
      this.canonical := canonical;
      widths, residentBytes, entries := map[], 0, map[];
    }

    lemma Indexed(key: string, row: Key)
      requires Valid() && key == canonical(row) && key in entries
      ensures entries[key] == row && Holds(widths, row, key)
    {
      hide Holds, Sum;
    }

    /** Index one row under its canonical key; an indexed key costs nothing more. */
    method Insert(key: string, row: Key, budget: nat) returns (ok: bool)
      requires Valid()
      modifies this
      ensures Valid()
      ensures ok <==>
        key == canonical(row) && (key in old(entries) || old(residentBytes) + EntryBytes(key, row) <= budget)
      ensures entries == if ok then old(entries)[key := row] else old(entries)
      ensures residentBytes == old(residentBytes) + if ok && key !in old(entries) then EntryBytes(key, row) else 0
    {
      hide Holds, AddPath, Sum;
      if key != canonical(row) {
        return false;
      }
      if key in entries {
        Indexed(key, row);
      }
      var existing := HasPath(widths, row, key);
      if existing {
        assert SamePath(entries[key], row);
        assert entries[key := row] == entries;
        return true;
      }
      var bytes := residentBytes + EntryBytes(key, row);
      if bytes > budget {
        return false;
      }
      forall other: Key, k: string
        ensures Holds(AddPath(widths, row, key), other, k) <==>
          k in entries[key := row] && SamePath(entries[key := row][k], other)
      {
        AddPathHolds(widths, row, key, other, k);
      }
      SumUpdate(Costs(entries), key, EntryBytes(key, row));
      assert Costs(entries[key := row]) == Costs(entries)[key := EntryBytes(key, row)];
      widths := AddPath(widths, row, key);
      residentBytes := bytes;
      entries := entries[key := row];
      ok := true;
    }

    /**
     * The selected rows' keys in key order, over the rows the index was built from: a plain filter.
     * A bad range, a row the caller no longer has, or too long a list is an error.
     */
    method Select(rows: map<string, Key>, sel: Selection, budget: nat) returns (r: Option<seq<string>>)
      requires Valid() && forall key <- rows :: key == canonical(rows[key])
      ensures r.None? <==> (sel.start.Some? && sel.end.Some? && sel.start.value > sel.end.value)
                           || !(SelectedKeys(entries, sel) <= rows.Keys)
                               || |SelectedKeys(entries, sel)| * KEY_WORKING > budget
      ensures r.Some? ==>
        KeysAscend(r.value) && forall key :: key in r.value <==> key in entries && Selected(sel, entries[key])
      ensures r.Some? ==> forall key :: key in r.value ==> key in rows && Selected(sel, rows[key])
      ensures r.Some? && rows.Keys <= entries.Keys ==>
        forall key :: key in rows && Selected(sel, rows[key]) ==> key in r.value
    {
      hide Holds, WidthsHave, Order.Less, Sum;
      if sel.start.Some? && sel.end.Some? && sel.start.value > sel.end.value {
        return None;
      }
      var keys := VisitWidths(widths, sel);
      forall key ensures key in keys <==> key in entries && Selected(sel, entries[key]) {
        HaveIsHolds(widths, sel, key);
        if key in entries && Selected(sel, entries[key]) {
          assert Holds(widths, entries[key], key);
        }
      }
      assert keys == SelectedKeys(entries, sel);
      if !(keys <= rows.Keys) || |keys| * KEY_WORKING > budget {
        return None;
      }
      assert forall key :: key in rows && key in entries ==> canonical(rows[key]) == canonical(entries[key]);
      var sorted := SortKeys(keys);
      r := Some(sorted);
    }
  }

  predicate SamePath(a: Key, b: Key) {
    a.width == b.width && a.tenant == b.tenant && a.series == b.series && a.bucket == b.bucket
  }

  ghost function SelectedKeys(rows: map<string, Key>, sel: Selection): (r: set<string>) {
    set key | key in rows && Selected(sel, rows[key])
  }

  method HasPath(widths: Widths, row: Key, key: string) returns (r: bool)
    ensures r <==> Holds(widths, row, key)
  {
    r := row.width in widths && row.tenant in widths[row.width] && row.series in widths[row.width][row.tenant]
         && row.bucket in widths[row.width][row.tenant][row.series]
         && key in widths[row.width][row.tenant][row.series][row.bucket];
  }

  /** The rows already indexed when `todo` are left. */
  ghost function Done(rows: map<string, Key>, todo: set<string>): (r: map<string, Key>) {
    rows - todo
  }

  lemma DoneNext(rows: map<string, Key>, todo: set<string>, key: string)
    requires key in todo && todo <= rows.Keys
    ensures key !in Done(rows, todo) && Done(rows, todo - {key}) == Done(rows, todo)[key := rows[key]]
    ensures forall k <- Done(rows, todo) :: k in rows && Done(rows, todo)[k] == rows[k]
  {
  }

  lemma DoneEnds(rows: map<string, Key>)
    ensures Done(rows, rows.Keys) == map[] && Done(rows, {}) == rows
  {
  }

  /** Index a whole map of rows: the index is exactly those rows, or their cost exceeds the budget. */
  method Rebuild(canonical: Key -> string, rows: map<string, Key>, budget: nat) returns (r: Option<Index>)
    requires Injective(canonical)
    ensures r.Some? <==> (forall key <- rows :: key == canonical(rows[key])) && Sum(Costs(rows)) <= budget
    ensures r.Some? ==> fresh(r.value) && r.value.Valid() && r.value.entries == rows
  {
    hide Sum, Done;
    var index := new Index(canonical);
    var todo := rows.Keys;
    DoneEnds(rows);
    while todo != {}
      invariant todo <= rows.Keys && fresh(index) && index.Valid() && index.canonical == canonical
      invariant index.entries == Done(rows, todo)
      invariant todo == rows.Keys || index.residentBytes <= budget
    {
      var key :| key in todo;
      DoneNext(rows, todo, key);
      ghost var before := index.entries;
      var ok := index.Insert(key, rows[key], budget);
      if !ok {
        CostsWithin(rows, before, key);
        return None;
      }
      todo := todo - {key};
    }
    NoCosts(rows);
    r := Some(index);
  }

  /** Part of the rows cannot cost more than all of them. */
  lemma CostsWithin(rows: map<string, Key>, some: map<string, Key>, key: string)
    requires key in rows && key !in some && forall k <- some :: k in rows && some[k] == rows[k]
    ensures Sum(Costs(some)) + EntryBytes(key, rows[key]) <= Sum(Costs(rows))
  {
    hide Sum;
    SumPart(Costs(some)[key := EntryBytes(key, rows[key])], Costs(rows));
    SumUpdate(Costs(some), key, EntryBytes(key, rows[key]));
  }

  lemma NoCosts(rows: map<string, Key>)
    ensures rows == map[] ==> Sum(Costs(rows)) == 0
  {
  }

  lemma {:induction false} SumPart(a: map<string, nat>, b: map<string, nat>)
    requires forall k <- a :: k in b && a[k] == b[k]
    ensures Sum(a) <= Sum(b)
    decreases |a|
  {
    if a != map[] {
      var k :| k in a;
      SumRemove(a, k);
      SumRemove(b, k);
      SumPart(a - {k}, b - {k});
    }
  }
}
