/** Ordered maps as strictly ascending entry lists, with keys in byte order. */
module Order {
  datatype Entry<V> = Entry(key: string, value: V)

  /** Lexicographic order of keys. */
  predicate Less(a: string, b: string) {
    if b == [] then false
    else if a == [] then true
    else a[0] < b[0] || (a[0] == b[0] && Less(a[1..], b[1..]))
  }

  lemma {:induction false} Irreflexive(a: string)
    ensures !Less(a, a)
  {
    if a != [] {
      Irreflexive(a[1..]);
    }
  }

  lemma {:induction false} Transitive(a: string, b: string, c: string)
    requires Less(a, b) && Less(b, c)
    ensures Less(a, c)
  {
    if a != [] && a[0] == b[0] && b[0] == c[0] {
      Transitive(a[1..], b[1..], c[1..]);
    }
  }

  lemma {:induction false} Total(a: string, b: string)
    ensures Less(a, b) || Less(b, a) || a == b
  {
    if a != [] && b != [] && a[0] == b[0] {
      Total(a[1..], b[1..]);
      assert a == [a[0]] + a[1..] && b == [b[0]] + b[1..];
    }
  }

  /** The entries of an ordered map: every key is above the one before it. */
  predicate Sorted<V>(es: seq<Entry<V>>) {
    forall i :: 0 < i < |es| ==> Less(es[i - 1].key, es[i].key)
  }

  lemma {:induction false} SortedPair<V>(es: seq<Entry<V>>, i: nat, j: nat)
    requires Sorted(es) && i < j < |es|
    ensures Less(es[i].key, es[j].key)
  {
    if i + 1 < j {
      SortedPair(es, i, j - 1);
      Transitive(es[i].key, es[j - 1].key, es[j].key);
    }
  }

  function ToMap<V>(es: seq<Entry<V>>): (r: map<string, V>) {
    if es == [] then map[] else ToMap(es[..|es| - 1])[es[|es| - 1].key := es[|es| - 1].value]
  }

  lemma {:induction false} InMap<V>(es: seq<Entry<V>>, key: string)
    requires Sorted(es)
    ensures key in ToMap(es) <==> exists i :: 0 <= i < |es| && es[i].key == key
    ensures forall i :: 0 <= i < |es| && es[i].key == key ==> key in ToMap(es) && ToMap(es)[key] == es[i].value
  {
    if es != [] {
      var n := |es| - 1;
      InMap(es[..n], key);
      forall i | 0 <= i < n ensures es[i].key != es[n].key {
        SortedPair(es, i, n);
        Irreflexive(es[n].key);
      }
      assert forall i :: 0 <= i < n ==> es[..n][i] == es[i];
    }
  }

  /** An ordered map has one listing. */
  lemma {:induction false} OneListing<V>(a: seq<Entry<V>>, b: seq<Entry<V>>)
    requires Sorted(a) && Sorted(b) && ToMap(a) == ToMap(b)
    ensures a == b
  {
    if a == [] || b == [] {
      if a != [] { InMap(a, a[0].key); }
      if b != [] { InMap(b, b[0].key); }
    } else {
      var n, m := |a| - 1, |b| - 1;
      var x, y := a[n].key, b[m].key;
      InMap(a, x); InMap(b, x); InMap(a, y); InMap(b, y);
      SameTop(a, b);
      DropTop(a);
      DropTop(b);
      OneListing(a[..n], b[..m]);
    }
  }

  lemma SameTop<V>(a: seq<Entry<V>>, b: seq<Entry<V>>)
    requires Sorted(a) && Sorted(b) && ToMap(a) == ToMap(b) && a != [] && b != []
    ensures a[|a| - 1] == b[|b| - 1]
  {
    hide ToMap, Less;
    var x, y := a[|a| - 1].key, b[|b| - 1].key;
    InMap(a, x); InMap(b, x); InMap(a, y); InMap(b, y);
    var i :| 0 <= i < |b| && b[i].key == x;
    var j :| 0 <= j < |a| && a[j].key == y;
    if x != y {
      SortedPair(b, i, |b| - 1);
      SortedPair(a, j, |a| - 1);
      Transitive(x, y, x);
      Irreflexive(x);
      assert false;
    }
  }

  lemma DropTop<V>(a: seq<Entry<V>>)
    requires Sorted(a) && a != []
    ensures Sorted(a[..|a| - 1]) && ToMap(a[..|a| - 1]) == ToMap(a) - {a[|a| - 1].key}
  {
    hide Less;
    var n := |a| - 1;
    assert Sorted(a[..n]);
    InMap(a[..n], a[n].key);
    forall i | 0 <= i < n ensures a[..n][i].key != a[n].key {
      SortedPair(a, i, n);
      Irreflexive(a[n].key);
    }
  }

  // ------------------------------------------------------------ merging an update into a listing

  /** `merged`: walk both listings, updates winning on equal keys. */
  function Merge<V>(base: seq<Entry<V>>, updates: seq<Entry<V>>): (r: seq<Entry<V>>) {
    if base == [] then updates
    else if updates == [] then base
    else
      var n, m := |base| - 1, |updates| - 1;
      if Less(updates[m].key, base[n].key) then Merge(base[..n], updates) + [base[n]]
      else if Less(base[n].key, updates[m].key) then Merge(base, updates[..m]) + [updates[m]]
      else Merge(base[..n], updates[..m]) + [updates[m]]
  }

  predicate AllBelow<V>(es: seq<Entry<V>>, key: string) {
    forall i :: 0 <= i < |es| ==> Less(es[i].key, key)
  }

  lemma SnocSorted<V>(es: seq<Entry<V>>, e: Entry<V>)
    requires Sorted(es) && AllBelow(es, e.key)
    ensures Sorted(es + [e]) && ToMap(es + [e]) == ToMap(es)[e.key := e.value]
  {
    assert (es + [e])[..|es|] == es;
  }

  lemma TopAbove<V>(es: seq<Entry<V>>, key: string)
    requires Sorted(es) && es != [] && (Less(es[|es| - 1].key, key) || es[|es| - 1].key == key)
    ensures AllBelow(es[..|es| - 1], key)
    ensures Less(es[|es| - 1].key, key) ==> AllBelow(es, key)
  {
    hide Less;
    forall i | 0 <= i < |es| - 1 ensures Less(es[i].key, key) {
      SortedPair(es, i, |es| - 1);
      if es[|es| - 1].key != key {
        Transitive(es[i].key, es[|es| - 1].key, key);
      }
    }
  }

  lemma {:induction false} MergeBelow<V>(base: seq<Entry<V>>, updates: seq<Entry<V>>, key: string)
    requires AllBelow(base, key) && AllBelow(updates, key)
    ensures AllBelow(Merge(base, updates), key)
  {
    hide Less;
    if base != [] && updates != [] {
      var n, m := |base| - 1, |updates| - 1;
      MergeBelow(base[..n], updates, key);
      MergeBelow(base, updates[..m], key);
      MergeBelow(base[..n], updates[..m], key);
    }
  }

  lemma OverrideLeft<V>(a: map<string, V>, b: map<string, V>, k: string, v: V)
    requires k !in b
    ensures a[k := v] + b == (a + b)[k := v]
  {
  }

  lemma OverrideRight<V>(a: map<string, V>, b: map<string, V>, k: string, v: V)
    ensures a + b[k := v] == (a + b)[k := v]
  {
  }

  lemma OverrideBoth<V>(a: map<string, V>, b: map<string, V>, k: string, v: V, w: V)
    ensures a[k := v] + b[k := w] == (a + b)[k := w]
  {
  }

  lemma MapTop<V>(a: seq<Entry<V>>)
    requires a != []
    ensures ToMap(a) == ToMap(a[..|a| - 1])[a[|a| - 1].key := a[|a| - 1].value]
  {
  }

  lemma MergeTrivial<V>(base: seq<Entry<V>>, updates: seq<Entry<V>>)
    requires base == [] || updates == []
    ensures ToMap(base) + ToMap(updates) == ToMap(Merge(base, updates))
  {
    assert ToMap<V>([]) == map[];
  }

  /** The merge is the listing of the overridden map. */
  lemma {:induction false} MergeIsOverride<V>(base: seq<Entry<V>>, updates: seq<Entry<V>>)
    requires Sorted(base) && Sorted(updates)
    ensures Sorted(Merge(base, updates)) && ToMap(Merge(base, updates)) == ToMap(base) + ToMap(updates)
  {
    hide Less, Sorted, AllBelow, ToMap;
    if base == [] || updates == [] {
      MergeTrivial(base, updates);
      return;
    }
    var n, m := |base| - 1, |updates| - 1;
    var x, y := base[n], updates[m];
    DropTop(base);
    DropTop(updates);
    MapTop(base);
    MapTop(updates);
    Total(x.key, y.key);
    if Less(y.key, x.key) {
      TopAbove(updates, x.key);
      TopAbove(base, x.key);
      NotThere(updates, x.key);
      MergeIsOverride(base[..n], updates);
      MergeBelow(base[..n], updates, x.key);
      SnocSorted(Merge(base[..n], updates), x);
      OverrideLeft(ToMap(base[..n]), ToMap(updates), x.key, x.value);
    } else {
      TopAbove(base, y.key);
      TopAbove(updates, y.key);
      if Less(x.key, y.key) {
        MergeIsOverride(base, updates[..m]);
        MergeBelow(base, updates[..m], y.key);
        SnocSorted(Merge(base, updates[..m]), y);
        OverrideRight(ToMap(base), ToMap(updates[..m]), y.key, y.value);
      } else {
        MergeIsOverride(base[..n], updates[..m]);
        MergeBelow(base[..n], updates[..m], y.key);
        SnocSorted(Merge(base[..n], updates[..m]), y);
        OverrideBoth(ToMap(base[..n]), ToMap(updates[..m]), y.key, x.value, y.value);
      }
    }
  }

  lemma NotThere<V>(es: seq<Entry<V>>, key: string)
    requires Sorted(es) && AllBelow(es, key)
    ensures key !in ToMap(es)
  {
    InMap(es, key);
    Irreflexive(key);
  }

  lemma InitSorted<V>(es: seq<Entry<V>>, i: nat)
    requires Sorted(es) && i < |es|
    ensures Sorted(es[..i]) && AllBelow(es[..i], es[i].key) && es[..i + 1][..i] == es[..i]
    ensures ToMap(es[..i + 1]) == ToMap(es[..i])[es[i].key := es[i].value]
  {
    hide Less;
    forall k | 0 <= k < i ensures Less(es[k].key, es[i].key) { SortedPair(es, k, i); }
  }

  lemma AllBelowNext<V>(es: seq<Entry<V>>, i: nat, key: string)
    requires Sorted(es) && i < |es| && AllBelow(es[..i], key) && Less(es[i].key, key)
    ensures AllBelow(es[..i + 1], key)
  {
    hide Less;
  }

  /** The merging iterator, front to back. */
  method Merged<V>(base: seq<Entry<V>>, updates: seq<Entry<V>>) returns (out: seq<Entry<V>>)
    requires Sorted(base) && Sorted(updates)
    ensures out == Merge(base, updates)
  {
    hide Less, Sorted, ToMap, AllBelow, Merge;
    out := [];
    var i, j := 0, 0;
    MergeStart(base, updates);
    while i < |base| || j < |updates|
      invariant i <= |base| && j <= |updates|
      invariant out == Merge(base[..i], updates[..j])
      invariant i < |base| ==> AllBelow(updates[..j], base[i].key)
      invariant j < |updates| ==> AllBelow(base[..i], updates[j].key)
      decreases |base| - i + |updates| - j
    {
      if i < |base| { InitSorted(base, i); }
      if j < |updates| { InitSorted(updates, j); }
      if j == |updates| || (i < |base| && Less(base[i].key, updates[j].key)) {
        MergeBase(base, updates, i, j);
        if j < |updates| { AllBelowNext(base, i, updates[j].key); }
        if i + 1 < |base| { StillBelow(updates, j, base, i); }
        out := out + [base[i]];
        i := i + 1;
      } else if i == |base| || Less(updates[j].key, base[i].key) {
        MergeUpdate(base, updates, i, j);
        if i < |base| { AllBelowNext(updates, j, base[i].key); }
        if j + 1 < |updates| { StillBelow(base, i, updates, j); }
        out := out + [updates[j]];
        j := j + 1;
      } else {
        MergeEqual(base, updates, i, j);
        out := out + [updates[j]];
        i, j := i + 1, j + 1;
      }
    }
    assert base[..|base|] == base && updates[..|updates|] == updates;
  }

  lemma MergeStart<V>(base: seq<Entry<V>>, updates: seq<Entry<V>>)
    ensures Merge(base[..0], updates[..0]) == []
    ensures forall key :: AllBelow(base[..0], key) && AllBelow(updates[..0], key)
  {
  }

  lemma StillBelow<V>(es: seq<Entry<V>>, j: nat, other: seq<Entry<V>>, i: nat)
    requires Sorted(other) && i + 1 < |other| && j <= |es| && AllBelow(es[..j], other[i].key)
    ensures AllBelow(es[..j], other[i + 1].key)
  {
    hide Less;
    forall k | 0 <= k < j ensures Less(es[k].key, other[i + 1].key) {
      assert Less(es[..j][k].key, other[i].key);
      Transitive(es[k].key, other[i].key, other[i + 1].key);
    }
  }

  lemma MergeBase<V>(base: seq<Entry<V>>, updates: seq<Entry<V>>, i: nat, j: nat)
    requires Sorted(base) && i < |base| && j <= |updates| && AllBelow(updates[..j], base[i].key)
    ensures Merge(base[..i + 1], updates[..j]) == Merge(base[..i], updates[..j]) + [base[i]]
  {
    hide Less;
    assert base[..i + 1][..i] == base[..i];
    if j > 0 {
      assert Less(updates[..j][j - 1].key, base[i].key);
    } else if i == 0 {
      assert base[..1] == [base[0]];
    } else {
      assert base[..i + 1] == base[..i] + [base[i]];
    }
  }

  lemma MergeUpdate<V>(base: seq<Entry<V>>, updates: seq<Entry<V>>, i: nat, j: nat)
    requires Sorted(updates) && j < |updates| && i <= |base| && AllBelow(base[..i], updates[j].key)
    ensures Merge(base[..i], updates[..j + 1]) == Merge(base[..i], updates[..j]) + [updates[j]]
  {
    hide Less;
    assert updates[..j + 1][..j] == updates[..j];
    if i > 0 {
      assert Less(base[..i][i - 1].key, updates[j].key);
      NotBoth(base[i - 1].key, updates[j].key);
    } else {
      assert updates[..j + 1] == updates[..j] + [updates[j]];
    }
  }

  lemma MergeEqual<V>(base: seq<Entry<V>>, updates: seq<Entry<V>>, i: nat, j: nat)
    requires i < |base| && j < |updates| && !Less(base[i].key, updates[j].key) && !Less(updates[j].key, base[i].key)
    requires Sorted(base) && Sorted(updates)
    ensures Merge(base[..i + 1], updates[..j + 1]) == Merge(base[..i], updates[..j]) + [updates[j]]
    ensures i + 1 < |base| ==> AllBelow(updates[..j + 1], base[i + 1].key)
    ensures j + 1 < |updates| ==> AllBelow(base[..i + 1], updates[j + 1].key)
  {
    hide Less;
    assert base[..i + 1][..i] == base[..i] && updates[..j + 1][..j] == updates[..j];
    Total(base[i].key, updates[j].key);
    if i + 1 < |base| { TopAbove(updates[..j + 1], base[i + 1].key); }
    if j + 1 < |updates| { TopAbove(base[..i + 1], updates[j + 1].key); }
  }

  lemma NotBoth(a: string, b: string)
    requires Less(a, b)
    ensures !Less(b, a)
  {
    hide Less;
    if Less(b, a) {
      Transitive(a, b, a);
      Irreflexive(a);
    }
  }
}
