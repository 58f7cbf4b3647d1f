/** Content-addressed checkpoint pages: greedy packing, its size bounds, and hydration. */
module Pages {
  import opened Bytes
  import opened Order
  import opened Decimal

  const MAGIC: seq<Byte> := [86, 65, 82, 86, 69, 68, 48, 49]
  const FRAME_BYTES: nat := 40
  const MAX_PAGE_BYTES: nat := 1024 * 1024
  const PAGE_TAIL: seq<Byte> := [93, 125]
  const COMMA: seq<Byte> := [44]

  datatype Parsed<V> = Parsed(entries: seq<Entry<V>>) | Malformed

  /**
   * How one table's rollups or receipts are written: a valid table name, the JSON head, one
   * entry's JSON, the entry checks, its resident charge, and the JSON parser.
   */
  datatype Format<!V> = Format(
    h: Hasher,
    named: bool,
    prefix: seq<Byte>,
    entry: Entry<V> -> seq<Byte>,
    accepts: Entry<V> -> bool,
    resident: Entry<V> -> nat,
    parse: seq<Byte> -> Parsed<V>)
  {
    function Overhead(): (r: nat) {
      FRAME_BYTES + |prefix| + 2
    }

    function Size(e: Entry<V>): (r: nat) {
      |entry(e)|
    }
  }

  datatype Limits = Limits(pageBytes: nat, maxBytes: nat, maxEntries: nat) {
    predicate Valid() {
      4096 <= pageBytes <= MAX_PAGE_BYTES && maxEntries > 0
    }
  }

  datatype PageRef = PageRef(digest: Digest, bytes: nat, entries: nat)

  datatype PageSet = PageSet(pages: seq<PageRef>, entries: nat, encodedBytes: nat)

  // ------------------------------------------------------------ greedy packing

  function Sum<V>(f: Format<V>, es: seq<Entry<V>>): (r: nat) {
    if es == [] then 0 else Sum(f, es[..|es| - 1]) + f.Size(es[|es| - 1])
  }

  /** Entry bytes with separators: what one page's payload takes. */
  function Payload<V>(f: Format<V>, es: seq<Entry<V>>): (r: nat) {
    if es == [] then 0 else Sum(f, es) + |es| - 1
  }

  function Capacity<V>(f: Format<V>, limits: Limits): (r: nat) {
    if limits.pageBytes > f.Overhead() then limits.pageBytes - f.Overhead() else 0
  }

  /** Fill each page until the next entry would overflow it. */
  function Pack<V>(f: Format<V>, cap: nat, es: seq<Entry<V>>): (r: seq<seq<Entry<V>>>)
    ensures forall i :: 0 <= i < |r| ==> r[i] != []
    ensures es != [] ==> r != []
  {
    if es == [] then []
    else
      var n := |es| - 1;
      var rest := Pack(f, cap, es[..n]);
      if rest == [] || Payload(f, rest[|rest| - 1]) + 1 + f.Size(es[n]) > cap then rest + [[es[n]]]
      else rest[|rest| - 1 := rest[|rest| - 1] + [es[n]]]
  }

  function Flatten<V>(pages: seq<seq<Entry<V>>>): (r: seq<Entry<V>>) {
    if pages == [] then [] else Flatten(pages[..|pages| - 1]) + pages[|pages| - 1]
  }

  function Total<V>(f: Format<V>, pages: seq<seq<Entry<V>>>): (r: nat) {
    if pages == [] then 0 else Total(f, pages[..|pages| - 1]) + Payload(f, pages[|pages| - 1])
  }

  /** No entry is lost, reordered or split. */
  lemma {:induction false} PackFlattens<V>(f: Format<V>, cap: nat, es: seq<Entry<V>>)
    ensures Flatten(Pack(f, cap, es)) == es
  {
    hide Payload;
    if es != [] {
      var n := |es| - 1;
      PackFlattens(f, cap, es[..n]);
      var rest, all := Pack(f, cap, es[..n]), Pack(f, cap, es);
      assert es == es[..n] + [es[n]];
      if |all| > |rest| {
        assert all[..|rest|] == rest;
      } else {
        var m := |rest| - 1;
        assert all[..m] == rest[..m];
        assert Flatten(all) == Flatten(rest[..m]) + (rest[m] + [es[n]]);
        assert Flatten(rest) == Flatten(rest[..m]) + rest[m];
      }
    }
  }

  lemma PayloadSnoc<V>(f: Format<V>, page: seq<Entry<V>>, e: Entry<V>)
    ensures Payload(f, page + [e]) == if page == [] then f.Size(e) else Payload(f, page) + 1 + f.Size(e)
  {
    assert (page + [e])[..|page|] == page;
    if page == [] {
      assert Sum(f, []) == 0;
    }
  }

  /** Every page fits, and two neighbours together would not have fitted one page. */
  ghost predicate Packed<V>(f: Format<V>, cap: nat, pages: seq<seq<Entry<V>>>) {
    && (forall i :: 0 <= i < |pages| ==> Payload(f, pages[i]) <= cap)
    && (forall i :: 0 < i < |pages| ==> Payload(f, pages[i - 1]) + 1 + Payload(f, pages[i]) > cap)
  }

  lemma {:induction false} PackIsPacked<V>(f: Format<V>, cap: nat, es: seq<Entry<V>>)
    requires forall i :: 0 <= i < |es| ==> f.Size(es[i]) <= cap
    ensures Packed(f, cap, Pack(f, cap, es))
  {
    hide Payload;
    if es != [] {
      var n := |es| - 1;
      PackIsPacked(f, cap, es[..n]);
      var rest, all := Pack(f, cap, es[..n]), Pack(f, cap, es);
      PayloadSnoc(f, [], es[n]);
      assert [] + [es[n]] == [es[n]];
      if |all| == |rest| {
        var m := |rest| - 1;
        PayloadSnoc(f, rest[m], es[n]);
        assert forall i :: 0 <= i < m ==> all[i] == rest[i];
      }
    }
  }

  /** All payloads plus one separator between neighbours make up the whole entry list. */
  lemma {:induction false} TotalIs<V>(f: Format<V>, pages: seq<seq<Entry<V>>>)
    requires forall i :: 0 <= i < |pages| ==> pages[i] != []
    ensures pages != [] ==> Flatten(pages) != []
    ensures pages != [] ==> Total(f, pages) + |pages| - 1 == Payload(f, Flatten(pages))
  {
    if |pages| == 1 {
      assert Flatten(pages[..0]) == [];
      assert [] + pages[0] == pages[0];
      assert Total(f, pages[..0]) == 0;
    } else if |pages| > 1 {
      var n := |pages| - 1;
      TotalIs(f, pages[..n]);
      SumConcat(f, Flatten(pages[..n]), pages[n]);
    }
  }

  lemma {:induction false} SumConcat<V>(f: Format<V>, a: seq<Entry<V>>, b: seq<Entry<V>>)
    ensures Sum(f, a + b) == Sum(f, a) + Sum(f, b)
  {
    if b == [] {
      assert a + b == a;
    } else {
      var n := |b| - 1;
      SumConcat(f, a, b[..n]);
      assert (a + b)[..|a| + n] == a + b[..n];
    }
  }

  /** Pairs of neighbouring pages overfill a page, so half the pages already use up the payload. */
  lemma {:induction false} PairsFill<V>(f: Format<V>, cap: nat, pages: seq<seq<Entry<V>>>)
    requires Packed(f, cap, pages)
    ensures pages != [] ==> cap * (|pages| / 2) <= Total(f, pages) + |pages| - 1
  {
    hide Payload;
    if |pages| >= 3 {
      var n := |pages| - 1;
      var init := pages[..n - 1];
      assert pages[..n][..n - 1] == init;
      PairsFill(f, cap, init);
      assert |pages| / 2 == |init| / 2 + 1;
      assert cap * (|pages| / 2) == cap * (|init| / 2) + cap;
    } else if |pages| == 2 {
      assert pages[..1][..0] == [];
      assert Total(f, pages) == Total(f, pages[..1]) + Payload(f, pages[1]);
    }
  }

  /** The page count the accounting reserves is enough for the pages greedy packing emits. */
  function PageBound(body: nat, entries: nat, cap: nat): (r: nat)
    requires cap > 0
  {
    var pairs := 2 * body / cap + 1;
    if entries < pairs then entries else pairs
  }

  lemma PagesWithinBound<V>(f: Format<V>, cap: nat, es: seq<Entry<V>>)
    requires cap > 0 && forall i :: 0 <= i < |es| ==> f.Size(es[i]) <= cap
    ensures |Pack(f, cap, es)| <= PageBound(Payload(f, es), |es|, cap)
  {
    hide Payload, Pack;
    var pages := Pack(f, cap, es);
    PackFlattens(f, cap, es);
    PackIsPacked(f, cap, es);
    TotalIs(f, pages);
    PairsFill(f, cap, pages);
    FlattenCount(pages);
    if pages != [] {
      HalfBound(Payload(f, es), cap, |pages|);
    }
  }

  lemma HalfBound(body: nat, cap: nat, k: nat)
    requires cap > 0 && cap * (k / 2) <= body
    ensures k <= 2 * body / cap + 1
  {
    var q := 2 * body / cap;
    assert 2 * body < cap * (q + 1) by { Quotient(2 * body, cap); }
    if k > q + 1 {
      assert k / 2 * 2 >= q + 1;
      Monotone(cap, q + 1, k / 2 * 2);
      assert cap * (k / 2 * 2) == 2 * (cap * (k / 2)) by { Regroup(cap, k / 2); }
    }
  }

  lemma Quotient(x: nat, cap: nat)
    requires cap > 0
    ensures x < cap * (x / cap + 1)
  {
  }

  lemma Monotone(cap: nat, a: nat, b: nat)
    requires a <= b
    ensures cap * a <= cap * b
  {
  }

  lemma Regroup(cap: nat, k: nat)
    ensures cap * (k * 2) == 2 * (cap * k)
  {
  }

  lemma {:induction false} FlattenCount<V>(pages: seq<seq<Entry<V>>>)
    requires forall i :: 0 <= i < |pages| ==> pages[i] != []
    ensures |pages| <= |Flatten(pages)|
  {
    if pages != [] {
      FlattenCount(pages[..|pages| - 1]);
    }
  }

  // ------------------------------------------------------------ what the accounting reserves

  function EncodedSize<V>(f: Format<V>, pages: seq<seq<Entry<V>>>): (r: nat) {
    if pages == [] then 0 else EncodedSize(f, pages[..|pages| - 1]) + f.Overhead() + Payload(f, pages[|pages| - 1])
  }

  lemma {:induction false} EncodedIsTotal<V>(f: Format<V>, pages: seq<seq<Entry<V>>>)
    ensures EncodedSize(f, pages) == Total(f, pages) + |pages| * f.Overhead()
  {
    hide Payload;
    if pages != [] {
      var n := |pages| - 1;
      EncodedIsTotal(f, pages[..n]);
      assert (n + 1) * f.Overhead() == n * f.Overhead() + f.Overhead();
    }
  }

  /** The size of the same entries as one JSON object, from which the accounting works. */
  function MapJson<V>(f: Format<V>, es: seq<Entry<V>>): (r: int) {
    2 + Sum(f, es) - 2 * |es| + if es == [] then 0 else |es| - 1
  }

  /** Pages and encoded bytes of a nonempty set never exceed what `bound` reserves from the map's JSON size. */
  lemma WithinReservation<V>(f: Format<V>, limits: Limits, es: seq<Entry<V>>)
    requires es != [] && Capacity(f, limits) > 0
    requires forall i :: 0 <= i < |es| ==> f.Size(es[i]) <= Capacity(f, limits)
    ensures var pages, body := Pack(f, Capacity(f, limits), es), MapJson(f, es) - 2 + 2 * |es|;
            && body >= 0
            && |pages| <= PageBound(body, |es|, Capacity(f, limits))
            && EncodedSize(f, pages) <= body + PageBound(body, |es|, Capacity(f, limits)) * f.Overhead()
  {
    hide Pack;
    var cap := Capacity(f, limits);
    var pages := Pack(f, cap, es);
    PagesWithinBound(f, cap, es);
    PackFlattens(f, cap, es);
    TotalIs(f, pages);
    EncodedIsTotal(f, pages);
    assert MapJson(f, es) - 2 + 2 * |es| == Payload(f, es);
    Monotone(f.Overhead(), |pages|, PageBound(Payload(f, es), |es|, cap));
  }

  // ------------------------------------------------------------ page bytes

  function Join<V>(f: Format<V>, es: seq<Entry<V>>): (r: seq<Byte>)
    ensures |r| == Payload(f, es)
  {
    if es == [] then []
    else
      var n := |es| - 1;
      PayloadSnoc(f, es[..n], es[n]);
      assert es == es[..n] + [es[n]];
      Join(f, es[..n]) + (if n > 0 then COMMA else []) + f.entry(es[n])
  }

  function Framed<V>(f: Format<V>, payload: seq<Byte>): (r: seq<Byte>)
    ensures |r| == f.Overhead() + |payload|
  {
    var body := MAGIC + f.prefix + payload + PAGE_TAIL;
    body + f.h(body)
  }

  function RefOf<V>(f: Format<V>, page: seq<Entry<V>>): (r: PageRef) {
    var bytes := Framed(f, Join(f, page));
    PageRef(f.h(bytes), |bytes|, |page|)
  }

  function Refs<V>(f: Format<V>, pages: seq<seq<Entry<V>>>): (r: seq<PageRef>)
    ensures |r| == |pages|
  {
    seq(|pages|, i requires 0 <= i < |pages| => RefOf(f, pages[i]))
  }

  function SetOf<V>(f: Format<V>, pages: seq<seq<Entry<V>>>): (r: PageSet) {
    PageSet(Refs(f, pages), |Flatten(pages)|, EncodedSize(f, pages))
  }

  function Store<V>(f: Format<V>, pages: seq<seq<Entry<V>>>): (r: seq<seq<Byte>>)
    ensures |r| == |pages|
  {
    seq(|pages|, i requires 0 <= i < |pages| => Framed(f, Join(f, pages[i])))
  }

  predicate Distinct(refs: seq<PageRef>) {
    forall i, j :: 0 <= i < j < |refs| ==> refs[i].digest != refs[j].digest
  }

  /** When encoding succeeds: valid limits, acceptable entries that fit a page, and the total budgets. */
  predicate Encodable<V>(f: Format<V>, limits: Limits, es: seq<Entry<V>>) {
    var pages := Pack(f, Capacity(f, limits), es);
    && limits.Valid() && f.named
    && (es != [] ==>
          && limits.pageBytes * 4 <= limits.maxBytes && |es| <= limits.maxEntries
          && (forall i :: 0 <= i < |es| ==> f.accepts(es[i]) && f.Size(es[i]) <= Capacity(f, limits))
          && EncodedSize(f, pages) <= limits.maxBytes
          && Distinct(Refs(f, pages)))
  }

  datatype Encoding = Encoding(refs: PageSet, store: seq<seq<Byte>>) | Refused(reason: string)

  lemma SnocPages<V>(f: Format<V>, pages: seq<seq<Entry<V>>>, page: seq<Entry<V>>)
    ensures Store(f, pages + [page]) == Store(f, pages) + [Framed(f, Join(f, page))]
    ensures Refs(f, pages + [page]) == Refs(f, pages) + [RefOf(f, page)]
    ensures EncodedSize(f, pages + [page]) == EncodedSize(f, pages) + f.Overhead() + Payload(f, page)
    ensures Flatten(pages + [page]) == Flatten(pages) + page
  {
    hide Framed, Join, Payload;
    assert (pages + [page])[..|pages|] == pages;
  }

  /** Encoding more entries never takes fewer bytes. */
  lemma {:induction false} SizeGrows<V>(f: Format<V>, cap: nat, es: seq<Entry<V>>, i: nat)
    requires i <= |es|
    ensures EncodedSize(f, Pack(f, cap, es[..i])) <= EncodedSize(f, Pack(f, cap, es))
  {
    hide Payload;
    if i == |es| {
      assert es[..i] == es;
    } else {
      var n := |es| - 1;
      SizeGrows(f, cap, es[..n], i);
      assert es[..n][..i] == es[..i];
      var rest, all := Pack(f, cap, es[..n]), Pack(f, cap, es);
      if |all| > |rest| {
        SnocPages(f, rest, [es[n]]);
      } else {
        var m := |rest| - 1;
        assert all[..m] == rest[..m];
        PayloadSnoc(f, rest[m], es[n]);
      }
    }
  }

  /** What packing `i + 1` entries does to the closed pages and the open one. */
  lemma PackNext<V>(f: Format<V>, cap: nat, es: seq<Entry<V>>, i: nat, closed: seq<seq<Entry<V>>>, open: seq<Entry<V>>)
    requires i < |es|
    requires (if i == 0 then closed == [] && open == [] else open != [] && Pack(f, cap, es[..i]) == closed + [open])
    ensures Pack(f, cap, es[..i + 1])
         == if open != [] && Payload(f, open) + 1 + f.Size(es[i]) > cap then closed + [open] + [[es[i]]]
            else closed + [open + [es[i]]]
  {
    hide Payload;
    assert es[..i + 1][..i] == es[..i];
    if i == 0 {
      assert es[..1] == [es[0]];
      assert [] + [es[0]] == [es[0]];
    }
  }

  lemma FlushedSet<V>(f: Format<V>, pages: seq<seq<Entry<V>>>, page: seq<Entry<V>>)
    ensures var all, bytes := SetOf(f, pages), Framed(f, Join(f, page));
            && SetOf(f, pages + [page])
               == PageSet(all.pages + [PageRef(f.h(bytes), |bytes|, |page|)], all.entries + |page|,
                          all.encodedBytes + |bytes|)
            && Store(f, pages + [page]) == Store(f, pages) + [bytes]
            && EncodedSize(f, pages + [page]) == all.encodedBytes + |bytes|
  {
    hide Framed, Join, Payload;
    SnocPages(f, pages, page);
  }

  lemma RefusedEntry<V>(f: Format<V>, limits: Limits, es: seq<Entry<V>>, i: nat)
    requires i < |es| && (i >= limits.maxEntries || !f.accepts(es[i]) || f.Size(es[i]) > Capacity(f, limits))
    ensures !Encodable(f, limits, es)
  {
  }

  lemma RefusedSize<V>(f: Format<V>, limits: Limits, es: seq<Entry<V>>, i: nat)
    requires i <= |es| && es != [] && EncodedSize(f, Pack(f, Capacity(f, limits), es[..i])) > limits.maxBytes
    ensures !Encodable(f, limits, es)
  {
    hide Pack;
    SizeGrows(f, Capacity(f, limits), es, i);
  }

  lemma EncodableIs<V>(f: Format<V>, limits: Limits, es: seq<Entry<V>>, pages: seq<seq<Entry<V>>>)
    requires limits.Valid() && f.named && es != [] && limits.pageBytes * 4 <= limits.maxBytes
    requires |es| <= limits.maxEntries
    requires forall k :: 0 <= k < |es| ==> f.accepts(es[k]) && f.Size(es[k]) <= Capacity(f, limits)
    requires pages == Pack(f, Capacity(f, limits), es) && EncodedSize(f, pages) <= limits.maxBytes
    ensures Encodable(f, limits, es) <==> Distinct(SetOf(f, pages).pages)
  {
    hide Pack, EncodedSize, Flatten, RefOf;
  }

  /** The greedy encoder. */
  method EncodeSet<V>(f: Format<V>, limits: Limits, es: seq<Entry<V>>) returns (r: Encoding)
    ensures r.Encoding? <==> Encodable(f, limits, es)
    ensures r.Encoding? ==>
      var pages := Pack(f, Capacity(f, limits), es);
      r == Encoding(SetOf(f, pages), Store(f, pages))
  {
    if !limits.Valid() || !f.named {
      return Refused("invalid limits or table name");
    }
    if es == [] {
      NothingPacked(f, Capacity(f, limits));
      return Encoding(PageSet([], 0, 0), []);
    }
    if limits.pageBytes * 4 > limits.maxBytes {
      return Refused("derived encoding working budget exceeded");
    }
    r := EncodePages(f, limits, es);
  }

  /** Frame the open page and add it to the set, unless the encoded budget refuses it. */
  method FlushPage<V>(f: Format<V>, limits: Limits, ghost closed: seq<seq<Entry<V>>>, ghost open: seq<Entry<V>>,
                      payload: seq<Byte>, count: nat, index: PageSet, store: seq<seq<Byte>>)
    returns (ok: bool, all: PageSet, stored: seq<seq<Byte>>)
    requires payload == Join(f, open) && count == |open| && index == SetOf(f, closed) && store == Store(f, closed)
    ensures ok <==> EncodedSize(f, closed + [open]) <= limits.maxBytes
    ensures ok ==> all == SetOf(f, closed + [open]) && stored == Store(f, closed + [open])
  {
    hide Framed, Join, EncodedSize, SetOf, Store;
    FlushedSet(f, closed, open);
    var bytes := Framed(f, payload);
    if index.encodedBytes + |bytes| > limits.maxBytes {
      return false, index, store;
    }
    ok, stored := true, store + [bytes];
    all := PageSet(index.pages + [PageRef(f.h(bytes), |bytes|, count)], index.entries + count,
                   index.encodedBytes + |bytes|);
  }

  method EncodePages<V>(f: Format<V>, limits: Limits, es: seq<Entry<V>>) returns (r: Encoding)
    requires limits.Valid() && f.named && es != [] && limits.pageBytes * 4 <= limits.maxBytes
    ensures r.Encoding? <==> Encodable(f, limits, es)
    ensures r.Encoding? ==>
      var pages := Pack(f, Capacity(f, limits), es);
      r == Encoding(SetOf(f, pages), Store(f, pages))
  {
    hide Framed, Join, Payload, Pack, EncodedSize, Distinct, Encodable, SetOf, Store;
    var cap := Capacity(f, limits);
    var payload: seq<Byte>, count, index, store := [], 0, PageSet([], 0, 0), [];
    ghost var closed: seq<seq<Entry<V>>>, open: seq<Entry<V>> := [], [];
    NothingPacked(f, cap);
    for i := 0 to |es|
      invariant i <= limits.maxEntries
      invariant forall k :: 0 <= k < i ==> f.accepts(es[k]) && f.Size(es[k]) <= cap
      invariant if i == 0 then closed == [] && open == [] else open != [] && Pack(f, cap, es[..i]) == closed + [open]
      invariant payload == Join(f, open) && count == |open|
      invariant index == SetOf(f, closed) && store == Store(f, closed)
    {
      if i >= limits.maxEntries || !f.accepts(es[i]) || f.Size(es[i]) > cap {
        RefusedEntry(f, limits, es, i);
        return Refused("derived entry refused");
      }
      PackNext(f, cap, es, i, closed, open);
      assert [] + [es[i]] == [es[i]];
      var entry := f.entry(es[i]);
      if count > 0 && f.Overhead() + |payload| + 1 + |entry| > limits.pageBytes {
        var ok: bool;
        ok, index, store := FlushPage(f, limits, closed, open, payload, count, index, store);
        if !ok {
          RefusedSize(f, limits, es, i);
          return Refused("derived encoded byte budget exceeded");
        }
        closed, open, payload, count := closed + [open], [], [], 0;
        NothingPacked(f, cap);
      }
      JoinNext(f, open, es[i]);
      payload := payload + (if count > 0 then COMMA else []) + entry;
      count := count + 1;
      open := open + [es[i]];
    }
    assert es[..|es|] == es;
    var ok: bool;
    ok, index, store := FlushPage(f, limits, closed, open, payload, count, index, store);
    if !ok {
      RefusedSize(f, limits, es, |es|);
      return Refused("derived encoded byte budget exceeded");
    }
    EncodableIs(f, limits, es, closed + [open]);
    if !Distinct(index.pages) {
      return Refused("duplicate derived page");
    }
    r := Encoding(index, store);
  }

  lemma NothingPacked<V>(f: Format<V>, cap: nat)
    ensures Pack<V>(f, cap, []) == [] && Join<V>(f, []) == [] && EncodedSize<V>(f, []) == 0 && Flatten<V>([]) == []
    ensures SetOf<V>(f, []) == PageSet([], 0, 0) && Store<V>(f, []) == []
  {
  }

  lemma JoinNext<V>(f: Format<V>, page: seq<Entry<V>>, e: Entry<V>)
    ensures Join(f, page + [e]) == Join(f, page) + (if page != [] then COMMA else []) + f.entry(e)
  {
    assert (page + [e])[..|page|] == page;
  }

  // ------------------------------------------------------------ references in the root

  /** JSON bytes of one page reference: 64 hex digits and two counters between fixed text. */
  function RefJson(page: PageRef): (r: nat) {
    97 + Digits(page.bytes) + Digits(page.entries)
  }

  function RefsJson(refs: seq<PageRef>): (r: nat) {
    if refs == [] then 0 else RefsJson(refs[..|refs| - 1]) + (if |refs| > 1 then 1 else 0) + RefJson(refs[|refs| - 1])
  }

  /** JSON bytes a page set adds over the empty set. */
  function SetJsonGrowth(index: PageSet): (r: int) {
    RefsJson(index.pages) + Digits(index.entries) + Digits(index.encodedBytes) - 2
  }

  lemma {:induction false} RefsWithin(refs: seq<PageRef>)
    requires forall i :: 0 <= i < |refs| ==> refs[i].bytes <= U64_MAX && refs[i].entries <= U64_MAX
    ensures RefsJson(refs) <= 192 * |refs|
  {
    if refs != [] {
      var n := |refs| - 1;
      RefsWithin(refs[..n]);
      WordDigits(refs[n].bytes);
      WordDigits(refs[n].entries);
    }
  }

  /** The root bytes a set of pages needs are within 192 bytes a page plus 38. */
  lemma RootWithinReservation(index: PageSet)
    requires forall i :: 0 <= i < |index.pages| ==> index.pages[i].bytes <= U64_MAX && index.pages[i].entries <= U64_MAX
    requires index.entries <= U64_MAX && index.encodedBytes <= U64_MAX
    ensures SetJsonGrowth(index) <= 192 * |index.pages| + 38
  {
    RefsWithin(index.pages);
    WordDigits(index.entries);
    WordDigits(index.encodedBytes);
  }

  // ------------------------------------------------------------ hydration

  datatype Hydration<V> = Hydration(rows: seq<Entry<V>>, resident: nat) | Rejected(reason: string)

  /** `PageSet::validate`. */
  predicate SetValid(index: PageSet, limits: Limits) {
    && limits.Valid()
    && index.entries <= limits.maxEntries && index.encodedBytes <= limits.maxBytes
    && (forall i :: 0 <= i < |index.pages| ==> RefValid(index.pages[i]))
    && Distinct(index.pages)
    && SumEntries(index.pages) == index.entries && SumBytes(index.pages) == index.encodedBytes
  }

  predicate RefValid(page: PageRef) {
    FRAME_BYTES <= page.bytes <= MAX_PAGE_BYTES && 0 < page.entries <= page.bytes
  }

  function SumEntries(refs: seq<PageRef>): (r: nat) {
    if refs == [] then 0 else SumEntries(refs[..|refs| - 1]) + refs[|refs| - 1].entries
  }

  function SumBytes(refs: seq<PageRef>): (r: nat) {
    if refs == [] then 0 else SumBytes(refs[..|refs| - 1]) + refs[|refs| - 1].bytes
  }

  /** `PageRef::verify`: size, content address, magic and checksum. */
  predicate Verified<V>(f: Format<V>, page: PageRef, bytes: seq<Byte>) {
    && RefValid(page) && |bytes| == page.bytes && f.h(bytes) == page.digest
    && bytes[..8] == MAGIC && f.h(bytes[..|bytes| - 32]) == bytes[|bytes| - 32..]
  }

  /** Admit one decoded entry after the rows so far. */
  function TakeEntry<V>(f: Format<V>, limits: Limits, sofar: Hydration<V>, e: Entry<V>): (r: Hydration<V>) {
    if sofar.Rejected? then sofar
    else if sofar.rows != []
        && !Less(sofar.rows[|sofar.rows| - 1].key, e.key) then Rejected("duplicate or unordered derived entry")
    else if !f.accepts(e) then Rejected("invalid derived entry")
    else if sofar.resident + f.resident(e) > limits.maxBytes then Rejected("derived resident budget exceeded")
    else Hydration(sofar.rows + [e], sofar.resident + f.resident(e))
  }

  function TakeEntries<V>(f: Format<V>, limits: Limits, sofar: Hydration<V>, es: seq<Entry<V>>): (r: Hydration<V>) {
    if es == [] then sofar
    else TakeEntry(f, limits, TakeEntries(f, limits, sofar, es[..|es| - 1]), es[|es| - 1])
  }

  function TakePage<V>(f: Format<V>, limits: Limits, sofar: Hydration<V>, page: PageRef,
                       bytes: seq<Byte>): (r: Hydration<V>) {
    if sofar.Rejected? then sofar
    else if sofar.resident + 64 * page.bytes > limits.maxBytes
        then Rejected("derived hydration working budget exceeded")
    else if !Verified(f, page, bytes) then Rejected("derived page verification failed")
    else
      var parsed := f.parse(bytes[8..|bytes| - 32]);
      if parsed.Malformed? || |parsed.entries| != page.entries then Rejected("derived page mismatch")
      else TakeEntries(f, limits, sofar, parsed.entries)
  }

  /** The state after the first `k` pages. */
  function HydrateTo<V>(f: Format<V>, limits: Limits, index: PageSet, load: Digest -> seq<Byte>,
                        k: nat): (r: Hydration<V>)
    requires k <= |index.pages|
  {
    if k == 0 then Hydration([], 0)
    else TakePage(f, limits, HydrateTo(f, limits, index, load, k - 1), index.pages[k - 1],
                  load(index.pages[k - 1].digest))
  }

  function Hydrate<V>(f: Format<V>, limits: Limits, index: PageSet, load: Digest -> seq<Byte>): (r: Hydration<V>) {
    if !f.named || !SetValid(index, limits) then Rejected("invalid derived page set")
    else HydrateTo(f, limits, index, load, |index.pages|)
  }

  /** Whatever hydration returns is an ordered map of acceptable entries within the resident budget. */
  ghost predicate Sound<V>(f: Format<V>, limits: Limits, r: Hydration<V>) {
    r.Hydration? ==>
      && Sorted(r.rows) && (forall i :: 0 <= i < |r.rows| ==> f.accepts(r.rows[i]))
      && r.resident == Resident(f, r.rows) && (r.rows != [] ==> r.resident <= limits.maxBytes)
  }

  lemma TakeEntrySound<V>(f: Format<V>, limits: Limits, sofar: Hydration<V>, e: Entry<V>)
    requires Sound(f, limits, sofar)
    ensures Sound(f, limits, TakeEntry(f, limits, sofar, e))
  {
    hide Less;
    if sofar.Hydration? {
      assert (sofar.rows + [e])[..|sofar.rows|] == sofar.rows;
    }
  }

  method LoadPage<V>(f: Format<V>, limits: Limits, sofar: Hydration<V>, page: PageRef, bytes: seq<Byte>)
    returns (r: Hydration<V>)
    requires Sound(f, limits, sofar)
    ensures r == TakePage(f, limits, sofar, page, bytes) && Sound(f, limits, r)
  {
    hide Verified, TakeEntry, Sound;
    if sofar.Rejected? {
      return sofar;
    }
    if sofar.resident + 64 * page.bytes > limits.maxBytes {
      r := Rejected("derived hydration working budget exceeded");
      RejectedSound(f, limits, r);
      return;
    }
    if !Verified(f, page, bytes) {
      r := Rejected("derived page verification failed");
      RejectedSound(f, limits, r);
      return;
    }
    VerifiedSize(f, page, bytes);
    var parsed := f.parse(bytes[8..|bytes| - 32]);
    if parsed.Malformed? || |parsed.entries| != page.entries {
      r := Rejected("derived page mismatch");
      RejectedSound(f, limits, r);
      return;
    }
    r := sofar;
    for i := 0 to |parsed.entries|
      invariant r == TakeEntries(f, limits, sofar, parsed.entries[..i]) && Sound(f, limits, r)
    {
      assert parsed.entries[..i + 1][..i] == parsed.entries[..i];
      TakeEntrySound(f, limits, r, parsed.entries[i]);
      r := TakeEntry(f, limits, r, parsed.entries[i]);
    }
    assert parsed.entries[..|parsed.entries|] == parsed.entries;
  }

  lemma RejectedSound<V>(f: Format<V>, limits: Limits, r: Hydration<V>)
    requires r.Rejected?
    ensures Sound(f, limits, r)
  {
  }

  /** The loop over pages. */
  method HydrateSet<V>(f: Format<V>, limits: Limits, index: PageSet, load: Digest -> seq<Byte>)
    returns (r: Hydration<V>)
    ensures r == Hydrate(f, limits, index, load) && Sound(f, limits, r)
  {
    hide SetValid, TakePage;
    if !f.named || !SetValid(index, limits) {
      return Rejected("invalid derived page set");
    }
    r := Hydration([], 0);
    for k := 0 to |index.pages|
      invariant r == HydrateTo(f, limits, index, load, k) && Sound(f, limits, r)
    {
      r := LoadPage(f, limits, r, index.pages[k], load(index.pages[k].digest));
    }
  }

  lemma VerifiedSize<V>(f: Format<V>, page: PageRef, bytes: seq<Byte>)
    requires Verified(f, page, bytes)
    ensures |bytes| >= FRAME_BYTES
  {
  }

  function Resident<V>(f: Format<V>, es: seq<Entry<V>>): (r: nat) {
    if es == [] then 0 else Resident(f, es[..|es| - 1]) + f.resident(es[|es| - 1])
  }

  // ------------------------------------------------------------ round trip

  /** An entry is a two-element JSON array, and the parser reads back what the writer printed. */
  ghost predicate Faithful<V(!new)>(f: Format<V>) {
    && (forall e: Entry<V> :: |f.entry(e)| >= 3)
    && (forall page: seq<Entry<V>> :: page != [] ==> f.parse(f.prefix + Join(f, page) + PAGE_TAIL) == Parsed(page))
  }

  /** The hydration budgets: what is resident so far plus 64 bytes of work per encoded byte. */
  ghost predicate HydrationFits<V>(f: Format<V>, limits: Limits, pages: seq<seq<Entry<V>>>) {
    && (forall k :: 0 <= k < |pages| ==> PageFits(f, limits, pages, k))
    && Resident(f, Flatten(pages)) <= limits.maxBytes
  }

  ghost predicate PageFits<V>(f: Format<V>, limits: Limits, pages: seq<seq<Entry<V>>>, k: nat)
    requires k < |pages|
  {
    Resident(f, Flatten(pages[..k])) + 64 * (f.Overhead() + Payload(f, pages[k])) <= limits.maxBytes
  }

  lemma {:induction false} ResidentConcat<V>(f: Format<V>, a: seq<Entry<V>>, b: seq<Entry<V>>)
    ensures Resident(f, a + b) == Resident(f, a) + Resident(f, b)
  {
    if b == [] {
      assert a + b == a;
    } else {
      var n := |b| - 1;
      ResidentConcat(f, a, b[..n]);
      assert (a + b)[..|a| + n] == a + b[..n];
    }
  }

  /** Admitting entries in order succeeds exactly when all of them fit. */
  lemma {:induction false} TakeAll<V>(f: Format<V>, limits: Limits, rows: seq<Entry<V>>, es: seq<Entry<V>>)
    requires Sorted(rows + es) && forall i :: 0 <= i < |es| ==> f.accepts(es[i])
    ensures var r := TakeEntries(f, limits, Hydration(rows, Resident(f, rows)), es);
            && (r.Hydration? <==> es == [] || Resident(f, rows + es) <= limits.maxBytes)
            && (r.Hydration? ==> r == Hydration(rows + es, Resident(f, rows + es)))
  {
    hide Less, Sorted, Resident;
    if es == [] {
      assert rows + es == rows;
    } else {
      var n := |es| - 1;
      var init := rows + es[..n];
      assert rows + es == init + [es[n]];
      SortedInit(f, init, es[n]);
      TakeAll(f, limits, rows, es[..n]);
    }
  }

  lemma SortedInit<V>(f: Format<V>, init: seq<Entry<V>>, e: Entry<V>)
    requires Sorted(init + [e])
    ensures Sorted(init) && (init != [] ==> Less(init[|init| - 1].key, e.key))
    ensures Resident(f, init + [e]) == Resident(f, init) + f.resident(e)
  {
    hide Less;
    var all := init + [e];
    assert all[..|init|] == init;
    assert forall i :: 0 <= i < |init| ==> all[i] == init[i];
    if init != [] {
      assert Less(all[|init| - 1].key, all[|init|].key);
    }
  }

  lemma PageVerifies<V>(f: Format<V>, limits: Limits, page: seq<Entry<V>>)
    requires limits.Valid() && page != [] && f.Overhead() + Payload(f, page) <= limits.pageBytes
    ensures var ref, bytes := RefOf(f, page), Framed(f, Join(f, page));
            && Verified(f, ref, bytes) && ref.bytes == f.Overhead() + Payload(f, page) && ref.entries == |page|
            && bytes[8..|bytes| - 32] == f.prefix + Join(f, page) + PAGE_TAIL
  {
    hide Join, Payload;
    var body := MAGIC + f.prefix + Join(f, page) + PAGE_TAIL;
    var bytes := body + f.h(body);
    assert bytes[..|bytes| - 32] == body && bytes[|bytes| - 32..] == f.h(body);
    assert bytes[..8] == MAGIC;
    assert body[8..] == f.prefix + Join(f, page) + PAGE_TAIL;
    EntriesFit(f, page);
  }

  lemma EntriesFit<V>(f: Format<V>, page: seq<Entry<V>>)
    requires page != []
    ensures |page| - 1 <= Payload(f, page)
  {
  }

  lemma {:induction false} SetTotals<V>(f: Format<V>, pages: seq<seq<Entry<V>>>)
    ensures SumEntries(Refs(f, pages)) == |Flatten(pages)| && SumBytes(Refs(f, pages)) == EncodedSize(f, pages)
  {
    hide Join, Payload, Framed;
    if pages != [] {
      var n := |pages| - 1;
      SetTotals(f, pages[..n]);
      assert pages == pages[..n] + [pages[n]];
      SnocPages(f, pages[..n], pages[n]);
      assert Refs(f, pages)[..n] == Refs(f, pages[..n]);
    }
  }

  /** The set an encoding returns passes validation. */
  lemma EncodedSetValid<V(!new)>(f: Format<V>, limits: Limits, es: seq<Entry<V>>)
    requires Encodable(f, limits, es) && Faithful(f)
    ensures var pages := Pack(f, Capacity(f, limits), es); SetValid(SetOf(f, pages), limits)
    ensures var pages := Pack(f, Capacity(f, limits), es);
            forall k :: 0 <= k < |pages| ==> f.Overhead() + Payload(f, pages[k]) <= limits.pageBytes
  {
    hide Join, Payload, Framed, Pack, Distinct, Flatten;
    var cap := Capacity(f, limits);
    var pages := Pack(f, cap, es);
    SetTotals(f, pages);
    PackFlattens(f, cap, es);
    if es == [] {
      NothingPacked(f, cap);
      NoRefs();
    } else {
      PackIsPacked(f, cap, es);
      assert |f.entry(es[0])| >= 3;
      forall k | 0 <= k < |pages| ensures RefValid(Refs(f, pages)[k]) {
        PageVerifies(f, limits, pages[k]);
      }
    }
  }

  lemma NoRefs()
    ensures Distinct([]) && SumEntries([]) == 0 && SumBytes([]) == 0
  {
  }

  /** Hydrating the first `k` pages gives back their entries, as long as the budgets hold. */
  lemma {:induction false} HydratePages<V(!new)>(f: Format<V>, limits: Limits, pages: seq<seq<Entry<V>>>,
                                                 load: Digest -> seq<Byte>, k: nat)
    requires Faithful(f) && limits.Valid() && k <= |pages| && Sorted(Flatten(pages))
    requires forall i :: 0 <= i < |pages| ==> PageReady(f, limits, pages[i], load)
    ensures var r := HydrateTo(f, limits, SetOf(f, pages), load, k);
            var rows := Flatten(pages[..k]);
            && (r.Hydration? <==> (forall i :: 0 <= i < k ==> PageFits(f, limits, pages, i))
                                  && (k > 0 ==> Resident(f, rows) <= limits.maxBytes))
            && (r.Hydration? ==> r == Hydration(rows, Resident(f, rows)))
  {
    hide Join, Payload, Framed, TakePage, Sorted, Resident, RefOf, EncodedSize, Faithful, PageFits, PageReady;
    if k > 0 {
      var n := k - 1;
      HydratePages(f, limits, pages, load, n);
      var rows := Flatten(pages[..n]);
      assert pages[..k][..n] == pages[..n];
      assert Flatten(pages[..k]) == rows + pages[n];
      ResidentConcat(f, rows, pages[n]);
      FlattenPrefix(pages, k);
      HydratePage(f, limits, rows, pages, n, load);
      var ref := RefOf(f, pages[n]);
      StaysRejected(f, limits, HydrateTo(f, limits, SetOf(f, pages), load, n), ref, load(ref.digest));
    } else {
      NothingResident(f);
    }
  }

  lemma StaysRejected<V>(f: Format<V>, limits: Limits, sofar: Hydration<V>, page: PageRef, bytes: seq<Byte>)
    ensures sofar.Rejected? ==> TakePage(f, limits, sofar, page, bytes).Rejected?
  {
  }

  lemma NothingResident<V>(f: Format<V>)
    ensures Resident<V>(f, []) == 0
  {
  }

  /** A page is in the store under its digest, fits, and holds acceptable entries. */
  ghost predicate PageReady<V>(f: Format<V>, limits: Limits, page: seq<Entry<V>>, load: Digest -> seq<Byte>) {
    && page != [] && f.Overhead() + Payload(f, page) <= limits.pageBytes
    && (forall i :: 0 <= i < |page| ==> f.accepts(page[i]))
    && load(RefOf(f, page).digest) == Framed(f, Join(f, page))
  }

  lemma HydratePage<V(!new)>(f: Format<V>, limits: Limits, rows: seq<Entry<V>>, pages: seq<seq<Entry<V>>>, n: nat,
                             load: Digest -> seq<Byte>)
    requires Faithful(f) && limits.Valid() && n < |pages| && rows == Flatten(pages[..n])
    requires Sorted(rows + pages[n]) && PageReady(f, limits, pages[n], load)
    ensures var ref := RefOf(f, pages[n]);
            var r := TakePage(f, limits, Hydration(rows, Resident(f, rows)), ref, load(ref.digest));
            && (r.Hydration? <==> PageFits(f, limits, pages, n) && Resident(f, rows + pages[n]) <= limits.maxBytes)
            && (r.Hydration? ==> r == Hydration(rows + pages[n], Resident(f, rows + pages[n])))
  {
    hide Join, Payload, Framed, Verified, TakeEntries, Less, Flatten, Sorted;
    PageVerifies(f, limits, pages[n]);
    TakeAll(f, limits, rows, pages[n]);
    var bytes := Framed(f, Join(f, pages[n]));
    assert f.parse(f.prefix + Join(f, pages[n]) + PAGE_TAIL) == Parsed(pages[n]);
  }

  lemma {:induction false} FlattenPrefix<V>(pages: seq<seq<Entry<V>>>, k: nat)
    requires k <= |pages| && Sorted(Flatten(pages))
    ensures Flatten(pages[..k]) <= Flatten(pages) && Sorted(Flatten(pages[..k]))
  {
    hide Less;
    if k == |pages| {
      assert pages[..k] == pages;
    } else {
      var n := |pages| - 1;
      assert Flatten(pages[..n]) <= Flatten(pages);
      FlattenPrefix(pages[..n], k);
      assert pages[..n][..k] == pages[..k];
    }
  }

  /**
   * Encode then hydrate: the store gives back exactly the map that was encoded, and hydration is
   * refused exactly when its resident and working budgets do not cover those pages.
   */
  lemma RoundTrip<V(!new)>(f: Format<V>, limits: Limits, es: seq<Entry<V>>, load: Digest -> seq<Byte>)
    requires Faithful(f) && Sorted(es) && Encodable(f, limits, es)
    requires var pages := Pack(f, Capacity(f, limits), es);
             forall i :: 0 <= i < |pages| ==> load(Refs(f, pages)[i].digest) == Store(f, pages)[i]
    ensures var pages := Pack(f, Capacity(f, limits), es);
            var r := Hydrate(f, limits, SetOf(f, pages), load);
            && (r.Hydration? <==> HydrationFits(f, limits, pages))
            && (r.Hydration? ==> r.rows == es && r.resident == Resident(f, es))
  {
    hide Join, Payload, Framed, Verified, TakeEntries, Less, Pack, Faithful, SetValid, HydrateTo, PageFits;
    var pages := Pack(f, Capacity(f, limits), es);
    PackFlattens(f, Capacity(f, limits), es);
    EncodedSetValid(f, limits, es);
    AcceptedPages(f, limits, es);
    forall i | 0 <= i < |pages| ensures PageReady(f, limits, pages[i], load) {
      assert Refs(f, pages)[i] == RefOf(f, pages[i]) && Store(f, pages)[i] == Framed(f, Join(f, pages[i]));
    }
    HydratePages(f, limits, pages, load, |pages|);
    assert pages[..|pages|] == pages;
  }

  lemma AcceptedPages<V>(f: Format<V>, limits: Limits, es: seq<Entry<V>>)
    requires Encodable(f, limits, es)
    ensures var pages := Pack(f, Capacity(f, limits), es);
            forall i, j :: 0 <= i < |pages| && 0 <= j < |pages[i]| ==> f.accepts(pages[i][j])
  {
    hide Payload, Pack;
    var pages := Pack(f, Capacity(f, limits), es);
    PackFlattens(f, Capacity(f, limits), es);
    forall i, j | 0 <= i < |pages| && 0 <= j < |pages[i]| ensures pages[i][j] in es {
      InFlatten(pages, i, j);
    }
  }

  lemma {:induction false} InFlatten<V>(pages: seq<seq<Entry<V>>>, i: nat, j: nat)
    requires i < |pages| && j < |pages[i]|
    ensures pages[i][j] in Flatten(pages)
  {
    var n := |pages| - 1;
    if i < n {
      InFlatten(pages[..n], i, j);
    } else {
      assert Flatten(pages)[|Flatten(pages[..n])| + j] == pages[i][j];
    }
  }

  /** Projecting an update encodes exactly what encoding the updated map would. */
  lemma ProjectionIsExact<V>(f: Format<V>, limits: Limits, base: seq<Entry<V>>, updates: seq<Entry<V>>,
                             after: seq<Entry<V>>)
    requires Sorted(base) && Sorted(updates) && Sorted(after) && ToMap(after) == ToMap(base) + ToMap(updates)
    ensures Merge(base, updates) == after
    ensures Encodable(f, limits, Merge(base, updates)) == Encodable(f, limits, after)
  {
    MergeIsOverride(base, updates);
    OneListing(Merge(base, updates), after);
  }
}
