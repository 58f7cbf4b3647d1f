/** The journal's logical content, and reopening it after any torn last file or partial retirement. */
module JournalLog {
  import opened Common
  import opened Bytes
  import opened JournalFormat
  import opened JournalParser
  import opened JournalCut
  import opened JournalOpen

  /** The sequence after a segment's last record. */
  function EndOf(seg: Seg): (r: nat)
    ensures r >= seg.first
  {
    NextSeq(seg.first, seg.groups)
  }

  function PreviousId(log: seq<Seg>, i: nat): (r: nat)
    requires i <= |log|
  {
    if i == 0 then 0 else log[i - 1].id
  }

  function PreviousEnd(log: seq<Seg>, i: nat): (r: nat)
    requires i <= |log|
  {
    if i == 0 then 1 else EndOf(log[i - 1])
  }

  /** Encoded bytes including the seal every segment has or reserves. */
  function Reserved(log: seq<Seg>): (r: nat) {
    if log == [] then 0 else Reserved(log[..|log| - 1]) + BodySize(log[|log| - 1].groups) + SEAL
  }

  /** Sequences and IDs line up; only a positive checkpoint excuses a gap. */
  predicate Chain(c: nat, log: seq<Seg>) {
    forall i :: 0 <= i < |log| ==>
      Linked(c, i, PreviousId(log, i), PreviousEnd(log, i), log[i].id, log[i].first)
  }

  predicate AllFit(config: Config, log: seq<Seg>) {
    forall i :: 0 <= i < |log| ==> SegFits(config, log[i]) && log[i].id + 1 <= U64_MAX
  }

  predicate InteriorSealed(log: seq<Seg>) {
    forall i :: 0 <= i < |log| - 1 ==> log[i].sealed
  }

  predicate IdsAscend(log: seq<Seg>) {
    forall i :: 0 < i < |log| ==> log[i - 1].id < log[i].id
  }

  /** A log that append, seal, rotation and reclaim maintain under checkpoint authority `c`. */
  predicate Openable(config: Config, c: nat, log: seq<Seg>) {
    && config.Valid() && c + 1 <= U64_MAX
    && Chain(c, log) && AllFit(config, log) && InteriorSealed(log) && IdsAscend(log)
    && |log| <= config.maxSegments
    && Reserved(log) <= config.maxTotalBytes
  }

  function FilesOf(h: Hasher, log: seq<Seg>): (r: seq<File>)
    ensures |r| == |log|
  {
    seq(|log|, i requires 0 <= i < |log| => File(log[i].id, Printed(h, log[i])))
  }

  /** The directory when the last file stops after `k` bytes. */
  function TornFiles(h: Hasher, log: seq<Seg>, k: nat): (r: seq<File>)
    requires |log| > 0 && k <= |Printed(h, log[|log| - 1])|
    ensures |r| == |log|
  {
    FilesOf(h, log)[|log| - 1 := File(log[|log| - 1].id, Printed(h, log[|log| - 1])[..k])]
  }

  function MetaOf(seg: Seg): (r: Meta) {
    Meta(seg.id, BodySize(seg.groups) + (if seg.sealed then SEAL else 0), seg.first, EndOf(seg) - 1)
  }

  function MetasOf(log: seq<Seg>): (r: seq<Meta>)
    ensures |r| == |log|
  {
    seq(|log|, i requires 0 <= i < |log| => MetaOf(log[i]))
  }

  function ActiveOf(h: Hasher, log: seq<Seg>): (r: Active) {
    if log == [] || log[|log| - 1].sealed then NoActive
    else
      var last := log[|log| - 1];
      Active(BodySize(last.groups), Body(h, last.id, last.first, last.groups))
  }

  function FrontierOf(c: nat, log: seq<Seg>): (r: nat)
    ensures r >= c + 1
  {
    if log == [] then c + 1 else Max(EndOf(log[|log| - 1]), c + 1)
  }

  /** The journal object for a log under authority `c`; `nextId` numbers the next file of an empty log. */
  function JournalOf(h: Hasher, c: nat, log: seq<Seg>, nextId: nat): (r: JournalState) {
    JournalState(FilesOf(h, log), MetasOf(log), ActiveOf(h, log), FrontierOf(c, log),
            if log == [] then nextId else log[|log| - 1].id + 1, c, TotalBytes(FilesOf(h, log)))
  }

  /** What survives of the last segment when its file stops after `k` bytes. */
  function CutSeg(h: Hasher, c: nat, log: seq<Seg>, k: nat): (r: Seg)
    requires |log| > 0 && k <= |Printed(h, log[|log| - 1])|
  {
    var n := |log| - 1;
    var last := log[n];
    if k < HEADER then Seg(last.id, FirstOf(h, TornFiles(h, log, k)[n], n, PreviousEnd(log, n), c + 1), [], false)
    else Seg(last.id, last.first, last.groups[..WholeGroups(last.groups, k)],
             last.sealed && k == |Printed(h, last)|)
  }

  function CutLog(h: Hasher, c: nat, log: seq<Seg>, k: nat): (r: seq<Seg>)
    requires |log| > 0 && k <= |Printed(h, log[|log| - 1])|
    ensures |r| == |log|
  {
    log[|log| - 1 := CutSeg(h, c, log, k)]
  }

  /** The first sequence rotation gives a new file, as reopening may have to guess it. */
  predicate Guessable(c: nat, log: seq<Seg>) {
    |log| > 0 ==>
      var n := |log| - 1;
      log[n].first == c + 1 || (log[n].first == PreviousEnd(log, n) && (n > 0 || log[n].id == 1))
  }

  // --------------------------------------------------------------- one startup step

  lemma HeaderFirst(h: Hasher, seg: Seg, k: nat)
    requires 32 <= k <= |Printed(h, seg)| && seg.first <= U64_MAX
    ensures Word(Printed(h, seg)[..k], 24) == seg.first
  {
    hide Printed, Word, Le64;
    HeaderBytes(h, seg);
    var header := SegmentHeader(h, seg.id, seg.first);
    HeaderWord(h, seg.id, seg.first);
    var bytes := Printed(h, seg)[..k];
    assert bytes[..32] == header[..32];
    assert bytes[24..32] == bytes[..32][24..] == header[..32][24..];
    WordIs(bytes, 24, seg.first);
  }

  lemma HeaderWord(h: Hasher, id: nat, first: nat)
    ensures SegmentHeader(h, id, first)[..32][24..] == Le64(first)
  {
    hide Le64, LeBytes;
    var head := SEGMENT_MAGIC + LeBytes(VERSION, 4) + LeBytes(0, 4) + Le64(id) + Le64(first);
    assert SegmentHeader(h, id, first)[..32] == head;
    assert head[24..] == Le64(first);
  }

  lemma OpenableAt(config: Config, c: nat, log: seq<Seg>, i: nat)
    requires Openable(config, c, log) && i < |log|
    ensures SegFits(config, log[i]) && log[i].id + 1 <= U64_MAX && log[i].first <= U64_MAX
    ensures Linked(c, i, PreviousId(log, i), PreviousEnd(log, i), log[i].id, log[i].first)
    ensures i < |log| - 1 ==> log[i].sealed
  {
    hide Reserved, Linked, GroupFits, BodySize;
    assert SegFits(config, log[i]);
  }

  lemma SnocChain(c: nat, log: seq<Seg>, seg: Seg)
    requires Chain(c, log)
    requires Linked(c, |log|, PreviousId(log, |log|), PreviousEnd(log, |log|), seg.id, seg.first)
    ensures Chain(c, log + [seg])
  {
    hide Linked, NextSeq;
    var all := log + [seg];
    forall i | 0 <= i < |all|
      ensures Linked(c, i, PreviousId(all, i), PreviousEnd(all, i), all[i].id, all[i].first)
    {
      assert PreviousId(all, i) == PreviousId(log, i) && PreviousEnd(all, i) == PreviousEnd(log, i);
    }
  }

  /** The first sequence found for a possibly torn last file is the true one, or one of its two guesses. */
  lemma FirstOfTorn(h: Hasher, config: Config, c: nat, log: seq<Seg>, k: nat)
    requires Openable(config, c, log) && |log| > 0 && k <= |Printed(h, log[|log| - 1])|
    requires k < 32 ==> Guessable(c, log)
    ensures var n := |log| - 1;
            var file := TornFiles(h, log, k)[n];
            var first := FirstOf(h, file, n, PreviousEnd(log, n), c + 1);
            && (k >= 32 ==> first == log[n].first)
            && Linked(c, n, PreviousId(log, n), PreviousEnd(log, n), log[n].id, first)
            && (k < HEADER ==> file.bytes == SegmentHeader(h, log[n].id, first)[..k])
            && first <= U64_MAX
  {
    hide Printed, SegmentHeader, Openable, SegFits, Word, NextSeq;
    var n := |log| - 1;
    var last := log[n];
    var file := TornFiles(h, log, k)[n];
    OpenableAt(config, c, log, n);
    if k >= 32 {
      HeaderFirst(h, last, k);
    } else {
      GuessIsBounded(config, c, log);
    }
    HeaderBytes(h, last);
    if k < HEADER {
      assert file.bytes == Printed(h, last)[..HEADER][..k];
    }
  }

  lemma GuessIsBounded(config: Config, c: nat, log: seq<Seg>)
    requires Openable(config, c, log) && |log| > 0
    ensures c + 1 <= U64_MAX && 1 <= PreviousEnd(log, |log| - 1) <= U64_MAX
  {
    hide Reserved, Chain, IdsAscend, InteriorSealed, BodySize;
    var n := |log| - 1;
    if n > 0 {
      OpenableAt(config, c, log, n - 1);
    }
  }

  /** The startup loop's finding for an intact sealed segment. */
  function SealedEntry(h: Hasher, seg: Seg): (r: Entry) {
    var p := Printed(h, seg);
    Entry(MetaOf(seg), ScanEnd(EndOf(seg), |p|, true, false, p[..|p| - 32]))
  }

  /** The startup loop's finding for the possibly torn last file. */
  function LastEntry(h: Hasher, c: nat, log: seq<Seg>, k: nat): (r: Entry)
    requires |log| > 0 && k <= |Printed(h, log[|log| - 1])|
  {
    var cut := CutSeg(h, c, log, k);
    Entry(Meta(cut.id, k, cut.first, EndOf(cut) - 1),
          if k < HEADER then ScanEnd(cut.first, HEADER, false, true, SegmentHeader(h, cut.id, cut.first))
          else CutOutcome(h, log[|log| - 1], k).result.value)
  }

  lemma OpenSealed(h: Hasher, config: Config, c: nat, log: seq<Seg>, i: nat)
    requires Openable(config, c, log) && i < |log| && log[i].sealed
    ensures OpenOne(h, config, c, FilesOf(h, log)[i], i, false, PreviousId(log, i), PreviousEnd(log, i))
         == Ok(SealedEntry(h, log[i]))
  {
    hide Inspect, CutOutcome, Word, Openable, SegFits, Body, SealBlock;
    var seg := log[i];
    var p := Printed(h, seg);
    OpenableAt(config, c, log, i);
    assert p[..|p|] == p;
    StrictCut(h, config, seg, |p|);
    UncutIsClean(h, seg);
    HeaderFirst(h, seg, |p|);
  }

  lemma OpenLast(h: Hasher, config: Config, c: nat, log: seq<Seg>, k: nat)
    requires Openable(config, c, log) && |log| > 0 && k <= |Printed(h, log[|log| - 1])|
    requires k < 32 ==> Guessable(c, log)
    ensures var n := |log| - 1;
            OpenOne(h, config, c, TornFiles(h, log, k)[n], n, true, PreviousId(log, n), PreviousEnd(log, n))
            == Ok(LastEntry(h, c, log, k))
  {
    hide Printed, InspectFrom, SegmentHeader, Openable, SegFits, FirstOf, WholeGroups;
    var n := |log| - 1;
    var last := log[n];
    FirstOfTorn(h, config, c, log, k);
    OpenableAt(config, c, log, n);
    CutSegment(h, config, last, k);
    var file := TornFiles(h, log, k)[n];
    if k < HEADER {
      assert file.bytes[..k] == file.bytes;
    }
  }

  function EntriesOf(h: Hasher, c: nat, log: seq<Seg>, k: nat): (r: seq<Entry>)
    requires |log| > 0 && k <= |Printed(h, log[|log| - 1])|
    ensures |r| == |log|
  {
    seq(|log|, i requires 0 <= i < |log| =>
      if i == |log| - 1 then LastEntry(h, c, log, k) else SealedEntry(h, log[i]))
  }

  lemma {:induction false} OpenLoopTorn(h: Hasher, config: Config, c: nat, log: seq<Seg>, k: nat, i: nat)
    requires Openable(config, c, log) && |log| > 0 && k <= |Printed(h, log[|log| - 1])| && i <= |log|
    requires k < 32 ==> Guessable(c, log)
    ensures i < |log| ==>
      OpenLoop(h, config, c, TornFiles(h, log, k), i, PreviousId(log, i), PreviousEnd(log, i))
      == Ok(EntriesOf(h, c, log, k)[i..])
    decreases |log| - i
  {
    hide Printed, OpenOne, LastEntry, Openable;
    if i < |log| {
      var files, entries := TornFiles(h, log, k), EntriesOf(h, c, log, k);
      assert entries[i..] == [entries[i]] + entries[i + 1..];
      if i == |log| - 1 {
        OpenLast(h, config, c, log, k);
      } else {
        OpenableAt(config, c, log, i);
        OpenSealed(h, config, c, log, i);
        OpenLoopTorn(h, config, c, log, k, i + 1);
        assert files[i] == FilesOf(h, log)[i];
      }
    }
  }

  // ------------------------------------------------------------- sizes

  /** Printed bytes never exceed what admission reserved, whole or torn. */
  lemma {:induction false} BytesWithinReserve(h: Hasher, log: seq<Seg>)
    ensures TotalBytes(FilesOf(h, log)) <= Reserved(log)
    ensures log != [] ==>
      TotalBytes(FilesOf(h, log)) == TotalBytes(FilesOf(h, log[..|log| - 1])) + |Printed(h, log[|log| - 1])|
  {
    hide Printed;
    if log != [] {
      var init := log[..|log| - 1];
      BytesWithinReserve(h, init);
      assert FilesOf(h, log)[..|log| - 1] == FilesOf(h, init);
    }
  }

  lemma {:induction false} ReservedExact(h: Hasher, log: seq<Seg>)
    requires forall i :: 0 <= i < |log| - 1 ==> log[i].sealed
    ensures TotalBytes(FilesOf(h, log)) + (if ActiveOf(h, log).Active? then SEAL else 0) == Reserved(log)
  {
    hide Printed, Body;
    if log != [] {
      var init := log[..|log| - 1];
      ReservedExact(h, init);
      assert init != [] ==> init[|init| - 1].sealed;
      BytesWithinReserve(h, log);
    }
  }

  lemma TornSizes(h: Hasher, config: Config, c: nat, log: seq<Seg>, k: nat)
    requires Openable(config, c, log) && |log| > 0 && k <= |Printed(h, log[|log| - 1])|
    ensures var init := log[..|log| - 1];
            && TotalBytes(TornFiles(h, log, k)) == TotalBytes(FilesOf(h, init)) + k
            && TotalBytes(FilesOf(h, init)) + BodySize(log[|log| - 1].groups) + SEAL <= config.maxTotalBytes
            && AdmissionError(config, TornFiles(h, log, k)) == ""
  {
    hide Printed;
    var init := log[..|log| - 1];
    var files := TornFiles(h, log, k);
    BytesWithinReserve(h, init);
    assert files[..|log| - 1] == FilesOf(h, init);
    forall i | 0 <= i < |files| ensures |files[i].bytes| <= config.segmentBytes {
      assert SegFits(config, log[i]);
    }
  }

  // ------------------------------------------------------------- reopening

  /**
   * Reopen a directory whose last file was cut at any byte. It always succeeds, keeps every
   * group that fits whole, repairs the rest away, and is the journal of exactly that content.
   */
  lemma OpenTorn(h: Hasher, config: Config, c: nat, log: seq<Seg>, k: nat, nextId: nat)
    requires Openable(config, c, log) && |log| > 0 && k <= |Printed(h, log[|log| - 1])|
    requires k < 32 ==> Guessable(c, log)
    ensures Open(h, config, c, TornFiles(h, log, k)) == Ok(JournalOf(h, c, CutLog(h, c, log, k), nextId))
    ensures Openable(config, c, CutLog(h, c, log, k))
  {
    hide Printed, OpenLoop, TakeOver, Reserved, CutLog;
    var files, entries := TornFiles(h, log, k), EntriesOf(h, c, log, k);
    OpenLoopTorn(h, config, c, log, k, 0);
    assert entries[0..] == entries;
    TornSizes(h, config, c, log, k);
    TakeOverTorn(h, config, c, log, k, nextId);
    CutStaysOpenable(h, config, c, log, k);
  }

  /** The bytes of the last file after repair are the printed cut segment. */
  lemma CutPrints(h: Hasher, config: Config, c: nat, log: seq<Seg>, k: nat)
    requires Openable(config, c, log) && |log| > 0 && k <= |Printed(h, log[|log| - 1])|
    ensures var n := |log| - 1;
            var cut, entry := CutSeg(h, c, log, k), LastEntry(h, c, log, k);
            && entry.end.next == EndOf(cut)
            && entry.end.sealed == cut.sealed
            && (cut.sealed ==> cut == log[n] && TornFiles(h, log, k)[n] == FilesOf(h, log)[n] && k == |Printed(h, cut)|)
            && (!cut.sealed ==>
                  && entry.end.validLen == BodySize(cut.groups)
                  && entry.end.hashed == Body(h, cut.id, cut.first, cut.groups)
                  && Repaired(h, TornFiles(h, log, k)[n], entry) == Printed(h, cut))
            && BodySize(cut.groups) <= BodySize(log[n].groups)
  {
    hide SealBlock, SegmentHeader, FirstOf, Openable, WholeGroups, Printed, Body, NextSeq, BodySize;
    var n := |log| - 1;
    var last := log[n];
    if k < HEADER {
      NoGroups(h, CutSeg(h, c, log, k));
    } else {
      CutSegPrints(h, last, k);
    }
  }

  lemma NoGroups(h: Hasher, seg: Seg)
    requires seg.groups == [] && !seg.sealed
    ensures Printed(h, seg) == SegmentHeader(h, seg.id, seg.first) == Body(h, seg.id, seg.first, seg.groups)
    ensures EndOf(seg) == seg.first && BodySize(seg.groups) == HEADER
  {
  }

  /** Cutting a printed segment to its valid length leaves the printed prefix of whole groups. */
  lemma CutSegPrints(h: Hasher, seg: Seg, k: nat)
    requires HEADER <= k <= |Printed(h, seg)|
    ensures var kept := seg.groups[..WholeGroups(seg.groups, k)];
            && BodySize(kept) <= k && BodySize(kept) <= BodySize(seg.groups)
            && Printed(h, seg)[..k][..BodySize(kept)] == Body(h, seg.id, seg.first, kept)
            && Printed(h, Seg(seg.id, seg.first, kept, false)) == Body(h, seg.id, seg.first, kept)
            && (k == |Printed(h, seg)| ==> kept == seg.groups && Printed(h, seg)[..k] == Printed(h, seg))
  {
    hide SealBlock, Body, Frame, FrameSize;
    var m := WholeGroups(seg.groups, k);
    WholeGroupsIsMaximal(seg.groups, k);
    BodyPrefix(h, seg.id, seg.first, seg.groups, m);
    var body, size := Body(h, seg.id, seg.first, seg.groups), BodySize(seg.groups[..m]);
    assert Printed(h, seg)[..k][..size] == Printed(h, seg)[..|body|][..size];
    assert Printed(h, seg)[..|body|] == body;
    assert seg.groups[..|seg.groups|] == seg.groups;
  }

  lemma TakeOverTorn(h: Hasher, config: Config, c: nat, log: seq<Seg>, k: nat, nextId: nat)
    requires Openable(config, c, log) && |log| > 0 && k <= |Printed(h, log[|log| - 1])|
    ensures TakeOver(h, config, c, TornFiles(h, log, k), EntriesOf(h, c, log, k))
         == Ok(JournalOf(h, c, CutLog(h, c, log, k), nextId))
  {
    hide Printed, Body, LastEntry, CutSeg, Repaired, Openable, SegFits, TotalBytes, FilesOf, MetasOf, Metas;
    var n := |log| - 1;
    var cut, all := CutSeg(h, c, log, k), CutLog(h, c, log, k);
    CutPrints(h, config, c, log, k);
    TornSizes(h, config, c, log, k);
    OpenableAt(config, c, log, n);
    assert BodySize(log[n].groups) + SEAL <= config.segmentBytes by { FitsInSegment(config, log[n]); }
    LastEntryMeta(h, c, log, k);
    assert all[..n] == log[..n];
    BytesWithinReserve(h, all);
    CutFiles(h, c, log, k);
    CutMetas(h, c, log, k);
  }

  lemma FitsInSegment(config: Config, seg: Seg)
    requires SegFits(config, seg)
    ensures BodySize(seg.groups) + SEAL <= config.segmentBytes
  {
  }

  lemma CutFiles(h: Hasher, c: nat, log: seq<Seg>, k: nat)
    requires |log| > 0 && k <= |Printed(h, log[|log| - 1])|
    ensures var n, all, files := |log| - 1, CutLog(h, c, log, k), TornFiles(h, log, k);
            && FilesOf(h, all) == files[..n] + [File(log[n].id, Printed(h, all[n]))]
            && (files[n] == File(log[n].id, Printed(h, all[n])) ==> FilesOf(h, all) == files)
    ensures TornFiles(h, log, k)[|log| - 1] == File(log[|log| - 1].id, Printed(h, log[|log| - 1])[..k])
  {
    hide Printed, CutSeg;
    LastEntryMeta(h, c, log, k);
  }

  lemma CutMetas(h: Hasher, c: nat, log: seq<Seg>, k: nat)
    requires |log| > 0 && k <= |Printed(h, log[|log| - 1])|
    ensures var n, all, entries := |log| - 1, CutLog(h, c, log, k), EntriesOf(h, c, log, k);
            && entries[n] == LastEntry(h, c, log, k)
            && MetasOf(all) == Metas(entries)[n := MetaOf(all[n])]
            && Metas(entries)[n] == entries[n].meta
            && (entries[n].meta == MetaOf(all[n]) ==> MetasOf(all) == Metas(entries))
  {
    hide Printed, CutSeg, LastEntry;
  }

  lemma LastEntryMeta(h: Hasher, c: nat, log: seq<Seg>, k: nat)
    requires |log| > 0 && k <= |Printed(h, log[|log| - 1])|
    ensures var cut := CutSeg(h, c, log, k);
            LastEntry(h, c, log, k).meta == Meta(cut.id, k, cut.first, EndOf(cut) - 1)
    ensures CutSeg(h, c, log, k).id == log[|log| - 1].id
  {
  }

  lemma CutStaysOpenable(h: Hasher, config: Config, c: nat, log: seq<Seg>, k: nat)
    requires Openable(config, c, log) && |log| > 0 && k <= |Printed(h, log[|log| - 1])|
    requires k < 32 ==> Guessable(c, log)
    ensures Openable(config, c, CutLog(h, c, log, k))
  {
    hide Printed, FirstOf, Body, CutSeg, SegFits, Linked, Openable, CutLog, LastEntry;
    CutPrints(h, config, c, log, k);
    LastEntryMeta(h, c, log, k);
    CutFits(h, config, c, log, k);
    CutFirst(h, config, c, log, k);
    ReservedLast(config, c, log);
    ReplaceLast(config, c, log, CutSeg(h, c, log, k));
    assert CutLog(h, c, log, k) == log[|log| - 1 := CutSeg(h, c, log, k)] by { CutLogIs(h, c, log, k); }
  }

  lemma CutLogIs(h: Hasher, c: nat, log: seq<Seg>, k: nat)
    requires |log| > 0 && k <= |Printed(h, log[|log| - 1])|
    ensures CutLog(h, c, log, k) == log[|log| - 1 := CutSeg(h, c, log, k)]
  {
  }

  lemma ReservedLast(config: Config, c: nat, log: seq<Seg>)
    requires Openable(config, c, log) && |log| > 0
    ensures Reserved(log[..|log| - 1]) + BodySize(log[|log| - 1].groups) + SEAL <= config.maxTotalBytes
  {
    hide BodySize, Chain;
  }

  /** Replacing the last segment by one that fits keeps a log openable. */
  lemma ReplaceLast(config: Config, c: nat, log: seq<Seg>, seg: Seg)
    requires Openable(config, c, log) && |log| > 0
    requires seg.id == log[|log| - 1].id && SegFits(config, seg)
    requires var n := |log| - 1; Linked(c, n, PreviousId(log, n), PreviousEnd(log, n), seg.id, seg.first)
    requires Reserved(log[..|log| - 1]) + BodySize(seg.groups) + SEAL <= config.maxTotalBytes
    ensures Openable(config, c, log[|log| - 1 := seg])
  {
    hide SegFits, Linked, BodySize, NextSeq, Chain, AllFit, InteriorSealed, IdsAscend;
    var n, all := |log| - 1, log[|log| - 1 := seg];
    assert all[..n] == log[..n];
    ReplaceLastChain(c, log, seg);
    ReplaceLastShape(config, log, seg);
  }

  lemma ReplaceLastChain(c: nat, log: seq<Seg>, seg: Seg)
    requires Chain(c, log) && |log| > 0
    requires var n := |log| - 1; Linked(c, n, PreviousId(log, n), PreviousEnd(log, n), seg.id, seg.first)
    ensures Chain(c, log[|log| - 1 := seg])
  {
    hide Linked, NextSeq;
    var n, all := |log| - 1, log[|log| - 1 := seg];
    forall i | 0 <= i < |all|
      ensures Linked(c, i, PreviousId(all, i), PreviousEnd(all, i), all[i].id, all[i].first)
    {
      assert PreviousId(all, i) == PreviousId(log, i) && PreviousEnd(all, i) == PreviousEnd(log, i);
    }
  }

  lemma ReplaceLastShape(config: Config, log: seq<Seg>, seg: Seg)
    requires AllFit(config, log) && InteriorSealed(log) && IdsAscend(log) && |log| > 0
    requires seg.id == log[|log| - 1].id && SegFits(config, seg)
    ensures var all := log[|log| - 1 := seg]; AllFit(config, all) && InteriorSealed(all) && IdsAscend(all)
  {
    hide SegFits;
    var n := |log| - 1;
    assert log[n].id + 1 <= U64_MAX;
  }

  lemma CutFirst(h: Hasher, config: Config, c: nat, log: seq<Seg>, k: nat)
    requires Openable(config, c, log) && |log| > 0 && k <= |Printed(h, log[|log| - 1])|
    requires k < 32 ==> Guessable(c, log)
    ensures var n, cut := |log| - 1, CutSeg(h, c, log, k);
            Linked(c, n, PreviousId(log, n), PreviousEnd(log, n), cut.id, cut.first)
  {
    hide Printed, FirstOf;
    FirstOfTorn(h, config, c, log, k);
    OpenableAt(config, c, log, |log| - 1);
  }

  lemma CutFits(h: Hasher, config: Config, c: nat, log: seq<Seg>, k: nat)
    requires Openable(config, c, log) && |log| > 0 && k <= |Printed(h, log[|log| - 1])|
    requires k < 32 ==> Guessable(c, log)
    ensures SegFits(config, CutSeg(h, c, log, k))
  {
    hide Printed, FirstOf, FrameSize;
    var n := |log| - 1;
    var last := log[n];
    assert SegFits(config, last);
    FirstOfTorn(h, config, c, log, k);
    if k >= HEADER {
      BodyPrefix(h, last.id, last.first, last.groups, WholeGroups(last.groups, k));
    }
  }
}
