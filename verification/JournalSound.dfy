/** Every directory that opens is the directory of an in-order log: the converse of reopening. */
module JournalSound {
  import opened Common
  import opened Bytes
  import opened JournalFormat
  import opened JournalParser
  import opened JournalCut
  import opened JournalOpen
  import opened JournalLog

  /** What one startup step found in a file is the segment `seg`, up to the tail repair. */
  predicate Matches(h: Hasher, file: File, e: Entry, seg: Seg) {
    && seg.id == file.id && e.end.next == EndOf(seg) && e.end.sealed == seg.sealed
    && e.meta == Meta(file.id, |file.bytes|, seg.first, EndOf(seg) - 1)
    && (seg.sealed ==> file.bytes == Printed(h, seg))
    && (!seg.sealed ==>
          && Repaired(h, file, e) == Printed(h, seg)
          && e.end.validLen == BodySize(seg.groups)
          && e.end.hashed == Body(h, seg.id, seg.first, seg.groups))
  }

  lemma FirstBound(h: Hasher, file: File, index: nat, previousNext: nat, floorNext: nat)
    requires previousNext <= U64_MAX && floorNext <= U64_MAX
    ensures FirstOf(h, file, index, previousNext, floorNext) <= U64_MAX
  {
    hide SegmentHeader;
    if |file.bytes| >= 32 {
      WordBound(file.bytes, 24);
    }
  }

  lemma StepSound(h: Hasher, config: Config, c: nat, file: File, index: nat, isLast: bool, previousId: nat,
                  previousNext: nat)
    returns (seg: Seg)
    requires config.Valid() && c + 1 <= U64_MAX && file.id <= U64_MAX && previousNext <= U64_MAX
    requires OpenOne(h, config, c, file, index, isLast, previousId, previousNext).Ok?
    ensures Matches(h, file, OpenOne(h, config, c, file, index, isLast, previousId, previousNext).value, seg)
    ensures SegFits(config, seg) && Linked(c, index, previousId, previousNext, seg.id, seg.first)
    ensures !isLast ==> seg.sealed
  {
    hide FirstOf, Inspect, SegmentHeader, Printed, Body, Word;
    var first := FirstOf(h, file, index, previousNext, c + 1);
    FirstBound(h, file, index, previousNext, c + 1);
    var end := Inspect(h, config, file.id, first, file.bytes, isLast).result.value;
    var groups := InspectSound(h, config, file.id, first, file.bytes, isLast);
    seg := Seg(file.id, first, groups, end.sealed);
    if |file.bytes| < HEADER {
      TornHeader(h, config, file, first, isLast);
      EmptySegment(h, config, file.id, first);
    } else {
      WholeFile(h, config, file, first, end, groups);
    }
  }

  lemma TornHeader(h: Hasher, config: Config, file: File, first: nat, isLast: bool)
    requires |file.bytes| < HEADER && Inspect(h, config, file.id, first, file.bytes, isLast).result.Ok?
    ensures Inspect(h, config, file.id, first, file.bytes, isLast).result.value
         == ScanEnd(first, HEADER, false, true, SegmentHeader(h, file.id, first)) && isLast
  {
  }

  lemma EmptySegment(h: Hasher, config: Config, id: nat, first: nat)
    requires config.Valid() && id <= U64_MAX && first <= U64_MAX
    ensures var seg := Seg(id, first, [], false);
            && SegFits(config, seg) && Printed(h, seg) == SegmentHeader(h, id, first) == Body(h, id, first, [])
            && EndOf(seg) == first && BodySize([]) == HEADER
  {
  }

  lemma WholeFile(h: Hasher, config: Config, file: File, first: nat, end: ScanEnd, groups: seq<Group>)
    requires Accepted(h, config, file.id, first, file.bytes, end, groups)
    ensures var seg := Seg(file.id, first, groups, end.sealed);
            Matches(h, file, Entry(Meta(file.id, |file.bytes|, first, end.next - 1), end), seg)
  {
    hide Body, SealBlock, SegmentHeader;
    assert end.sealed ==> file.bytes[..end.validLen] == file.bytes;
  }

  /** The startup loop, from a prefix of sealed segments on. */
  lemma {:induction false} LoopSound(h: Hasher, config: Config, c: nat, files: seq<File>, log: seq<Seg>)
    returns (all: seq<Seg>)
    requires config.Valid() && c + 1 <= U64_MAX && |log| <= |files|
    requires forall i :: 0 <= i < |files| ==> files[i].id <= U64_MAX
    requires Chain(c, log) && forall i :: 0 <= i < |log| ==> SegFits(config, log[i]) && log[i].sealed
    requires OpenLoop(h, config, c, files, |log|, PreviousId(log, |log|), PreviousEnd(log, |log|)).Ok?
    ensures |all| == |files| && all[..|log|] == log && Chain(c, all)
    ensures forall i :: 0 <= i < |all| ==> SegFits(config, all[i]) && (i < |all| - 1 ==> all[i].sealed)
    ensures var entries := OpenLoop(h, config, c, files, |log|, PreviousId(log, |log|), PreviousEnd(log, |log|)).value;
            forall i :: |log| <= i < |all| ==> Matches(h, files[i], entries[i - |log|], all[i])
    decreases |files| - |log|
  {
    hide Matches, OpenOne, SegFits, Linked, EndOf, Chain;
    var n := |log|;
    if n == |files| {
      return log;
    }
    assert PreviousEnd(log, n) <= U64_MAX by { EndBound(config, log); }
    var seg := StepSound(h, config, c, files[n], n, n + 1 == |files|, PreviousId(log, n), PreviousEnd(log, n));
    SnocChain(c, log, seg);
    var grown := log + [seg];
    var one := OpenOne(h, config, c, files[n], n, n + 1 == |files|, PreviousId(log, n), PreviousEnd(log, n)).value;
    MatchesIs(h, files[n], one, seg);
    var rest := OpenLoop(h, config, c, files, n + 1, seg.id, EndOf(seg)).value;
    assert OpenLoop(h, config, c, files, n, PreviousId(log, n), PreviousEnd(log, n)) == Ok([one] + rest);
    if n + 1 == |files| {
      all := grown;
    } else {
      all := LoopSound(h, config, c, files, grown);
      assert all[..n] == all[..n + 1][..n] == log;
      assert all[n] == all[..n + 1][n] == seg;
      assert forall i :: 0 <= i < n ==> all[i] == all[..n][i];
    }
  }

  lemma MatchesIs(h: Hasher, file: File, e: Entry, seg: Seg)
    requires Matches(h, file, e, seg)
    ensures seg.id == file.id && e.end.next == EndOf(seg) && e.end.sealed == seg.sealed
    ensures !seg.sealed ==>
      e.end.validLen == BodySize(seg.groups) && e.end.hashed == Body(h, seg.id, seg.first, seg.groups)
  {
  }

  lemma EndBound(config: Config, log: seq<Seg>)
    requires forall i :: 0 <= i < |log| ==> SegFits(config, log[i])
    ensures PreviousEnd(log, |log|) <= U64_MAX
  {
  }

  ghost predicate RepairedAs(h: Hasher, files: seq<File>, entries: seq<Entry>, log: seq<Seg>)
    requires |files| == |entries| == |log| > 0
  {
    var n := |files| - 1;
    var last, entry := files[n], entries[n];
    && FilesOf(h, log) == (if log[n].sealed then files else files[..n] + [File(last.id, Repaired(h, last, entry))])
    && TotalBytes(FilesOf(h, log))
       == (if log[n].sealed then TotalBytes(files) else TotalBytes(files) - |last.bytes| + entry.end.validLen)
    && MetasOf(log)
       == (if log[n].sealed then Metas(entries) else Metas(entries)[n := entry.meta.(len := entry.end.validLen)])
  }

  /** The repaired files are the log's files, with the log's sizes and metadata. */
  lemma RepairedFiles(h: Hasher, files: seq<File>, entries: seq<Entry>, log: seq<Seg>)
    requires |files| == |entries| == |log| > 0
    requires forall i :: 0 <= i < |log| ==> Matches(h, files[i], entries[i], log[i])
    requires forall i :: 0 <= i < |log| - 1 ==> log[i].sealed
    ensures RepairedAs(h, files, entries, log)
  {
    hide Printed, Repaired, Body, EndOf;
    var n := |files| - 1;
    forall i | 0 <= i < |log|
      ensures i < n || log[n].sealed ==>
        files[i] == File(log[i].id, Printed(h, log[i])) && entries[i].meta == MetaOf(log[i])
    {
      assert Matches(h, files[i], entries[i], log[i]);
    }
    assert Matches(h, files[n], entries[n], log[n]);
    if log[n].sealed {
      assert FilesOf(h, log) == files;
      assert MetasOf(log) == Metas(entries);
    } else {
      var repaired := File(files[n].id, Repaired(h, files[n], entries[n]));
      assert FilesOf(h, log)[..n] == files[..n];
      assert FilesOf(h, log) == files[..n] + [repaired];
      assert MetasOf(log) == Metas(entries)[n := entries[n].meta.(len := entries[n].end.validLen)];
    }
  }

  lemma TakeOverSound(h: Hasher, config: Config, c: nat, files: seq<File>, entries: seq<Entry>, log: seq<Seg>)
    requires |files| == |entries| == |log| > 0
    requires forall i :: 0 <= i < |log| ==> Matches(h, files[i], entries[i], log[i])
    requires forall i :: 0 <= i < |log| ==> SegFits(config, log[i]) && (i < |log| - 1 ==> log[i].sealed)
    requires config.Valid() && c + 1 <= U64_MAX && Chain(c, log)
    requires |log| <= config.maxSegments && TotalBytes(files) <= config.maxTotalBytes
    requires forall i :: 0 < i < |files| ==> files[i - 1].id < files[i].id
    requires TakeOver(h, config, c, files, entries).Ok?
    ensures Openable(config, c, log)
    ensures TakeOver(h, config, c, files, entries) == Ok(JournalOf(h, c, log, 1))
  {
    hide Matches, AllFit, IdsAscend, InteriorSealed, SegFits, Chain, TakeOver, JournalOf, TotalBytes, Reserved,
      RepairedAs;
    RepairedFiles(h, files, entries, log);
    TakenOver(h, config, c, files, entries, log);
    TakenOverFits(h, config, c, files, entries, log);
    OrderedLog(h, config, files, entries, log);
  }

  /** What a successful takeover holds. */
  lemma TakenOver(h: Hasher, config: Config, c: nat, files: seq<File>, entries: seq<Entry>, log: seq<Seg>)
    requires |files| == |entries| == |log| > 0 && TakeOver(h, config, c, files, entries).Ok?
    requires Matches(h, files[|files| - 1], entries[|files| - 1], log[|files| - 1])
    requires RepairedAs(h, files, entries, log)
    ensures TakeOver(h, config, c, files, entries) == Ok(JournalOf(h, c, log, 1))
  {
    hide Matches, Printed, Repaired, Body, BodySize, EndOf, FilesOf, MetasOf, Metas, TotalBytes, ActiveOf, FrontierOf;
    MatchesIs(h, files[|files| - 1], entries[|files| - 1], log[|files| - 1]);
    LastOf(h, c, log);
  }

  /** Its budgets leave room for the seal. */
  lemma TakenOverFits(h: Hasher, config: Config, c: nat, files: seq<File>, entries: seq<Entry>, log: seq<Seg>)
    requires |files| == |entries| == |log| > 0 && (forall i :: 0 <= i < |log| - 1 ==> log[i].sealed)
    requires TotalBytes(files) <= config.maxTotalBytes && TakeOver(h, config, c, files, entries).Ok?
    requires Matches(h, files[|files| - 1], entries[|files| - 1], log[|files| - 1])
    requires RepairedAs(h, files, entries, log)
    ensures files[|files| - 1].id + 1 <= U64_MAX && Reserved(log) <= config.maxTotalBytes
  {
    hide Matches, Printed, Repaired, Body, BodySize, EndOf, FilesOf, MetasOf, Metas, TotalBytes, Reserved, FrontierOf;
    ReservedExact(h, log);
    MatchesIs(h, files[|files| - 1], entries[|files| - 1], log[|files| - 1]);
  }

  lemma LastOf(h: Hasher, c: nat, log: seq<Seg>)
    requires log != []
    ensures var last := log[|log| - 1];
      && FrontierOf(c, log) == Max(EndOf(last), c + 1)
      && ActiveOf(h, log) == if last.sealed then NoActive else Active(BodySize(last.groups),
                                                                      Body(h, last.id, last.first, last.groups))
  {
    hide EndOf, BodySize, Body;
  }

  lemma OrderedLog(h: Hasher, config: Config, files: seq<File>, entries: seq<Entry>, log: seq<Seg>)
    requires |files| == |entries| == |log| > 0
    requires forall i :: 0 <= i < |log| ==> Matches(h, files[i], entries[i], log[i])
    requires forall i :: 0 <= i < |log| ==> SegFits(config, log[i]) && (i < |log| - 1 ==> log[i].sealed)
    requires forall i :: 0 < i < |files| ==> files[i - 1].id < files[i].id
    requires files[|files| - 1].id + 1 <= U64_MAX
    ensures AllFit(config, log) && InteriorSealed(log) && IdsAscend(log)
  {
    hide Matches, SegFits;
    forall i | 0 <= i < |log| ensures log[i].id == files[i].id { MatchesIs(h, files[i], entries[i], log[i]); }
    IdsBounded(files, |files| - 1);
  }

  lemma {:induction false} IdsBounded(files: seq<File>, n: nat)
    requires n < |files| && forall i :: 0 < i < |files| ==> files[i - 1].id < files[i].id
    ensures forall i :: 0 <= i <= n ==> files[i].id <= files[n].id
  {
    if n > 0 {
      IdsBounded(files, n - 1);
    }
  }

  lemma Admits(config: Config, files: seq<File>)
    requires AdmissionError(config, files) == ""
    ensures |files| <= config.maxSegments && TotalBytes(files) <= config.maxTotalBytes
  {
  }

  /** A directory opens only as the journal of an in-order log, whatever bytes it holds. */
  lemma OpenSound(h: Hasher, config: Config, c: nat, files: seq<File>) returns (log: seq<Seg>)
    requires forall i :: 0 <= i < |files| ==> files[i].id <= U64_MAX
    requires forall i :: 0 < i < |files| ==> files[i - 1].id < files[i].id
    requires Open(h, config, c, files).Ok?
    ensures Openable(config, c, log)
    ensures Open(h, config, c, files) == Ok(JournalOf(h, c, log, 1))
  {
    hide OpenLoop, TakeOver, SegFits, AdmissionError, Matches;
    log := LoopSound(h, config, c, files, []);
    var entries := OpenLoop(h, config, c, files, 0, 0, 1).value;
    if files != [] {
      Admits(config, files);
      TakeOverSound(h, config, c, files, entries, log);
    } else {
      assert log == [];
    }
  }
}
