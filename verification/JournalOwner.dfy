/** The single owner of a journal directory: append, seal, rotate, reclaim and reopen. */
module JournalOwner {
  import opened Common
  import opened Bytes
  import opened JournalFormat
  import opened JournalParser
  import opened JournalOpen
  import opened JournalLog
  import opened JournalRecords
  import opened JournalCrash
  import opened JournalAppend
  import opened JournalDirectory
  import opened JournalMemory
  import opened JournalSound
  import opened JournalCut

  datatype Plan = Plan(size: nat, next: nat, rotate: bool, growth: nat)

  datatype DurableGroup = DurableGroup(first: nat, last: nat)

  /** The frame size of a group, or the first limit it breaks. */
  method FrameAdmission(config: Config, records: seq<seq<Byte>>) returns (r: Result<nat>)
    ensures r.Ok? <==> GroupFits(config, records)
    ensures r.Ok? ==> r.value == FrameSize(records)
  {
    hide RecordBytes;
    if |records| == 0 || |records| > config.maxRecordsPerGroup {
      return Err("group record count admission exceeded");
    }
    var size: nat := HEADER + TRAILER;
    assert size == FrameSize(records[..0]) by { EmptyFrame(records); }
    for i := 0 to |records|
      invariant forall j :: 0 <= j < i ==> |records[j]| <= config.maxRecordBytes
      invariant size == FrameSize(records[..i])
    {
      if |records[i]| > config.maxRecordBytes {
        return Err("record byte admission exceeded");
      }
      size := size + 8 + |records[i]|;
      FrameGrows(records[..i], records[i]);
      assert records[..i + 1] == records[..i] + [records[i]];
    }
    assert records[..|records|] == records;
    if size > config.maxFrameBytes {
      return Err("frame byte admission exceeded");
    }
    r := Ok(size);
  }

  /** Bytes an append adds to the directory: frame, plus a header and any old active's seal on rotation. */
  function PlannedGrowth(h: Hasher, config: Config, c: nat, log: seq<Seg>, records: seq<seq<Byte>>): (r: nat) {
    var size := FrameSize(records);
    if !Rotates(config, c, log, size) then size
    else size + HEADER + if ActiveOf(h, log).Active? then SEAL else 0
  }

  lemma EmptyFrame(records: seq<seq<Byte>>)
    ensures FrameSize(records[..0]) == HEADER + TRAILER
  {
  }

  /** One startup step: locate the first sequence, check the links, validate every retained byte. */
  method OpenFile(h: Hasher, config: Config, c: nat, file: File, index: nat, isLast: bool, previousId: nat,
                  previousNext: nat)
    returns (r: Result<Entry>)
    ensures r == OpenOne(h, config, c, file, index, isLast, previousId, previousNext)
  {
    hide Inspect, FirstOf;
    var first := FirstOf(h, file, index, previousNext, c + 1);
    if first == 0 {
      return Err("zero record sequence");
    }
    if !SequenceLinked(c, index, previousNext, first) {
      return Err("record sequence gap above checkpoint or overlapping history");
    }
    if !IdLinked(c, previousId, previousNext, file.id, first) {
      return Err("segment ID gap above checkpoint");
    }
    var end, _ := InspectReader(h, config, file.id, first, file.bytes, isLast);
    if end.Err? {
      return Err(end.reason);
    }
    if !isLast && !end.value.sealed {
      return Err("unsealed interior segment");
    }
    r := Ok(Entry(Meta(file.id, |file.bytes|, first, end.value.next - 1), end.value));
  }

  /** The startup scan: every retained byte is validated before the tail is repaired. */
  method Startup(h: Hasher, config: Config, c: nat, files: seq<File>) returns (r: Result<JournalState>)
    ensures r == Open(h, config, c, files)
  {
    hide OpenOne, TakeOver, AdmissionError;
    if !config.Valid() {
      return Err("invalid configuration");
    }
    if c + 1 > U64_MAX {
      return Err("checkpoint sequence exhausted");
    }
    if AdmissionError(config, files) != "" {
      return Err(AdmissionError(config, files));
    }
    var entries: seq<Entry>, previousId, previousNext := [], 0, 1;
    for i := 0 to |files|
      invariant |entries| == i
      invariant var rest := OpenLoop(h, config, c, files, i, previousId, previousNext);
                var whole := OpenLoop(h, config, c, files, 0, 0, 1);
                if rest.Err? then whole == Err(rest.reason) else whole.Ok? && whole.value == entries + rest.value
    {
      var one := OpenFile(h, config, c, files[i], i, i + 1 == |files|, previousId, previousNext);
      if one.Err? {
        return Err(one.reason);
      }
      entries := entries + [one.value];
      previousId, previousNext := files[i].id, one.value.end.next;
    }
    assert OpenLoop(h, config, c, files, 0, 0, 1) == Ok(entries) by { assert entries + [] == entries; }
    if files == [] {
      return Ok(JournalState([], [], NoActive, c + 1, 1, c, 0));
    }
    r := TakeOver(h, config, c, files, entries);
  }

  /** A group whose growth can be planned, whether or not it is within capacity. */
  predicate Plannable(config: Config, c: nat, log: seq<Seg>, nextId: nat, records: seq<seq<Byte>>) {
    && GroupFits(config, records) && FrontierOf(c, log) + |records| <= U64_MAX
    && (Rotates(config, c, log, FrameSize(records)) ==> nextId + 1 <= U64_MAX)
  }

  /** Memory and disk agree with the log, and every seal it may still need is reserved. */
  ghost predicate Agrees(h: Hasher, config: Config, c: nat, log: seq<Seg>, nextId: nat, segments: seq<Meta>,
                         active: Active, nextSequence: nat, diskBytes: nat, files: map<nat, seq<Byte>>)
  {
    && LogOk(config, c, log, nextId)
    && segments == MetasOf(log)
    && active == ActiveOf(h, log)
    && nextSequence == FrontierOf(c, log)
    && diskBytes == TotalBytes(FilesOf(h, log))
    && files == ToMap(FilesOf(h, log))
  }

  class Journal {
    const h: Hasher
    const config: Config
    const dir: Directory
    var segments: seq<Meta>
    var active: Active
    var nextSequence: nat
    var nextSegmentId: nat
    var checkpointSequence: nat
    var diskBytes: nat
    var durableSequence: nat
    var fenced: bool

    /** The groups held by each retained segment. */
    ghost var log: seq<Seg>

    ghost predicate Valid()
      reads this, dir
    {
      && Agrees(h, config, checkpointSequence, log, nextSegmentId, segments, active, nextSequence, diskBytes, dir.files)
      && durableSequence == nextSequence - 1
    }

    constructor Adopt(h: Hasher, config: Config, dir: Directory, state: JournalState, ghost log: seq<Seg>)
      requires Openable(config, state.checkpoint, log) && state == JournalOf(h, state.checkpoint, log, 1)
      requires dir.files == ToMap(state.files)
      ensures Valid() && !fenced && checkpointSequence == state.checkpoint
      ensures this.h == h && this.config == config && this.dir == dir && this.log == log
    {
      this.h, this.config, this.dir, this.log := h, config, dir, log;
      segments, active, diskBytes := state.segments, state.active, state.diskBytes;
      nextSequence, nextSegmentId := state.nextSequence, state.nextSegmentId;
      checkpointSequence, durableSequence, fenced := state.checkpoint, state.nextSequence - 1, false;
      new;
      LastIdBound(config, state.checkpoint, log);
    }

    /** Scan, repair the tail and take ownership. A refused directory is left as it was. */
    static method OpenWithCheckpoint(h: Hasher, config: Config, dir: Directory, c: nat) returns (r: Result<Journal>)
      requires forall id :: id in dir.files ==> id <= U64_MAX
      modifies dir
      ensures r.Ok? <==> Open(h, config, c, Listing(old(dir.files))).Ok?
      ensures r.Ok? ==>
        && fresh(r.value) && r.value.Valid() && !r.value.fenced && r.value.checkpointSequence == c
        && r.value.h == h && r.value.config == config && r.value.dir == dir
        && Open(h, config, c, Listing(old(dir.files))) == Ok(JournalOf(h, c, r.value.log, 1))
      ensures r.Err? ==> dir.files == old(dir.files)
    {
      hide OpenLoop, TakeOver, Listing, ToMap, FilesOf, MetasOf;
      var files := Listing(dir.files);
      ListingAscends(dir.files);
      var found := Startup(h, config, c, files);
      if found.Err? {
        return Err(found.reason);
      }
      ghost var log := OpenSound(h, config, c, files);
      dir.files := ToMap(found.value.files);
      var journal := new Journal.Adopt(h, config, dir, found.value, log);
      r := Ok(journal);
    }

    /** The limits every reachable journal keeps: a seal's worth of space stays reserved while a file is active. */
    lemma WithinLimits()
      requires Valid()
      ensures diskBytes + (if active.Active? then SEAL else 0) <= config.maxTotalBytes
      ensures diskBytes == SumLens(segments) && |segments| <= config.maxSegments
      ensures active.Active? ==> active.len + SEAL <= config.segmentBytes
    {
      hide FrontierOf, Printed, Reserved, SegFits, FilesOf, TotalBytes, Chain;
      OpenableAscends(config, checkpointSequence, log);
      ReservedExact(h, log);
      RetiredBytes(h, log, |log|);
      assert log[|log|..] == [] && MetasOf(log)[..|log|] == MetasOf(log);
      assert TotalBytes(FilesOf(h, [])) == 0 by { NoBytes(h); }
      if active.Active? {
        OpenableAt(config, checkpointSequence, log, |log| - 1);
        FitsInSegment(config, log[|log| - 1]);
        ActiveLength(h, log);
      }
    }

    /** Validation and admission of a group, without I/O. */
    method AppendPlan(records: seq<seq<Byte>>, checkCapacity: bool) returns (r: Result<Plan>)
      requires !fenced ==> Valid()
      ensures checkCapacity ==>
        (r.Ok? <==> !fenced && Admitted(config, checkpointSequence, log, nextSegmentId, records))
      ensures !checkCapacity ==>
        (r.Ok? <==> !fenced && Plannable(config, checkpointSequence, log, nextSegmentId, records))
      ensures r.Ok? ==>
        var plan, size := r.value, FrameSize(records);
        && !fenced && GroupFits(config, records)
        && plan.size == size
        && plan.next == nextSequence + |records| <= U64_MAX
        && plan.rotate == Rotates(config, checkpointSequence, log, size)
        && plan.growth == PlannedGrowth(h, config, checkpointSequence, log, records)
    {
      hide FrameSize, BodySize, NextSeq, Openable, Reserved;
      if fenced {
        return Err("journal fenced; drop and reopen");
      }
      var admitted := FrameAdmission(config, records);
      if admitted.Err? {
        return Err(admitted.reason);
      }
      var size := admitted.value;
      var next := nextSequence + |records|;
      if next > U64_MAX {
        return Err("record sequence exhausted");
      }
      var rotate := active.NoActive? || active.len + size + SEAL > config.segmentBytes
                    || segments[|segments| - 1].last + 1 != nextSequence;
      if rotate && nextSegmentId + 1 > U64_MAX {
        return Err("segment ID exhausted");
      }
      var reserve := if rotate then HEADER + SEAL + (if active.Active? then SEAL else 0) else SEAL;
      OpenableAscends(config, checkpointSequence, log);
      ReservedExact(h, log);
      if checkCapacity {
        if rotate && |segments| >= config.maxSegments {
          return Err("segment count admission exceeded");
        }
        if diskBytes + size + reserve > config.maxTotalBytes {
          return Err("disk byte admission exceeded");
        }
      }
      r := Ok(Plan(size, next, rotate, size + reserve - SEAL));
    }

    method RequiredAppendBytes(records: seq<seq<Byte>>) returns (r: Result<nat>)
      requires !fenced ==> Valid()
      ensures r.Ok? <==> !fenced && Plannable(config, checkpointSequence, log, nextSegmentId, records)
      ensures r.Ok? ==> r.value == PlannedGrowth(h, config, checkpointSequence, log, records)
    {
      var plan := AppendPlan(records, false);
      r := if plan.Err? then Err(plan.reason) else Ok(plan.value.growth);
    }

    /** Seal the active file, if any. A failed write leaves a torn seal. */
    method SealActive(credit: nat) returns (left: Credit)
      requires Valid()
      modifies this, dir
      ensures fenced == old(fenced) && checkpointSequence == old(checkpointSequence)
      ensures nextSequence == old(nextSequence)
      ensures left.Left? ==>
        Valid() && active.NoActive? && log == SealLast(old(log)) && nextSegmentId == old(nextSegmentId)
      ensures left.Failed? ==> TornSeals(h, old(log), Listing(dir.files))
      ensures credit > SEAL ==> left.Left? && left.units + SEAL + 1 >= credit
    {
      hide Agrees, Listing, SealLast, TornSeals, SealBlock;
      if active.NoActive? {
        AlreadySealed(h, config, checkpointSequence, log, nextSegmentId, segments, active, nextSequence, diskBytes,
                      dir.files);
        return Left(credit);
      }
      SealStep(h, config, checkpointSequence, log, nextSegmentId, segments, active, nextSequence, diskBytes, dir.files,
               credit);
      var n := |segments| - 1;
      var id := segments[n].id;
      var seal := SealBlock(h, active.hashed, id, segments[n].last + 1);
      assert |seal| == SEAL by { SealSize(h, active.hashed, id, segments[n].last + 1); }
      active := NoActive;
      left := dir.Write(id, seal, credit);
      if left.Failed? {
        return;
      }
      segments := segments[n := segments[n].(len := segments[n].len + SEAL)];
      diskBytes := diskBytes + SEAL;
      log := SealLast(log);
    }

    /** Seal the active file and start an empty one at the frontier. */
    method Rotate(ghost records: Group, credit: nat) returns (left: Credit)
      requires Valid() && Admitted(config, checkpointSequence, log, nextSegmentId, records)
      requires Rotates(config, checkpointSequence, log, FrameSize(records))
      modifies this, dir
      ensures fenced == old(fenced) && checkpointSequence == old(checkpointSequence)
      ensures left.Left? ==>
        && Valid() && nextSegmentId == old(nextSegmentId) + 1 && nextSequence == old(nextSequence)
        && log == SealLast(old(log)) + [Seg(old(nextSegmentId), old(nextSequence), [], false)]
      ensures left.Failed? ==>
        AppendImage(h, config, checkpointSequence, old(log), old(nextSegmentId), records, Listing(dir.files))
      ensures credit > SEAL + HEADER + 2 ==> left.Left? && left.units + SEAL + HEADER + 3 >= credit
    {
      hide Agrees, LogOk, Listing, SealLast, TornSeals, SegmentHeader, Frame, Admitted, Rotates, AppendImage, FilesOf,
        ToMap, FrameSize;
      assert LogOk(config, checkpointSequence, log, nextSegmentId)
          && nextSequence == FrontierOf(checkpointSequence, log)
      by { AgreesOn(h, config, checkpointSequence, log, nextSegmentId, segments, active, nextSequence, diskBytes,
                    dir.files); }
      left := SealActive(credit);
      if left.Failed? {
        SealImage(h, config, checkpointSequence, old(log), old(nextSegmentId), records, Listing(dir.files));
        return;
      }
      left := CreateSegment(old(log), records, left.units);
    }

    /** The new file of a rotation, once the old one is sealed. */
    method CreateSegment(ghost before: seq<Seg>, ghost records: Group, credit: nat) returns (left: Credit)
      requires Valid() && active.NoActive? && log == SealLast(before)
      requires LogOk(config, checkpointSequence, before, nextSegmentId)
      requires nextSequence == FrontierOf(checkpointSequence, before)
      requires Admitted(config, checkpointSequence, before, nextSegmentId, records)
      requires Rotates(config, checkpointSequence, before, FrameSize(records))
      modifies this, dir
      ensures fenced == old(fenced) && checkpointSequence == old(checkpointSequence)
      ensures nextSequence == old(nextSequence)
      ensures left.Left? ==>
        && Valid() && nextSegmentId == old(nextSegmentId) + 1
        && log == old(log) + [Seg(old(nextSegmentId), nextSequence, [], false)]
      ensures left.Failed? ==>
        AppendImage(h, config, checkpointSequence, before, old(nextSegmentId), records, Listing(dir.files))
      ensures credit > HEADER + 1 ==> left.Left? && left.units + HEADER + 2 >= credit
    {
      hide Agrees, LogOk, Listing, SealLast, SegmentHeader, Frame, Admitted, Rotates, AppendImage, FilesOf, ToMap,
        FrameSize, FrontierOf;
      var id := nextSegmentId;
      ghost var base := dir.files;
      RotateStep(h, config, checkpointSequence, before, id, segments, nextSequence, diskBytes, base, records);
      var header := SegmentHeader(h, id, nextSequence);
      assert |header| == HEADER by { HeaderSize(h, id, nextSequence); }
      left := dir.Create(id, credit);
      if left.Failed? {
        return;
      }
      left := dir.Write(id, header, left.units);
      if left.Failed? {
        FilledFile(base, id, dir.files[id]);
        RotationTorn(h, config, checkpointSequence, before, id, records, base, dir.files[id]);
        return;
      }
      FilledFile(base, id, header);
      active := Active(HEADER, header);
      segments := segments + [Meta(id, HEADER, nextSequence, nextSequence - 1)];
      nextSegmentId := nextSegmentId + 1;
      diskBytes := diskBytes + HEADER;
      log := log + [Seg(id, nextSequence, [], false)];
    }

    /**
     * Append one group. A refused group changes nothing; a durable one is added whole, growing the
     * directory by exactly the planned bytes; an I/O failure fences and leaves a crash image.
     */
    method AppendGroup(records: seq<seq<Byte>>, credit: nat) returns (r: Result<DurableGroup>)
      requires !fenced ==> Valid()
      modifies this, dir
      ensures !fenced ==> Valid()
      ensures r.Ok? ==>
        && !old(fenced) && !fenced
        && Admitted(config, old(checkpointSequence), old(log), old(nextSegmentId), records)
        && checkpointSequence == old(checkpointSequence)
        && log == Appended(config, checkpointSequence, old(log), old(nextSegmentId), records)
        && nextSegmentId == NextIdAfter(config, checkpointSequence, old(log), old(nextSegmentId), records)
        && r.value == DurableGroup(old(nextSequence), nextSequence - 1) && nextSequence == old(nextSequence) + |records|
        && diskBytes == old(diskBytes) + PlannedGrowth(h, config, checkpointSequence, old(log), records)
      ensures r.Err? && (old(fenced) || !fenced) ==> unchanged(this) && unchanged(dir)
      ensures r.Err? && !fenced ==> !Admitted(config, checkpointSequence, log, nextSegmentId, records)
      ensures r.Err? && fenced && !old(fenced) ==>
        && Admitted(config, old(checkpointSequence), old(log), old(nextSegmentId), records)
        && AppendImage(h, config, old(checkpointSequence), old(log), old(nextSegmentId), records, Listing(dir.files))
      ensures credit > FrameSize(records) + SEAL + HEADER + 3 ==>
        (r.Ok? <==> !old(fenced) && Admitted(config, old(checkpointSequence), old(log), old(nextSegmentId), records))
    {
      hide Agrees, LogOk, Listing, SealLast, Frame, Admitted, Rotates, AppendImage, FrameSize, Appended, GroupFits,
        PlannedGrowth,
        TotalBytes, FilesOf, FrontierOf;
      var planned := AppendPlan(records, true);
      if planned.Err? {
        return Err(planned.reason);
      }
      assert |records| > 0 by { FitsNonempty(config, records); }
      var receipt := DurableGroup(nextSequence, planned.value.next - 1);
      AgreesOn(h, config, checkpointSequence, log, nextSegmentId, segments, active, nextSequence, diskBytes, dir.files);
      GrowthExact(h, config, checkpointSequence, log, nextSegmentId, records);
      fenced := true;
      var left := Left(credit);
      if planned.value.rotate {
        left := Rotate(records, credit);
        if left.Failed? {
          return Err("ambiguous rotation");
        }
      }
      left := WriteFrame(old(log), old(nextSegmentId), records, left.units);
      if left.Failed? {
        return Err("ambiguous append");
      }
      AgreesOn(h, config, checkpointSequence, log, nextSegmentId, segments, active, nextSequence, diskBytes, dir.files);
      fenced := false;
      r := Ok(receipt);
    }

    /** The group's frame in the active file, after any rotation. */
    method WriteFrame(ghost before: seq<Seg>, ghost beforeId: nat, records: Group, credit: nat) returns (left: Credit)
      requires Valid() && LogOk(config, checkpointSequence, before, beforeId)
      requires nextSequence == FrontierOf(checkpointSequence, before)
      requires Admitted(config, checkpointSequence, before, beforeId, records)
      requires if Rotates(config, checkpointSequence, before, FrameSize(records))
               then nextSegmentId == beforeId + 1 && log == SealLast(before) + [Seg(beforeId, nextSequence, [], false)]
               else nextSegmentId == beforeId && log == before
      modifies this, dir
      ensures fenced == old(fenced) && checkpointSequence == old(checkpointSequence)
      ensures left.Left? ==>
        && Valid() && nextSegmentId == old(nextSegmentId) && nextSequence == old(nextSequence) + |records|
        && log == Appended(config, checkpointSequence, before, beforeId, records)
      ensures left.Failed? ==>
        AppendImage(h, config, checkpointSequence, before, beforeId, records, Listing(dir.files))
      ensures credit > FrameSize(records) ==> left.Left?
    {
      hide Agrees, LogOk, Listing, SealLast, Frame, Admitted, Rotates, AppendImage, FrameSize, Appended, FrontierOf;
      FrameStep(h, config, checkpointSequence, before, beforeId, log, nextSegmentId, segments, active,
                nextSequence, diskBytes, dir.files, records, credit);
      var frame := Frame(h, records, nextSequence);
      assert |frame| == FrameSize(records) by { FrameLength(h, records, nextSequence); }
      var n := |segments| - 1;
      var id := segments[n].id;
      left := dir.Write(id, frame, credit);
      if left.Failed? {
        return;
      }
      active := Active(active.len + |frame|, active.hashed + frame);
      nextSequence := nextSequence + |records|;
      segments := segments[n := segments[n].(len := active.len, last := nextSequence - 1)];
      diskBytes := diskBytes + |frame|;
      durableSequence := nextSequence - 1;
      log := Appended(config, checkpointSequence, before, beforeId, records);
    }

    /** Revalidate every retained segment and deliver its groups. */
    method Scan() returns (r: Result<()>, visited: seq<ReplayGroup>)
      requires !fenced ==> Valid()
      ensures r.Ok? <==> !fenced
      ensures r.Ok? ==> Delivered(visited) == LogRecs(log)
    {
      hide Agrees, LogOk, Inspect, FilesOf, ToMap, MetasOf, EndOf, FrontierOf, LogRecs, Printed;
      visited := [];
      if fenced {
        return Err("journal fenced; drop and reopen"), visited;
      }
      AgreesIds(h, config, checkpointSequence, log, nextSegmentId, segments, active, nextSequence, diskBytes,
                dir.files);
      AgreesOn(h, config, checkpointSequence, log, nextSegmentId, segments, active, nextSequence, diskBytes, dir.files);
      var next := checkpointSequence + 1;
      assert log[..0] == [];
      NothingScanned(checkpointSequence);
      for i := 0 to |segments|
        invariant Delivered(visited) == LogRecs(log[..i])
        invariant next == FrontierOf(checkpointSequence, log[..i])
      {
        ScannedSegment(h, config, checkpointSequence, log, nextSegmentId, segments, active, nextSequence, diskBytes,
                       dir.files, i);
        var end, groups := InspectReader(h, config, segments[i].id, segments[i].first, dir.files[segments[i].id],
                                         false);
        DeliveredConcat(visited, groups);
        visited := visited + groups;
        if end.Err? || (i + 1 < |segments| && !end.value.sealed) || end.value.next != segments[i].last + 1 {
          return Err("segment changed"), visited;
        }
        next := Max(end.value.next, checkpointSequence + 1);
      }
      assert log[..|log|] == log;
      if next != nextSequence {
        return Err("scan frontier changed"), visited;
      }
      r := Ok(());
    }

    /** Unlink the covered files back to front. A failure leaves the files before it. */
    method UnlinkCovered(covered: nat, credit: nat) returns (left: Credit, retired: nat)
      requires Valid() && covered <= |log|
      modifies dir
      ensures left.Left? ==>
        dir.files == ToMap(FilesOf(h, Gap(log, 0, covered))) && retired == SumLens(segments[..covered])
      ensures left.Failed? ==> exists j: nat :: j <= covered && Listing(dir.files) == FilesOf(h, Gap(log, j, covered))
      ensures credit >= covered ==> left.Left?
    {
      hide Agrees, LogOk, Listing, FilesOf, ToMap, MetasOf, Gap, IdsIn;
      ghost var base := log;
      AgreesIds(h, config, checkpointSequence, log, nextSegmentId, segments, active, nextSequence, diskBytes,
                dir.files);
      AgreesOn(h, config, checkpointSequence, log, nextSegmentId, segments, active, nextSequence, diskBytes, dir.files);
      GapWhole(base, covered);
      left, retired := Left(credit), 0;
      for j := covered downto 0
        invariant left.Left? && left.units + (covered - j) == credit && retired == SumLens(segments[j..covered])
        invariant dir.files == ToMap(FilesOf(h, Gap(base, j, covered)))
      {
        UnlinkStep(h, base, j, covered);
        left := dir.Unlink(segments[j].id, left.units);
        if left.Failed? {
          GapListing(h, base, j + 1, covered);
          return;
        }
        SumNext(segments, j, covered);
        retired := retired + segments[j].len;
      }
    }

    /**
     * Retire the segments a durable checkpoint covers. Records above it and the frontier stay; a
     * failure fences and leaves a partly retired directory.
     */
    method ReclaimThrough(cut: nat, credit: nat) returns (r: Result<()>)
      requires !fenced ==> Valid()
      modifies this, dir
      ensures !fenced ==> Valid()
      ensures r.Ok? ==>
        && !old(fenced) && !fenced && checkpointSequence == cut && nextSequence == old(nextSequence)
        && old(checkpointSequence) <= cut < nextSequence
        && log == Retired(old(log), cut)
        && Above(cut, LogRecs(log)) == Above(cut, LogRecs(old(log)))
      ensures r.Err? && (old(fenced) || !fenced) ==> unchanged(this) && unchanged(dir)
      ensures r.Err? && fenced && !old(fenced) ==>
        && old(checkpointSequence) <= cut < old(nextSequence)
        && ReclaimImage(h, old(log), cut, Listing(dir.files))
      ensures credit > SEAL + |old(log)| ==>
        (r.Ok? <==> !old(fenced) && old(checkpointSequence) <= cut < old(nextSequence))
    {
      hide Agrees, LogOk, Listing, SealLast, TornSeals, FilesOf, ToMap, TotalBytes, MetasOf, LogRecs, Above, Gap,
        FrontierOf, CoveredCount;
      if fenced || cut < checkpointSequence || cut > durableSequence {
        return Err("fenced journal, regressed authority or future frontier");
      }
      AgreesOn(h, config, checkpointSequence, log, nextSegmentId, segments, active, nextSequence, diskBytes, dir.files);
      var covered := 0;
      while covered < |segments| && segments[covered].last <= cut
        invariant covered <= |segments|
        invariant forall i :: 0 <= i < covered ==> segments[i].last <= cut
      {
        covered := covered + 1;
      }
      assert covered == CoveredCount(log, cut) by {
        AgreesIds(h, config, checkpointSequence, log, nextSegmentId, segments, active, nextSequence, diskBytes,
                  dir.files);
        CountIs(log, cut, covered);
      }
      CountCovers(log, cut);
      RetiredOk(config, checkpointSequence, cut, log, nextSegmentId,
                if covered == 0 || (cut == 0 && covered < |segments|) then 0 else covered);
      if covered == 0 || (cut == 0 && covered < |segments|) {
        assert log[0..] == log;
        RaiseStep(h, config, checkpointSequence, log, nextSegmentId, segments, active, nextSequence, diskBytes,
                  dir.files, cut);
        checkpointSequence := cut;
        return Ok(());
      }
      fenced := true;
      var left := Left(credit);
      if covered == |segments| {
        left := SealActive(credit);
        if left.Failed? {
          return Err("ambiguous seal");
        }
        SealedRetires(config, checkpointSequence, old(log), nextSegmentId, cut);
      }
      AgreesOn(h, config, checkpointSequence, log, nextSegmentId, segments, active, nextSequence, diskBytes, dir.files);
      RetireStep(h, config, checkpointSequence, log, nextSegmentId, segments, active, nextSequence, diskBytes,
                 dir.files, cut, covered);
      var retired: nat;
      left, retired := UnlinkCovered(covered, left.units);
      if left.Failed? {
        RetireImage(h, old(log), log, cut, Listing(dir.files));
        return Err("ambiguous unlink");
      }
      segments := segments[covered..];
      if cut == 0 {
        nextSegmentId := 1;
      }
      diskBytes := diskBytes - retired;
      checkpointSequence := cut;
      log := log[covered..];
      fenced := false;
      r := Ok(());
    }
  }

  // ------------------------------------------------------------ values behind the methods

  lemma NoBytes(h: Hasher)
    ensures TotalBytes(FilesOf(h, [])) == 0
  {
  }

  lemma ActiveLength(h: Hasher, log: seq<Seg>)
    requires ActiveOf(h, log).Active?
    ensures log != [] && ActiveOf(h, log).len == BodySize(log[|log| - 1].groups)
  {
    hide Body;
  }

  lemma SealSize(h: Hasher, hashed: seq<Byte>, id: nat, next: nat)
    ensures |SealBlock(h, hashed, id, next)| == SEAL
  {
  }

  lemma HeaderSize(h: Hasher, id: nat, first: nat)
    ensures |SegmentHeader(h, id, first)| == HEADER
  {
  }

  lemma FrameLength(h: Hasher, records: Group, first: nat)
    ensures |Frame(h, records, first)| == FrameSize(records)
  {
  }

  /** Writing to a just created file. */
  lemma FilledFile(files: map<nat, seq<Byte>>, id: nat, written: seq<Byte>)
    ensures files[id := []][id := [] + written] == files[id := written]
    ensures files[id := []][id := written] == files[id := written]
    ensures [] + written == written
  {
  }

  /** The active file with some part of its seal. */
  ghost predicate TornSeals(h: Hasher, log: seq<Seg>, files: seq<File>) {
    exists k: nat :: TornSealImage(h, log, k, files)
  }

  lemma AgreesOn(h: Hasher, config: Config, c: nat, log: seq<Seg>, nextId: nat, segments: seq<Meta>,
                 active: Active, nextSequence: nat, diskBytes: nat, files: map<nat, seq<Byte>>)
    requires Agrees(h, config, c, log, nextId, segments, active, nextSequence, diskBytes, files)
    ensures LogOk(config, c, log, nextId) && nextSequence == FrontierOf(c, log) && |segments| == |log|
    ensures diskBytes == TotalBytes(FilesOf(h, log))
  {
    hide LogOk, ToMap, FilesOf, TotalBytes, FrontierOf, Body;
  }

  lemma AlreadySealed(h: Hasher, config: Config, c: nat, log: seq<Seg>, nextId: nat, segments: seq<Meta>,
                      active: Active, nextSequence: nat, diskBytes: nat, files: map<nat, seq<Byte>>)
    requires Agrees(h, config, c, log, nextId, segments, active, nextSequence, diskBytes, files)
    requires active.NoActive?
    ensures SealLast(log) == log
  {
    hide LogOk, ToMap, FilesOf, TotalBytes, MetasOf, FrontierOf, Body;
    if log != [] {
      assert log[|log| - 1].(sealed := true) == log[|log| - 1];
    }
  }

  /** One seal write: the new state if it completes, and a torn seal wherever it stops. */
  lemma SealStep(h: Hasher, config: Config, c: nat, log: seq<Seg>, nextId: nat, segments: seq<Meta>,
                 active: Active, nextSequence: nat, diskBytes: nat, files: map<nat, seq<Byte>>, credit: nat)
    requires Agrees(h, config, c, log, nextId, segments, active, nextSequence, diskBytes, files)
    requires active.Active?
    ensures |segments| > 0 && segments[|segments| - 1].last + 1 >= 0
    ensures var meta := segments[|segments| - 1];
            var seal := SealBlock(h, active.hashed, meta.id, meta.last + 1);
            && meta.id in files
            && Agrees(h, config, c, SealLast(log), nextId, segments[|segments| - 1 := meta.(len := meta.len + SEAL)],
                      NoActive, nextSequence, diskBytes + SEAL, files[meta.id := files[meta.id] + seal])
            && (credit <= SEAL ==>
                  TornSeals(h, log, Listing(files[meta.id := files[meta.id] + seal[..credit]])))
  {
    hide LogOk, FrameSize, NextSeq, BodySize, ToMap, Listing, TornSeals, FilesOf, TotalBytes, Body, SealBlock,
      Reserved, LogRecs;
    var n := |log| - 1;
    var sealed := log[n].(sealed := true);
    SealKeeps(config, c, log, nextId);
    SealBytes(h, log[n]);
    ReplacedLast(h, log, sealed);
    assert MetaOf(sealed) == MetaOf(log[n]).(len := MetaOf(log[n]).len + SEAL);
    if credit <= SEAL {
      SealTorn(h, config, c, log, nextId, files, credit);
    }
  }

  lemma SealTorn(h: Hasher, config: Config, c: nat, log: seq<Seg>, nextId: nat, files: map<nat, seq<Byte>>, credit: nat)
    requires LogOk(config, c, log, nextId) && log != [] && !log[|log| - 1].sealed && credit <= SEAL
    requires files == ToMap(FilesOf(h, log))
    ensures var n := |log| - 1;
            var seal := SealBlock(h, ActiveOf(h, log).hashed, log[n].id, EndOf(log[n]));
            && log[n].id in files
            && TornSeals(h, log, Listing(files[log[n].id := files[log[n].id] + seal[..credit]]))
  {
    hide LogOk, FrameSize, NextSeq, BodySize, ToMap, Listing, TornFiles, FilesOf, TotalBytes, Body, SealBlock,
      Reserved, LogRecs;
    var n := |log| - 1;
    var sealed := log[n].(sealed := true);
    var seal := SealBlock(h, ActiveOf(h, log).hashed, log[n].id, EndOf(log[n]));
    SealKeeps(config, c, log, nextId);
    SealBytes(h, log[n]);
    ReplacedLast(h, log, sealed);
    var k := |Printed(h, log[n])| + credit;
    assert Printed(h, sealed)[..k] == Printed(h, log[n]) + seal[..credit];
    OkAscends(config, c, SealLast(log), nextId);
    TornListing(h, SealLast(log), k);
    assert ToMap(FilesOf(h, SealLast(log)))[sealed.id := Printed(h, sealed)[..k]]
        == files[sealed.id := Printed(h, log[n]) + seal[..credit]];
    assert TornSealImage(h, log, k, Listing(files[sealed.id := files[sealed.id] + seal[..credit]]));
  }

  lemma OkAscends(config: Config, c: nat, log: seq<Seg>, nextId: nat)
    requires LogOk(config, c, log, nextId)
    ensures IdsAscend(log)
  {
    OpenableAscends(config, c, log);
  }

  lemma SealImage(h: Hasher, config: Config, c: nat, log: seq<Seg>, nextId: nat, records: Group, files: seq<File>)
    requires TornSeals(h, log, files)
    ensures AppendImage(h, config, c, log, nextId, records, files)
  {
    hide TornSealImage, TornFrameImage;
  }

  /** A sealed log with nothing of the new file is one of the crash images. */
  lemma SealedImage(h: Hasher, config: Config, c: nat, log: seq<Seg>, nextId: nat, records: Group)
    requires LogOk(config, c, log, nextId)
    ensures AppendImage(h, config, c, log, nextId, records, Listing(ToMap(FilesOf(h, SealLast(log)))))
  {
    hide Openable, FrameSize, NextSeq, ToMap, Listing, Reserved, Rotates, Appended, Printed;
    var sealed := SealLast(log);
    SealKeeps(config, c, log, nextId);
    OpenableAscends(config, c, sealed);
    IntactListing(h, sealed);
    if log != [] {
      var n := |log| - 1;
      var k := |Printed(h, sealed[n])|;
      assert Printed(h, sealed[n])[..k] == Printed(h, sealed[n]);
      assert TornFiles(h, sealed, k) == FilesOf(h, sealed);
      assert TornSealImage(h, log, k, FilesOf(h, sealed));
    }
  }

  /** Creating the next file, once the old one is sealed: the new state, and the image without it. */
  lemma RotateStep(h: Hasher, config: Config, c: nat, log: seq<Seg>, nextId: nat, segments: seq<Meta>,
                   nextSequence: nat, diskBytes: nat, files: map<nat, seq<Byte>>, records: Group)
    requires LogOk(config, c, log, nextId) && nextSequence == FrontierOf(c, log)
    requires Agrees(h, config, c, SealLast(log), nextId, segments, NoActive, nextSequence, diskBytes, files)
    requires Admitted(config, c, log, nextId, records) && Rotates(config, c, log, FrameSize(records))
    ensures var header := SegmentHeader(h, nextId, nextSequence);
            && nextId !in files
            && Agrees(h, config, c, SealLast(log) + [Seg(nextId, nextSequence, [], false)], nextId + 1,
                      segments + [Meta(nextId, HEADER, nextSequence, nextSequence - 1)], Active(HEADER, header),
                      nextSequence, diskBytes + HEADER, files[nextId := header])
    ensures AppendImage(h, config, c, log, nextId, records, Listing(files)) && files == ToMap(FilesOf(h, SealLast(log)))
  {
    hide Openable, FrameSize, ToMap, TotalBytes, FilesOf, SegmentHeader, Listing, AppendImage;
    var sealed, empty := SealLast(log), Seg(nextId, nextSequence, [], false);
    FreshSeg(config, c, log, nextId, records);
    FreshId(h, config, c, sealed, nextId);
    AddedLast(h, sealed, empty);
    assert PreviousId(sealed, |sealed|) == PreviousId(log, |log|);
    assert PreviousEnd(sealed, |sealed|) == PreviousEnd(log, |log|);
    SealKeeps(config, c, log, nextId);
    SnocOpenable(config, c, sealed, empty);
    SealedImage(h, config, c, log, nextId, records);
  }

  /** However much of the new file is written, the directory is a crash image of the append. */
  lemma RotationTorn(h: Hasher, config: Config, c: nat, log: seq<Seg>, nextId: nat, records: Group,
                     files: map<nat, seq<Byte>>, written: seq<Byte>)
    requires LogOk(config, c, log, nextId) && Admitted(config, c, log, nextId, records)
    requires Rotates(config, c, log, FrameSize(records))
    requires files == ToMap(FilesOf(h, SealLast(log)))
    requires written <= SegmentHeader(h, nextId, FrontierOf(c, log)) + Frame(h, records, FrontierOf(c, log))
    ensures AppendImage(h, config, c, log, nextId, records, Listing(files[nextId := written]))
  {
    hide LogOk, FrameSize, ToMap, TotalBytes, FilesOf, SegmentHeader, Listing, Frame, TornFiles, Admitted, Rotates,
      BodySize,
      Printed, AppendImage, SealLast, NextSeq;
    var sealed, full := SealLast(log), Seg(nextId, FrontierOf(c, log), [records], false);
    var all := sealed + [full];
    AppendRotating(config, c, log, nextId, records);
    OkAscends(config, c, all, nextId + 1);
    AddedLast(h, sealed, full);
    FullFile(h, nextId, FrontierOf(c, log), records);
    var k := |written|;
    assert Printed(h, full)[..k] == written;
    TornListing(h, all, k);
    assert ToMap(FilesOf(h, all))[nextId := written] == files[nextId := written];
    FrameImage(h, config, c, log, nextId, records, k, TornFiles(h, all, k));
  }

  lemma FullFile(h: Hasher, id: nat, first: nat, records: Group)
    ensures Printed(h, Seg(id, first, [records], false)) == SegmentHeader(h, id, first) + Frame(h, records, first)
  {
    hide SegmentHeader, Frame;
    FrameBytes(h, Seg(id, first, [], false), records);
    assert [] + [records] == [records];
  }

  lemma FrameImage(h: Hasher, config: Config, c: nat, log: seq<Seg>, nextId: nat, records: Group, k: nat,
                   files: seq<File>)
    requires TornFrameImage(h, config, c, log, nextId, records, k, files)
    ensures AppendImage(h, config, c, log, nextId, records, files)
  {
    hide TornFrameImage, TornSealImage;
  }

  lemma FitsNonempty(config: Config, records: seq<seq<Byte>>)
    requires GroupFits(config, records)
    ensures |records| > 0
  {
  }

  /** The bytes an append plans are the bytes the directory gains. */
  lemma GrowthExact(h: Hasher, config: Config, c: nat, log: seq<Seg>, nextId: nat, records: Group)
    requires LogOk(config, c, log, nextId) && Admitted(config, c, log, nextId, records)
    ensures TotalBytes(FilesOf(h, Appended(config, c, log, nextId, records)))
         == TotalBytes(FilesOf(h, log)) + PlannedGrowth(h, config, c, log, records)
  {
    hide Openable, FrameSize, Reserved, TotalBytes, FilesOf, BodySize, NextSeq, Admitted;
    var all := Appended(config, c, log, nextId, records);
    AppendKeeps(config, c, log, nextId, records);
    OpenableAscends(config, c, log);
    OpenableAscends(config, c, all);
    ReservedExact(h, log);
    ReservedExact(h, all);
  }

  /** The frame's write: the new state if it completes, and a crash image wherever it stops. */
  lemma FrameStep(h: Hasher, config: Config, c: nat, log: seq<Seg>, nextId: nat, now: seq<Seg>, nowId: nat,
                  segments: seq<Meta>, active: Active, nextSequence: nat, diskBytes: nat,
                  files: map<nat, seq<Byte>>, records: Group, credit: nat)
    requires LogOk(config, c, log, nextId) && nextSequence == FrontierOf(c, log)
    requires Admitted(config, c, log, nextId, records)
    requires Agrees(h, config, c, now, nowId, segments, active, nextSequence, diskBytes, files)
    requires if Rotates(config, c, log, FrameSize(records))
             then nowId == nextId + 1 && now == SealLast(log) + [Seg(nextId, nextSequence, [], false)]
             else nowId == nextId && now == log
    ensures |segments| > 0 && active.Active?
    ensures var meta, frame := segments[|segments| - 1], Frame(h, records, nextSequence);
            && meta.id in files
            && Agrees(h, config, c, Appended(config, c, log, nextId, records), nowId,
                      segments[|segments| - 1 := meta.(len := active.len + |frame|,
                                                       last := nextSequence + |records| - 1)],
                      Active(active.len + |frame|, active.hashed + frame),
                      nextSequence + |records|, diskBytes + |frame|, files[meta.id := files[meta.id] + frame])
            && (credit <= |frame| ==>
                  AppendImage(h, config, c, log, nextId, records,
                              Listing(files[meta.id := files[meta.id] + frame[..credit]])))
  {
    hide LogOk, FrameSize, SegmentHeader, Listing, Frame, Admitted, AppendImage, Rotates, SealLast, Appended, NextSeq,
      BodySize, ActiveOf, FilesOf, ToMap, TotalBytes, MetasOf, FrontierOf;
    var frame := Frame(h, records, nextSequence);
    AppendKeeps(config, c, log, nextId, records);
    AppendedIs(config, c, log, nextId, now, records);
    MetaAt(now, |now| - 1);
    GrownLast(h, now, records, Appended(config, c, log, nextId, records), frame);
    if credit <= |frame| {
      assert frame[..credit] <= frame;
      if Rotates(config, c, log, FrameSize(records)) {
        RotatedTorn(h, config, c, log, nextId, records, files, frame[..credit]);
      } else {
        InPlaceTorn(h, config, c, log, nextId, records, files, frame[..credit]);
      }
    }
  }

  /** What one more group in the active file does to metadata, running hash, byte count and directory. */
  lemma GrownLast(h: Hasher, now: seq<Seg>, records: Group, all: seq<Seg>, frame: seq<Byte>)
    requires now != [] && !now[|now| - 1].sealed && frame == Frame(h, records, EndOf(now[|now| - 1]))
    requires all == now[|now| - 1 := now[|now| - 1].(groups := now[|now| - 1].groups + [records])]
    ensures ActiveOf(h, now).Active?
    ensures var n, active := |now| - 1, ActiveOf(h, now);
            && MetasOf(all) == MetasOf(now)[n := Meta(now[n].id, active.len + |frame|, now[n].first,
                                                      EndOf(now[n]) + |records| - 1)]
            && ActiveOf(h, all) == Active(active.len + |frame|, active.hashed + frame)
    ensures TotalBytes(FilesOf(h, all)) == TotalBytes(FilesOf(h, now)) + |frame|
    ensures var id, files := now[|now| - 1].id, ToMap(FilesOf(h, now));
            id in files && ToMap(FilesOf(h, all)) == files[id := files[id] + frame]
  {
    hide FrameSize, ToMap, TotalBytes, FilesOf, MetasOf, Frame, NextSeq, BodySize, Body, Printed;
    var n := |now| - 1;
    var grown := all[n];
    FrameBytes(h, now[n], records);
    BodySnoc(h, now[n].id, now[n].first, now[n].groups, records);
    ReplacedLast(h, now, grown);
  }

  lemma MetaAt(log: seq<Seg>, n: nat)
    requires n < |log|
    ensures MetasOf(log)[n] == MetaOf(log[n])
  {
  }

  lemma AppendedIs(config: Config, c: nat, log: seq<Seg>, nextId: nat, now: seq<Seg>, records: Group)
    requires if Rotates(config, c, log, FrameSize(records))
             then now == SealLast(log) + [Seg(nextId, FrontierOf(c, log), [], false)]
             else now == log
    ensures |now| > 0
    ensures var n := |now| - 1;
            && now[n := now[n].(groups := now[n].groups + [records])] == Appended(config, c, log, nextId, records)
            && !now[n].sealed && EndOf(now[n]) == FrontierOf(c, log)
            && now[n].id == if Rotates(config, c, log, FrameSize(records)) then nextId else log[|log| - 1].id
  {
    hide FrameSize, BodySize;
    assert [] + [records] == [records];
  }

  lemma RotatedTorn(h: Hasher, config: Config, c: nat, log: seq<Seg>, nextId: nat, records: Group,
                    files: map<nat, seq<Byte>>, written: seq<Byte>)
    requires LogOk(config, c, log, nextId) && Admitted(config, c, log, nextId, records)
    requires Rotates(config, c, log, FrameSize(records))
    requires files == ToMap(FilesOf(h, SealLast(log) + [Seg(nextId, FrontierOf(c, log), [], false)]))
    requires written <= Frame(h, records, FrontierOf(c, log))
    ensures nextId in files
    ensures AppendImage(h, config, c, log, nextId, records, Listing(files[nextId := files[nextId] + written]))
  {
    hide LogOk, FrameSize, ToMap, TotalBytes, FilesOf, SegmentHeader, Listing, Frame, Admitted, AppendImage, Rotates;
    var sealed, empty := SealLast(log), Seg(nextId, FrontierOf(c, log), [], false);
    var base := ToMap(FilesOf(h, sealed));
    AddedLast(h, sealed, empty);
    var header := SegmentHeader(h, nextId, FrontierOf(c, log));
    assert files == base[nextId := header];
    RotationTorn(h, config, c, log, nextId, records, base, header + written);
    assert files[nextId := header + written] == base[nextId := header + written];
  }

  lemma InPlaceTorn(h: Hasher, config: Config, c: nat, log: seq<Seg>, nextId: nat, records: Group,
                    files: map<nat, seq<Byte>>, written: seq<Byte>)
    requires LogOk(config, c, log, nextId) && Admitted(config, c, log, nextId, records)
    requires !Rotates(config, c, log, FrameSize(records))
    requires files == ToMap(FilesOf(h, log))
    requires written <= Frame(h, records, FrontierOf(c, log))
    ensures log[|log| - 1].id in files
    ensures AppendImage(h, config, c, log, nextId, records,
                        Listing(files[log[|log| - 1].id := files[log[|log| - 1].id] + written]))
  {
    hide LogOk, FrameSize, ToMap, TotalBytes, FilesOf, SegmentHeader, Listing, Frame, Admitted, TornFiles, BodySize,
      NextSeq,
      AppendImage, Body;
    var n := |log| - 1;
    var all := Appended(config, c, log, nextId, records);
    AppendInPlace(config, c, log, nextId, records);
    OkAscends(config, c, all, nextId);
    FrameBytes(h, log[n], records);
    ReplacedLast(h, log, all[n]);
    var k := |Printed(h, log[n])| + |written|;
    assert Printed(h, all[n])[..k] == Printed(h, log[n]) + written;
    TornListing(h, all, k);
    assert ToMap(FilesOf(h, all))[log[n].id := Printed(h, log[n]) + written]
        == files[log[n].id := files[log[n].id] + written];
    FrameImage(h, config, c, log, nextId, records, k, TornFiles(h, all, k));
  }

  // ------------------------------------------------------------ replay

  /** The records a replay visitor is handed, in order. */
  function Delivered(visited: seq<ReplayGroup>): (r: seq<Rec>) {
    if visited == [] then []
    else
      var last := visited[|visited| - 1];
      Delivered(visited[..|visited| - 1]) + GroupRecs(last.first, last.records)
  }

  lemma {:induction false} DeliveredConcat(a: seq<ReplayGroup>, b: seq<ReplayGroup>)
    ensures Delivered(a + b) == Delivered(a) + Delivered(b)
  {
    hide GroupRecs;
    if b == [] {
      assert a + b == a;
    } else {
      var n := |b| - 1;
      assert (a + b)[..|a| + n] == a + b[..n];
      DeliveredConcat(a, b[..n]);
    }
  }

  lemma {:induction false} VisitsDeliver(first: nat, groups: seq<Group>)
    ensures Delivered(Visits(first, groups)) == SegRecs(first, groups)
  {
    hide GroupRecs;
    if groups != [] {
      VisitsDeliver(first, groups[..|groups| - 1]);
    }
  }

  lemma NothingScanned(c: nat)
    ensures Delivered([]) == LogRecs([]) && FrontierOf(c, []) == c + 1
  {
  }

  /** One segment of the scan: its file is intact and hands over exactly its records. */
  lemma ScannedSegment(h: Hasher, config: Config, c: nat, log: seq<Seg>, nextId: nat, segments: seq<Meta>,
                       active: Active, nextSequence: nat, diskBytes: nat, files: map<nat, seq<Byte>>, i: nat)
    requires Agrees(h, config, c, log, nextId, segments, active, nextSequence, diskBytes, files) && i < |log|
    ensures |segments| == |log| && segments[i].id in files
    ensures var out := Inspect(h, config, segments[i].id, segments[i].first, files[segments[i].id], false);
            && out.result.Ok? && out.result.value.next == segments[i].last + 1
            && (i + 1 < |log| ==> out.result.value.sealed)
            && Delivered(out.visited) == SegRecs(log[i].first, log[i].groups)
            && FrontierOf(c, log[..i + 1]) == Max(out.result.value.next, c + 1)
    ensures LogRecs(log[..i + 1]) == LogRecs(log[..i]) + SegRecs(log[i].first, log[i].groups)
  {
    hide Openable, Inspect, FilesOf, ToMap, Printed, TotalBytes, ActiveOf, NextSeq, LogRecs, CutOutcome;
    OpenableAt(config, c, log, i);
    OkAscends(config, c, log, nextId);
    FileAt(h, log, i);
    var p := Printed(h, log[i]);
    StrictCut(h, config, log[i], |p|);
    UncutIsClean(h, log[i]);
    assert p[..|p|] == p;
    VisitsDeliver(log[i].first, log[i].groups);
    assert log[..i + 1] == log[..i] + [log[i]];
    LogRecsSnoc(log[..i], log[i]);
  }

  lemma {:induction false} FileAt(h: Hasher, log: seq<Seg>, i: nat)
    requires IdsAscend(log) && i < |log|
    ensures log[i].id in ToMap(FilesOf(h, log)) && ToMap(FilesOf(h, log))[log[i].id] == Printed(h, log[i])
  {
    hide Printed, FilesOf, ToMap;
    var n := |log| - 1;
    assert log == log[..n] + [log[n]];
    SnocFile(h, log[..n], log[n]);
    if i < n {
      FileAt(h, log[..n], i);
      DistinctIds(log, i, n);
    }
  }

  // ------------------------------------------------------------ retirement

  /** How many leading segments end at or below `cut`. */
  function CoveredCount(log: seq<Seg>, cut: nat): (r: nat)
    ensures r <= |log|
  {
    if log == [] then 0
    else
      var n := |log| - 1;
      var init := CoveredCount(log[..n], cut);
      if init == n && EndOf(log[n]) <= cut + 1 then init + 1 else init
  }

  lemma {:induction false} CountIs(log: seq<Seg>, cut: nat, covered: nat)
    requires covered <= |log| && forall i :: 0 <= i < covered ==> EndOf(log[i]) <= cut + 1
    requires covered < |log| ==> EndOf(log[covered]) > cut + 1
    ensures CoveredCount(log, cut) == covered
  {
    if log != [] {
      var n := |log| - 1;
      CountIs(log[..n], cut, if covered <= n then covered else n);
    }
  }

  lemma {:induction false} CountCovers(log: seq<Seg>, cut: nat)
    ensures CoveredBy(cut, log, CoveredCount(log, cut))
  {
    hide EndOf;
    if log != [] {
      CountCovers(log[..|log| - 1], cut);
    }
  }

  /** What reclaiming through `cut` keeps. */
  function Retired(log: seq<Seg>, cut: nat): (r: seq<Seg>) {
    var covered := CoveredCount(log, cut);
    if covered == 0 || (cut == 0 && covered < |log|) then log else log[covered..]
  }

  /** The log retirement unlinks files of: sealed first when all of it goes. */
  function Retiring(log: seq<Seg>, cut: nat): (r: seq<Seg>) {
    if CoveredCount(log, cut) == |log| then SealLast(log) else log
  }

  predicate PartlyRetired(h: Hasher, log: seq<Seg>, cut: nat, j: nat, files: seq<File>) {
    && j <= CoveredCount(log, cut)
    && (cut > 0 || CoveredCount(log, cut) == |log|)
    && files == FilesOf(h, Gap(Retiring(log, cut), j, CoveredCount(log, cut)))
  }

  /** Directories an interrupted retirement can leave behind. */
  ghost predicate ReclaimImage(h: Hasher, log: seq<Seg>, cut: nat, files: seq<File>) {
    TornSeals(h, log, files) || exists j: nat :: PartlyRetired(h, log, cut, j, files)
  }

  lemma AgreesIds(h: Hasher, config: Config, c: nat, log: seq<Seg>, nextId: nat, segments: seq<Meta>,
                  active: Active, nextSequence: nat, diskBytes: nat, files: map<nat, seq<Byte>>)
    requires Agrees(h, config, c, log, nextId, segments, active, nextSequence, diskBytes, files)
    ensures |segments| == |log| && IdsAscend(log)
    ensures forall i :: 0 <= i < |log| ==> segments[i].id == log[i].id && segments[i].last == EndOf(log[i]) - 1
    ensures files == ToMap(FilesOf(h, log))
  {
    hide LogOk, EndOf;
    OkAscends(config, c, log, nextId);
  }

  lemma GapWhole(log: seq<Seg>, covered: nat)
    requires covered <= |log|
    ensures Gap(log, covered, covered) == log
  {
  }

  lemma UnlinkStep(h: Hasher, log: seq<Seg>, j: nat, covered: nat)
    requires IdsAscend(log) && j < covered <= |log|
    ensures ToMap(FilesOf(h, Gap(log, j + 1, covered))) - {log[j].id} == ToMap(FilesOf(h, Gap(log, j, covered)))
  {
    hide ToMap, FilesOf, Gap, IdsIn;
    GapFiles(h, log, j + 1, covered);
    GapFiles(h, log, j, covered);
    UnlinkNext(log, j, covered);
  }

  lemma GapListing(h: Hasher, log: seq<Seg>, j: nat, covered: nat)
    requires IdsAscend(log) && j <= covered <= |log|
    ensures Listing(ToMap(FilesOf(h, Gap(log, j, covered)))) == FilesOf(h, Gap(log, j, covered))
  {
    hide ToMap, FilesOf, Listing;
    var rest := Gap(log, j, covered);
    if j < covered < |log| && j > 0 {
      DistinctIds(log, j - 1, covered);
    }
    assert IdsAscend(rest);
    IntactListing(h, rest);
  }

  lemma RaiseStep(h: Hasher, config: Config, c: nat, log: seq<Seg>, nextId: nat, segments: seq<Meta>,
                  active: Active, nextSequence: nat, diskBytes: nat, files: map<nat, seq<Byte>>, cut: nat)
    requires Agrees(h, config, c, log, nextId, segments, active, nextSequence, diskBytes, files)
    requires c <= cut < nextSequence
    ensures Agrees(h, config, cut, log, nextId, segments, active, nextSequence, diskBytes, files)
  {
    hide Openable, NextSeq, LogRecs, Above;
    RetiredOk(config, c, cut, log, nextId, 0);
    assert log[0..] == log;
  }

  /** Retiring a sealed, wholly covered log or a covered prefix, as memory and disk see it. */
  lemma RetireStep(h: Hasher, config: Config, c: nat, log: seq<Seg>, nextId: nat, segments: seq<Meta>,
                   active: Active, nextSequence: nat, diskBytes: nat, files: map<nat, seq<Byte>>, cut: nat,
                   covered: nat)
    requires Agrees(h, config, c, log, nextId, segments, active, nextSequence, diskBytes, files)
    requires c <= cut < nextSequence && CoveredBy(cut, log, covered)
    requires covered == |log| ==> active.NoActive?
    requires cut == 0 ==> covered == |log|
    ensures |segments| == |log| && SumLens(segments[..covered]) <= diskBytes
    ensures Agrees(h, config, cut, log[covered..], if cut == 0 then 1 else nextId, segments[covered..], active,
                   nextSequence,
                   diskBytes - SumLens(segments[..covered]), ToMap(FilesOf(h, Gap(log, 0, covered))))
  {
    hide Openable, NextSeq, LogRecs, Above, ToMap, FilesOf, TotalBytes, MetasOf, SumLens;
    RetiredOk(config, c, cut, log, nextId, covered);
    RetiredBytes(h, log, covered);
    assert Gap(log, 0, covered) == log[covered..];
    assert covered < |log| ==> log[covered..][|log| - covered - 1] == log[|log| - 1];
  }

  lemma SealedRetires(config: Config, c: nat, log: seq<Seg>, nextId: nat, cut: nat)
    requires LogOk(config, c, log, nextId) && CoveredCount(log, cut) == |log|
    ensures CoveredBy(cut, SealLast(log), |log|) && SealLast(log)[|log|..] == log[|log|..] == []
  {
    hide LogOk;
    CountCovers(log, cut);
  }

  lemma RetireImage(h: Hasher, log: seq<Seg>, base: seq<Seg>, cut: nat, files: seq<File>)
    requires base == Retiring(log, cut) && (cut > 0 || CoveredCount(log, cut) == |log|)
    requires exists j: nat :: j <= CoveredCount(log, cut) && files == FilesOf(h, Gap(base, j, CoveredCount(log, cut)))
    ensures ReclaimImage(h, log, cut, files)
  {
    hide FilesOf, Gap, CoveredCount, TornSeals, SealLast;
    var j: nat :| j <= CoveredCount(log, cut) && files == FilesOf(h, Gap(base, j, CoveredCount(log, cut)));
    assert PartlyRetired(h, log, cut, j, files);
  }

  lemma LastIdBound(config: Config, c: nat, log: seq<Seg>)
    requires Openable(config, c, log)
    ensures LogOk(config, c, log, if log == [] then 1 else log[|log| - 1].id + 1)
  {
    hide Openable;
    if log != [] {
      OpenableAt(config, c, log, |log| - 1);
    }
  }

  lemma {:induction false} ListingAscends(files: map<nat, seq<Byte>>)
    ensures forall i :: 0 < i < |Listing(files)| ==> Listing(files)[i - 1].id < Listing(files)[i].id
    ensures forall i :: 0 <= i < |Listing(files)| ==> Listing(files)[i].id in files
    decreases |files|
  {
    if files != map[] {
      var top := MaxKey(files.Keys);
      assert files.Keys == (files - {top}).Keys + {top};
      ListingAscends(files - {top});
      var rest := Listing(files - {top});
      forall i | 0 <= i < |rest| ensures rest[i].id in files && rest[i].id < top {
        assert rest[i].id in files - {top};
      }
      assert Listing(files) == rest + [File(top, files[top])];
    }
  }

  // ------------------------------------------------------------ reopening after a failed retirement

  /**
   * Wherever retirement under a durable checkpoint `cut` fails, the directory reopens under `cut`
   * with the same records above it and the same frontier. At `cut == 0` only an empty history is
   * retired, and what is left of it still starts at ID one.
   */
  lemma FailedReclaimReopens(h: Hasher, config: Config, c: nat, log: seq<Seg>, nextId: nat, cut: nat, files: seq<File>)
    returns (found: seq<Seg>)
    requires LogOk(config, c, log, nextId) && c <= cut < FrontierOf(c, log)
    requires ReclaimImage(h, log, cut, files)
    ensures Open(h, config, cut, files) == Ok(JournalOf(h, cut, found, 1))
    ensures FrontierOf(cut, found) == FrontierOf(c, log)
    ensures Above(cut, LogRecs(found)) == Above(cut, LogRecs(log))
  {
    hide LogOk, Open, TornSealImage, PartlyRetired, LogRecs, Above, JournalOf, FrontierOf;
    if k: nat :| TornSealImage(h, log, k, files) {
      found := TornSealReopens(h, config, c, log, nextId, cut, k, files);
    } else {
      var j: nat :| PartlyRetired(h, log, cut, j, files);
      found := PartlyRetiredReopens(h, config, c, log, nextId, cut, j, files);
    }
  }

  lemma TornSealReopens(h: Hasher, config: Config, c: nat, log: seq<Seg>, nextId: nat, cut: nat, k: nat,
                        files: seq<File>)
    returns (found: seq<Seg>)
    requires LogOk(config, c, log, nextId) && c <= cut < FrontierOf(c, log) && TornSealImage(h, log, k, files)
    ensures Open(h, config, cut, files) == Ok(JournalOf(h, cut, found, 1))
    ensures FrontierOf(cut, found) == FrontierOf(c, log)
    ensures Above(cut, LogRecs(found)) == Above(cut, LogRecs(log))
  {
    hide Openable, Open, TornFiles, CutLog, LogRecs, Above, JournalOf, FrontierOf, NextSeq, FrameSize, Printed;
    RetiredOk(config, c, cut, log, nextId, 0);
    assert log[0..] == log;
    SealKeeps(config, cut, log, nextId);
    OpenTorn(h, config, cut, SealLast(log), k, 1);
    found := CutLog(h, cut, SealLast(log), k);
    TornSeal(h, cut, log, k);
  }

  lemma PartlyRetiredReopens(h: Hasher, config: Config, c: nat, log: seq<Seg>, nextId: nat, cut: nat, j: nat,
                             files: seq<File>)
    returns (found: seq<Seg>)
    requires LogOk(config, c, log, nextId) && c <= cut < FrontierOf(c, log) && PartlyRetired(h, log, cut, j, files)
    ensures Open(h, config, cut, files) == Ok(JournalOf(h, cut, found, 1))
    ensures FrontierOf(cut, found) == FrontierOf(c, log)
    ensures Above(cut, LogRecs(found)) == Above(cut, LogRecs(log))
  {
    hide Openable, Open, FilesOf, LogRecs, Above, JournalOf, NextSeq, CoveredCount;
    var covered, base := CoveredCount(log, cut), Retiring(log, cut);
    CountCovers(log, cut);
    SealKeeps(config, c, log, nextId);
    found := Gap(base, j, covered);
    if cut > 0 {
      assert CoveredBy(cut, base, covered);
      GapReopens(h, config, c, base, cut, j, covered);
    } else {
      assert found == base[..j];
      PrefixReopens(h, config, base, j);
    }
  }

  lemma GapReopens(h: Hasher, config: Config, c: nat, log: seq<Seg>, cut: nat, j: nat, covered: nat)
    requires Openable(config, c, log) && c <= cut && 0 < cut < FrontierOf(c, log)
    requires CoveredBy(cut, log, covered) && j <= covered
    ensures var found := Gap(log, j, covered);
            && Open(h, config, cut, FilesOf(h, found)) == Ok(JournalOf(h, cut, found, 1))
            && FrontierOf(cut, found) == FrontierOf(c, log) && Above(cut, LogRecs(found)) == Above(cut, LogRecs(log))
  {
    hide Openable, Open, FilesOf, LogRecs, Above, NextSeq, Gap, IdsIn, FrontierOf;
    OpenableAscends(config, c, log);
    AliveIds(log, j);
    GapSurvives(log, j, covered, IdsIn(log[..j]));
    ReclaimCrashReopens(h, config, c, cut, log, covered, IdsIn(log[..j]));
  }

  /** An empty floor-zero history reopens from any prefix of its files. */
  lemma PrefixReopens(h: Hasher, config: Config, log: seq<Seg>, j: nat)
    requires Openable(config, 0, log) && CoveredBy(0, log, |log|) && j <= |log|
    ensures Open(h, config, 0, FilesOf(h, log[..j])) == Ok(JournalOf(h, 0, log[..j], 1))
    ensures FrontierOf(0, log[..j]) == FrontierOf(0, log) == 1 && LogRecs(log[..j]) == LogRecs(log) == []
  {
    hide Openable, Open, FilesOf, LogRecs, JournalOf, NextSeq, FrontierOf;
    PrefixOpenable(config, 0, log, j);
    OpenIntact(h, config, 0, log[..j]);
    forall i | 0 <= i < |log| ensures log[i].first > 0 { OpenableAt(config, 0, log, i); }
    EmptyHistory(log, |log|);
    EmptyHistory(log, j);
    assert log[..|log|] == log;
  }

  /** Segments ending at or below sequence one hold nothing. */
  lemma {:induction false} EmptyHistory(log: seq<Seg>, j: nat)
    requires j <= |log| && forall i :: 0 <= i < |log| ==> EndOf(log[i]) <= 1 && log[i].first > 0
    ensures LogRecs(log[..j]) == [] && FrontierOf(0, log[..j]) == 1
  {
    hide NextSeq, SegRecs;
    if j > 0 {
      EmptyHistory(log, j - 1);
      assert log[..j][..j - 1] == log[..j - 1];
      NothingRecorded(log[j - 1]);
    }
  }

  lemma NothingRecorded(seg: Seg)
    requires EndOf(seg) <= 1 && seg.first > 0
    ensures SegRecs(seg.first, seg.groups) == [] && EndOf(seg) == 1
  {
    assert seg.groups == [];
  }
}
