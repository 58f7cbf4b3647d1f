/** Appending a group: admission, rotation, byte growth, and a crash at any byte of it. */
module JournalAppend {
  import opened Common
  import opened Bytes
  import opened JournalFormat
  import opened JournalParser
  import opened JournalCut
  import opened JournalOpen
  import opened JournalLog
  import opened JournalRecords
  import opened JournalCrash

  /** The invariant between a journal's log and the ID its next file will get. */
  predicate LogOk(config: Config, c: nat, log: seq<Seg>, nextId: nat) {
    && Openable(config, c, log)
    && 1 <= nextId <= U64_MAX
    && (log != [] ==> nextId == log[|log| - 1].id + 1)
    && (log == [] && c == 0 ==> nextId == 1)
  }

  /** A new file is needed: none is active, the group does not fit, or the active one ends before the frontier. */
  predicate Rotates(config: Config, c: nat, log: seq<Seg>, size: nat) {
    || log == [] || log[|log| - 1].sealed
    || BodySize(log[|log| - 1].groups) + size + SEAL > config.segmentBytes
    || EndOf(log[|log| - 1]) != FrontierOf(c, log)
  }

  function SealLast(log: seq<Seg>): (r: seq<Seg>)
    ensures |r| == |log|
  {
    if log == [] then log else log[|log| - 1 := log[|log| - 1].(sealed := true)]
  }

  /** Disk growth of an append: the frame, plus a header and the replaced reserve on rotation. */
  function Growth(rotate: bool, size: nat): (r: nat) {
    if rotate then size + HEADER + SEAL else size
  }

  /** What append admission checks before any I/O. */
  predicate Admitted(config: Config, c: nat, log: seq<Seg>, nextId: nat, records: seq<seq<Byte>>) {
    var rotate := Rotates(config, c, log, FrameSize(records));
    && GroupFits(config, records)
    && FrontierOf(c, log) + |records| <= U64_MAX
    && (rotate ==> |log| < config.maxSegments && nextId + 1 <= U64_MAX)
    && Reserved(log) + Growth(rotate, FrameSize(records)) <= config.maxTotalBytes
  }

  /** The log once the group is durable. */
  function Appended(config: Config, c: nat, log: seq<Seg>, nextId: nat, records: Group): (r: seq<Seg>)
    ensures |r| > 0
  {
    if Rotates(config, c, log, FrameSize(records)) then
      SealLast(log) + [Seg(nextId, FrontierOf(c, log), [records], false)]
    else
      var last := log[|log| - 1];
      log[|log| - 1 := last.(groups := last.groups + [records])]
  }

  function NextIdAfter(config: Config, c: nat, log: seq<Seg>, nextId: nat, records: Group): (r: nat) {
    if Rotates(config, c, log, FrameSize(records)) then nextId + 1 else nextId
  }

  // ------------------------------------------------------------ sealing

  lemma SealKeeps(config: Config, c: nat, log: seq<Seg>, nextId: nat)
    requires LogOk(config, c, log, nextId)
    ensures LogOk(config, c, SealLast(log), nextId)
    ensures LogRecs(SealLast(log)) == LogRecs(log)
    ensures FrontierOf(c, SealLast(log)) == FrontierOf(c, log)
    ensures Reserved(SealLast(log)) == Reserved(log)
  {
    hide Openable, SegFits, BodySize, NextSeq, SegRecs;
    if log != [] {
      var n := |log| - 1;
      var sealed := log[n].(sealed := true);
      OpenableAt(config, c, log, n);
      ReservedLast(config, c, log);
      assert SegFits(config, sealed) by { SealFits(config, log[n]); }
      ReplaceLast(config, c, log, sealed);
      assert SealLast(log)[..n] == log[..n];
    }
  }

  lemma SealFits(config: Config, seg: Seg)
    requires SegFits(config, seg)
    ensures SegFits(config, seg.(sealed := true))
  {
  }

  // ------------------------------------------------------------ appending

  lemma GrowFits(config: Config, seg: Seg, records: Group)
    requires SegFits(config, seg) && GroupFits(config, records)
    requires BodySize(seg.groups) + FrameSize(records) + SEAL <= config.segmentBytes
    requires EndOf(seg) + |records| <= U64_MAX
    ensures var grown := seg.(groups := seg.groups + [records], sealed := false);
            && SegFits(config, grown)
            && EndOf(grown) == EndOf(seg) + |records|
            && BodySize(grown.groups) == BodySize(seg.groups) + FrameSize(records)
            && SegRecs(grown.first, grown.groups) == SegRecs(seg.first, seg.groups) + GroupRecs(EndOf(seg), records)
  {
    hide FrameSize, BodySize, NextSeq, SegRecs;
    var h: Hasher := _ => seq(32, _ => 0);
    BodySnoc(h, seg.id, seg.first, seg.groups, records);
    SegRecsSnoc(seg.first, seg.groups, records);
  }

  /** An admitted append keeps the invariant, adds exactly its records, and grows exactly as planned. */
  lemma AppendKeeps(config: Config, c: nat, log: seq<Seg>, nextId: nat, records: Group)
    requires LogOk(config, c, log, nextId) && Admitted(config, c, log, nextId, records)
    ensures var all := Appended(config, c, log, nextId, records);
            && LogOk(config, c, all, NextIdAfter(config, c, log, nextId, records))
            && LogRecs(all) == LogRecs(log) + GroupRecs(FrontierOf(c, log), records)
            && FrontierOf(c, all) == FrontierOf(c, log) + |records|
            && Reserved(all) == Reserved(log) + Growth(Rotates(config, c, log, FrameSize(records)), FrameSize(records))
  {
    if Rotates(config, c, log, FrameSize(records)) {
      AppendRotating(config, c, log, nextId, records);
    } else {
      AppendInPlace(config, c, log, nextId, records);
    }
  }

  lemma AppendInPlace(config: Config, c: nat, log: seq<Seg>, nextId: nat, records: Group)
    requires LogOk(config, c, log, nextId) && Admitted(config, c, log, nextId, records)
    requires !Rotates(config, c, log, FrameSize(records))
    ensures var all := Appended(config, c, log, nextId, records);
            && LogOk(config, c, all, nextId)
            && LogRecs(all) == LogRecs(log) + GroupRecs(FrontierOf(c, log), records)
            && FrontierOf(c, all) == FrontierOf(c, log) + |records|
            && Reserved(all) == Reserved(log) + FrameSize(records)
  {
    hide Openable, SegFits, GroupFits, FrameSize, BodySize, NextSeq, SegRecs;
    var n := |log| - 1;
    var last := log[n];
    var grown := last.(groups := last.groups + [records]);
    OpenableAt(config, c, log, n);
    ReservedLast(config, c, log);
    GrowFits(config, last, records);
    assert grown == last.(groups := last.groups + [records], sealed := false);
    ReplaceLast(config, c, log, grown);
    assert Appended(config, c, log, nextId, records) == log[n := grown];
    assert log[n := grown][..n] == log[..n];
    assert LogRecs(log[..n]) + (SegRecs(last.first, last.groups) + GroupRecs(EndOf(last), records))
        == LogRecs(log) + GroupRecs(EndOf(last), records);
  }

  /** The file rotation creates, while it is still empty and once it holds the group. */
  lemma FreshSeg(config: Config, c: nat, log: seq<Seg>, nextId: nat, records: Group)
    requires LogOk(config, c, log, nextId) && Admitted(config, c, log, nextId, records)
    ensures var empty := Seg(nextId, FrontierOf(c, log), [], false);
            var full := Seg(nextId, FrontierOf(c, log), [records], false);
            && SegFits(config, empty) && SegFits(config, full)
            && BodySize([records]) == HEADER + FrameSize(records)
            && EndOf(full) == FrontierOf(c, log) + |records|
            && SegRecs(full.first, full.groups) == GroupRecs(FrontierOf(c, log), records)
            && Linked(c, |log|, PreviousId(log, |log|), PreviousEnd(log, |log|), nextId, FrontierOf(c, log))
  {
    hide Openable, FrameSize, Reserved;
    assert config.Valid() by { OpenableConfig(config, c, log); }
    var empty := Seg(nextId, FrontierOf(c, log), [], false);
    assert SegFits(config, empty);
    GrowFits(config, empty, records);
    assert [] + [records] == [records];
  }

  lemma OpenableConfig(config: Config, c: nat, log: seq<Seg>)
    requires Openable(config, c, log)
    ensures config.Valid() && c + 1 <= U64_MAX && |log| <= config.maxSegments && Reserved(log) <= config.maxTotalBytes
  {
  }

  lemma AppendRotating(config: Config, c: nat, log: seq<Seg>, nextId: nat, records: Group)
    requires LogOk(config, c, log, nextId) && Admitted(config, c, log, nextId, records)
    requires Rotates(config, c, log, FrameSize(records))
    ensures var all := Appended(config, c, log, nextId, records);
            && LogOk(config, c, all, nextId + 1)
            && Guessable(c, all)
            && LogRecs(all) == LogRecs(log) + GroupRecs(FrontierOf(c, log), records)
            && FrontierOf(c, all) == FrontierOf(c, log) + |records|
            && Reserved(all) == Reserved(log) + FrameSize(records) + HEADER + SEAL
  {
    hide Openable, SegFits, GroupFits, FrameSize, BodySize, NextSeq, SegRecs, Linked, LogRecs;
    var sealed := SealLast(log);
    var full := Seg(nextId, FrontierOf(c, log), [records], false);
    SealKeeps(config, c, log, nextId);
    FreshSeg(config, c, log, nextId, records);
    assert PreviousId(sealed, |sealed|) == PreviousId(log, |log|);
    assert PreviousEnd(sealed, |sealed|) == PreviousEnd(log, |log|);
    SnocOpenable(config, c, sealed, full);
    assert (sealed + [full])[..|sealed|] == sealed;
    LogRecsSnoc(sealed, full);
    assert FrontierOf(c, log) == c + 1 || FrontierOf(c, log) == PreviousEnd(sealed, |sealed|);
    assert PreviousEnd(sealed + [full], |sealed|) == PreviousEnd(sealed, |sealed|);
  }

  // ------------------------------------------------------------ crash images

  /** The active file with `k` bytes of its body and seal written. */
  predicate TornSealImage(h: Hasher, log: seq<Seg>, k: nat, files: seq<File>) {
    && log != []
    && BodySize(log[|log| - 1].groups) <= k <= |Printed(h, SealLast(log)[|log| - 1])|
    && files == TornFiles(h, SealLast(log), k)
  }

  /** The file receiving the group with `k` bytes written; rotation starts it empty. */
  predicate TornFrameImage(h: Hasher, config: Config, c: nat, log: seq<Seg>, nextId: nat, records: Group, k: nat,
                           files: seq<File>) {
    var all := Appended(config, c, log, nextId, records);
    && k <= |Printed(h, all[|all| - 1])|
    && files == TornFiles(h, all, k)
    && (Rotates(config, c, log, FrameSize(records)) || (log != [] && BodySize(log[|log| - 1].groups) <= k))
  }

  /** Directories an interrupted append can leave behind: every prefix of every write it makes. */
  ghost predicate AppendImage(h: Hasher, config: Config, c: nat, log: seq<Seg>, nextId: nat, records: Group,
                              files: seq<File>) {
    || files == FilesOf(h, log)
    || (exists k: nat :: TornSealImage(h, log, k, files))
    || (exists k: nat :: TornFrameImage(h, config, c, log, nextId, records, k, files))
  }

  /**
   * An append is all or nothing: after a crash at any byte of any of its writes the directory
   * reopens, holding every earlier record and either none or all of the new group.
   */
  lemma CrashedAppendReopens(
    h: Hasher, config: Config, c: nat, log: seq<Seg>, nextId: nat, records: Group, files: seq<File>)
    returns (found: seq<Seg>)
    requires LogOk(config, c, log, nextId) && Admitted(config, c, log, nextId, records)
    requires AppendImage(h, config, c, log, nextId, records, files)
    ensures Open(h, config, c, files) == Ok(JournalOf(h, c, found, 1))
    ensures || (LogRecs(found) == LogRecs(log) && FrontierOf(c, found) == FrontierOf(c, log))
            || (&& LogRecs(found) == LogRecs(log) + GroupRecs(FrontierOf(c, log), records)
                && FrontierOf(c, found) == FrontierOf(c, log) + |records|)
  {
    hide Openable, FrameSize, BodySize, NextSeq, LogRecs, Open, Rotates, Admitted, TornFiles;
    var all := Appended(config, c, log, nextId, records);
    if files == FilesOf(h, log) {
      OpenIntact(h, config, c, log);
      return log;
    }
    SealKeeps(config, c, log, nextId);
    if k: nat :| TornSealImage(h, log, k, files) {
      OpenTorn(h, config, c, SealLast(log), k, 1);
      found := CutLog(h, c, SealLast(log), k);
      TornSeal(h, c, log, k);
      return found;
    }
    var k: nat :| TornFrameImage(h, config, c, log, nextId, records, k, files);
    AppendKeeps(config, c, log, nextId, records);
    if Rotates(config, c, log, FrameSize(records)) {
      AppendRotating(config, c, log, nextId, records);
    }
    OpenTorn(h, config, c, all, k, 1);
    found := CutLog(h, c, all, k);
    if Rotates(config, c, log, FrameSize(records)) {
      TornRotation(h, config, c, log, nextId, records, k);
    } else {
      TornInPlace(h, config, c, log, nextId, records, k);
    }
  }

  /** A torn seal loses nothing. */
  lemma TornSeal(h: Hasher, c: nat, log: seq<Seg>, k: nat)
    requires log != [] && BodySize(log[|log| - 1].groups) <= k <= |Printed(h, SealLast(log)[|log| - 1])|
    ensures var found := CutLog(h, c, SealLast(log), k);
            LogRecs(found) == LogRecs(log) && FrontierOf(c, found) == FrontierOf(c, log)
  {
    hide FrameSize, NextSeq, SegRecs, Printed, FirstOf;
    var n := |log| - 1;
    var last := SealLast(log)[n];
    var found := CutLog(h, c, SealLast(log), k);
    assert WholeGroups(last.groups, k) == |last.groups|;
    assert last.groups[..|last.groups|] == last.groups;
    assert found[..n] == log[..n];
  }

  /** A torn frame in the active file loses exactly the new group. */
  lemma TornInPlace(h: Hasher, config: Config, c: nat, log: seq<Seg>, nextId: nat, records: Group, k: nat)
    requires LogOk(config, c, log, nextId) && Admitted(config, c, log, nextId, records)
    requires !Rotates(config, c, log, FrameSize(records))
    requires var all := Appended(config, c, log, nextId, records);
             BodySize(log[|log| - 1].groups) <= k <= |Printed(h, all[|all| - 1])|
    ensures var all := Appended(config, c, log, nextId, records);
            CutLog(h, c, all, k) == log || CutLog(h, c, all, k) == all
  {
    hide Openable, FrameSize, NextSeq, Admitted, FirstOf;
    var all := Appended(config, c, log, nextId, records);
    var n := |log| - 1;
    var last, grown := log[n], all[n];
    assert grown.groups[..|last.groups|] == last.groups;
    assert grown.groups[..|grown.groups|] == grown.groups;
    assert BodySize(grown.groups) == BodySize(last.groups) + FrameSize(records);
    assert WholeGroups(grown.groups, k) == |grown.groups| || WholeGroups(grown.groups, k) == |last.groups|;
  }

  /** A torn new file holds the new group whole or not at all. */
  lemma TornRotation(h: Hasher, config: Config, c: nat, log: seq<Seg>, nextId: nat, records: Group, k: nat)
    requires LogOk(config, c, log, nextId) && Admitted(config, c, log, nextId, records)
    requires Rotates(config, c, log, FrameSize(records))
    requires var all := Appended(config, c, log, nextId, records); k <= |Printed(h, all[|all| - 1])|
    ensures var all := Appended(config, c, log, nextId, records);
            var found := CutLog(h, c, all, k);
            || found == all
            || (LogRecs(found) == LogRecs(log) && FrontierOf(c, found) == FrontierOf(c, log))
  {
    hide Openable, FrameSize, SegRecs, LogRecs, Admitted, Printed, CutSeg, Rotates, Reserved, NextSeq;
    var all := Appended(config, c, log, nextId, records);
    var sealed, full := SealLast(log), Seg(nextId, FrontierOf(c, log), [records], false);
    var cut := CutSeg(h, c, all, k);
    SealKeeps(config, c, log, nextId);
    AppendRotating(config, c, log, nextId, records);
    assert all == sealed + [full];
    CutSingle(h, c, all, k);
    if cut == full {
      assert CutLog(h, c, all, k) == all;
    } else {
      assert CutLog(h, c, all, k) == sealed + [cut];
      LogRecsSnoc(sealed, cut);
      NoRecs(cut.first);
      assert all[..|sealed|] == sealed;
      GuessWithinFrontier(h, config, c, all, k);
    }
  }

  lemma CutSingle(h: Hasher, c: nat, all: seq<Seg>, k: nat)
    requires |all| > 0 && |all[|all| - 1].groups| == 1 && !all[|all| - 1].sealed
    requires k <= |Printed(h, all[|all| - 1])|
    ensures var last, cut := all[|all| - 1], CutSeg(h, c, all, k);
            cut == last || (cut.groups == [] && !cut.sealed)
  {
    hide Printed, FirstOf, FrameSize;
    var last := all[|all| - 1];
    assert last.groups[..1] == last.groups;
  }

  lemma NoRecs(first: nat)
    ensures SegRecs(first, []) == [] && NextSeq(first, []) == first
  {
  }

  lemma GuessWithinFrontier(h: Hasher, config: Config, c: nat, all: seq<Seg>, k: nat)
    requires Openable(config, c, all) && |all| > 0 && k <= |Printed(h, all[|all| - 1])|
    requires Guessable(c, all) && all[|all| - 1].first == FrontierOf(c, all[..|all| - 1])
    ensures var cut := CutSeg(h, c, all, k);
            Max(cut.first, c + 1) == all[|all| - 1].first
  {
    hide Openable, Printed;
    FirstOfTorn(h, config, c, all, k);
    OpenableAt(config, c, all, |all| - 1);
  }
}
