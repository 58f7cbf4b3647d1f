/** The on-disk segment format: the printer side (segment header, group frame, seal). */
module JournalFormat {
  import opened Bytes

  const HEADER: nat := 64
  const TRAILER: nat := 64
  const SEAL: nat := 64

  const SEGMENT_MAGIC: seq<Byte> := [0x56, 0x52, 0x56, 0x4A, 0x4E, 0x4C, 0x30, 0x31]  // VRVJNL01
  const GROUP_MAGIC: seq<Byte> := [0x56, 0x52, 0x56, 0x47, 0x52, 0x50, 0x30, 0x31]    // VRVGRP01
  const COMMIT_MAGIC: seq<Byte> := [0x56, 0x52, 0x56, 0x43, 0x4D, 0x54, 0x30, 0x31]   // VRVCMT01
  const SEAL_MAGIC: seq<Byte> := [0x56, 0x52, 0x56, 0x53, 0x45, 0x41, 0x30, 0x31]     // VRVSEA01
  const VERSION: nat := 1

  datatype Config = Config(
    maxTotalBytes: nat,
    segmentBytes: nat,
    maxSegments: nat,
    maxFrameBytes: nat,
    maxRecordBytes: nat,
    maxRecordsPerGroup: nat)
  {
    /** The bounds every journal operation may rely on. */
    predicate Valid() {
      && 1 <= maxSegments <= 65536
      && 1 <= maxRecordsPerGroup <= 65536
      && 137 <= maxFrameBytes <= 16 * 1024 * 1024
      && 0 < maxRecordBytes <= maxFrameBytes - 136
      && maxFrameBytes + HEADER + SEAL <= segmentBytes <= 1024 * 1024 * 1024
      && maxFrameBytes + HEADER + SEAL <= maxTotalBytes <= segmentBytes * maxSegments
    }
  }

  /** A group's records, in order. A committed group is never empty. */
  type Group = g: seq<seq<Byte>> | |g| > 0 witness [[]]

  /** A segment's logical content. */
  datatype Seg = Seg(id: nat, first: nat, groups: seq<Group>, sealed: bool)

  /** The four-word block that opens every header, trailer and seal. */
  function Quad(magic: seq<Byte>, a: nat, b: nat, c: nat): (r: seq<Byte>)
    requires |magic| == 8
    ensures |r| == 32
    ensures r[..8] == magic && r[8..16] == Le64(a) && r[16..24] == Le64(b) && r[24..] == Le64(c)
  {
    magic + Le64(a) + Le64(b) + Le64(c)
  }

  function SegmentHeader(h: Hasher, id: nat, first: nat): (r: seq<Byte>)
    ensures |r| == HEADER
  {
    var head := SEGMENT_MAGIC + LeBytes(VERSION, 4) + LeBytes(0, 4) + Le64(id) + Le64(first);
    head + h(head)
  }

  function RecordBytes(records: seq<seq<Byte>>): (r: seq<Byte>) {
    if records == [] then [] else Le64(|records[0]|) + records[0] + RecordBytes(records[1..])
  }

  function FrameSize(records: seq<seq<Byte>>): (r: nat)
    ensures r >= HEADER + TRAILER
  {
    HEADER + TRAILER + |RecordBytes(records)|
  }

  function GroupHeader(h: Hasher, records: Group, first: nat): (r: seq<Byte>)
    ensures |r| == HEADER
  {
    var head := Quad(GROUP_MAGIC, FrameSize(records), first, |records|);
    head + h(head)
  }

  /** One committed group: checksummed header, records, checksummed commit trailer. */
  function Frame(h: Hasher, records: Group, first: nat): (r: seq<Byte>)
    ensures |r| == FrameSize(records)
  {
    var body := GroupHeader(h, records, first) + RecordBytes(records);
    var tail := Quad(COMMIT_MAGIC, first, first + |records| - 1, FrameSize(records));
    body + tail + h(body + tail)
  }

  function SealBlock(h: Hasher, body: seq<Byte>, id: nat, next: nat): (r: seq<Byte>)
    ensures |r| == SEAL
  {
    var head := Quad(SEAL_MAGIC, id, next, |body| + SEAL);
    head + h(body + head)
  }

  /** The sequence after the last record of `groups` when the first record is `first`. */
  function NextSeq(first: nat, groups: seq<Group>): (r: nat)
    ensures r >= first
  {
    if groups == [] then first
    else NextSeq(first, groups[..|groups| - 1]) + |groups[|groups| - 1]|
  }

  function BodySize(groups: seq<Group>): (r: nat)
    ensures r >= HEADER
  {
    if groups == [] then HEADER
    else BodySize(groups[..|groups| - 1]) + FrameSize(groups[|groups| - 1])
  }

  /** A segment file without its seal. */
  function Body(h: Hasher, id: nat, first: nat, groups: seq<Group>): (r: seq<Byte>)
    ensures |r| == BodySize(groups)
  {
    if groups == [] then SegmentHeader(h, id, first)
    else
      var init := groups[..|groups| - 1];
      Body(h, id, first, init) + Frame(h, groups[|groups| - 1], NextSeq(first, init))
  }

  function Printed(h: Hasher, seg: Seg): (r: seq<Byte>)
    ensures |r| == BodySize(seg.groups) + if seg.sealed then SEAL else 0
  {
    var body := Body(h, seg.id, seg.first, seg.groups);
    if seg.sealed then body + SealBlock(h, body, seg.id, NextSeq(seg.first, seg.groups)) else body
  }

  /** What append admission guarantees of a group. */
  predicate GroupFits(config: Config, records: seq<seq<Byte>>) {
    && 1 <= |records| <= config.maxRecordsPerGroup
    && (forall i :: 0 <= i < |records| ==> |records[i]| <= config.maxRecordBytes)
    && FrameSize(records) <= config.maxFrameBytes
  }

  /** What rotation and append admission guarantee of a segment: the seal always fits. */
  predicate SegFits(config: Config, seg: Seg) {
    && config.Valid()
    && seg.id <= U64_MAX
    && (forall i :: 0 <= i < |seg.groups| ==> GroupFits(config, seg.groups[i]))
    && BodySize(seg.groups) + SEAL <= config.segmentBytes
    && NextSeq(seg.first, seg.groups) <= U64_MAX
  }

  lemma {:induction false} RecordBytesSize(records: seq<seq<Byte>>)
    ensures |RecordBytes(records)| >= 8 * |records|
  {
    if records != [] {
      RecordBytesSize(records[1..]);
    }
  }

  /** A body's prefixes of whole groups are prefixes of its bytes. */
  lemma {:induction false} BodyPrefix(h: Hasher, id: nat, first: nat, groups: seq<Group>, i: nat)
    requires i <= |groups|
    ensures BodySize(groups[..i]) <= BodySize(groups)
    ensures NextSeq(first, groups[..i]) <= NextSeq(first, groups)
    ensures Body(h, id, first, groups)[..BodySize(groups[..i])] == Body(h, id, first, groups[..i])
  {
    hide SegmentHeader, Frame, FrameSize;
    if i == |groups| {
      assert groups[..i] == groups;
    } else {
      var init := groups[..|groups| - 1];
      BodyPrefix(h, id, first, init, i);
      assert init[..i] == groups[..i];
    }
  }

  lemma BodySnoc(h: Hasher, id: nat, first: nat, groups: seq<Group>, records: Group)
    ensures Body(h, id, first, groups + [records])
         == Body(h, id, first, groups) + Frame(h, records, NextSeq(first, groups))
    ensures NextSeq(first, groups + [records]) == NextSeq(first, groups) + |records|
    ensures BodySize(groups + [records]) == BodySize(groups) + FrameSize(records)
  {
    assert (groups + [records])[..|groups|] == groups;
  }
}
