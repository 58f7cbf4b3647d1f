/** The recovery parser: what it accepts, and what it returns for every truncation of a segment. */
module JournalParser {
  import opened Bytes
  import opened JournalFormat

  datatype Result<+T> = Ok(value: T) | Err(reason: string)

  datatype ReplayGroup = ReplayGroup(first: nat, records: Group)

  /** `hashed` is everything fed to the running segment hash so far. */
  datatype ScanEnd = ScanEnd(next: nat, validLen: nat, sealed: bool, repairHeader: bool, hashed: seq<Byte>)

  /** The verdict together with the groups the visitor saw before it. */
  datatype Outcome = Outcome(result: Result<ScanEnd>, visited: seq<ReplayGroup>)

  /** What the parser finds at one position. */
  datatype Probe = Tail | Seal | Corrupt(reason: string) | Whole(records: Group, size: nat)

  datatype RecordsResult = Records(records: seq<seq<Byte>>) | BadRecords(reason: string)

  /** Split the record area of a frame into exactly `count` records. */
  function ParseRecords(rest: seq<Byte>, count: nat, maxRecordBytes: nat): (r: RecordsResult)
    ensures r.Records? ==> |r.records| == count
    ensures r.Records? ==> forall i :: 0 <= i < |r.records| ==> |r.records[i]| <= maxRecordBytes
    decreases count
  {
    if count == 0 then
      if rest == [] then Records([]) else BadRecords("group record count/extent mismatch")
    else if |rest| < 8 then BadRecords("missing record length")
    else
      var len := Word(rest, 0);
      if len > maxRecordBytes then BadRecords("record byte bound")
      else if len > |rest| - 8 then BadRecords("record crosses commit trailer")
      else
        var tail := ParseRecords(rest[8 + len..], count - 1, maxRecordBytes);
        if tail.BadRecords? then tail else Records([rest[8..8 + len]] + tail.records)
  }

  /** The size/sequence checks on a group header, before any payload is read. */
  function HeaderError(config: Config, pos: nat, next: nat, size: nat, first: nat, count: nat): (r: string) {
    if !(0 < count <= config.maxRecordsPerGroup) then "group record count bound"
    else if !(HEADER + TRAILER + count * 8 <= size <= config.maxFrameBytes) then "group frame byte bound"
    else if first != next then "record sequence gap"
    else if next + count > U64_MAX then "record sequence overflow"
    else if pos + size + SEAL > config.segmentBytes then "group exceeds segment seal reserve"
    else ""
  }

  /** The checks on a frame that is entirely present. */
  function ProbeFrame(h: Hasher, config: Config, frame: seq<Byte>, next: nat, count: nat): (r: Probe)
    requires |frame| >= HEADER + TRAILER && count > 0
    ensures r.Whole? ==> r.size == |frame| && |r.records| == count
    ensures !r.Tail? && !r.Seal?
  {
    var trailer := |frame| - TRAILER;
    if !(&& frame[trailer..trailer + 8] == COMMIT_MAGIC
         && Word(frame, trailer + 8) == next
         && Word(frame, trailer + 16) == next + count - 1
         && Word(frame, trailer + 24) == |frame|) then Corrupt("invalid complete commit trailer")
    else if h(frame[..|frame| - 32]) != frame[|frame| - 32..] then Corrupt("complete group checksum mismatch")
    else
      var parsed := ParseRecords(frame[HEADER..trailer], count, config.maxRecordBytes);
      if parsed.BadRecords? then Corrupt(parsed.reason) else Whole(parsed.records, |frame|)
  }

  /** The body of the scan loop as a decision on the bytes at `pos`. */
  function ProbeAt(h: Hasher, config: Config, id: nat, bytes: seq<Byte>, pos: nat, next: nat,
                   hashed: seq<Byte>): (r: Probe)
    requires pos < |bytes|
    ensures r.Whole? ==> r.size >= HEADER + TRAILER && pos + r.size <= |bytes|
    ensures r.Seal? ==> pos + SEAL == |bytes|
  {
    var remaining := |bytes| - pos;
    if remaining < HEADER then Tail
    else
      var header := bytes[pos..pos + HEADER];
      if header[..8] == SEAL_MAGIC then
        if !(&& Word(header, 8) == id
             && Word(header, 16) == next
             && Word(header, 24) == pos + SEAL
             && pos + SEAL == |bytes|) then Corrupt("invalid segment seal extent/sequence")
        else if h(hashed + header[..32]) != header[32..] then Corrupt("segment seal checksum mismatch")
        else Seal
      else if header[..8] != GROUP_MAGIC then Corrupt("unknown group format")
      else if h(header[..32]) != header[32..] then Corrupt("group header checksum mismatch")
      else
        var size := Word(header, 8);
        var count := Word(header, 24);
        var error := HeaderError(config, pos, next, size, Word(header, 16), count);
        if error != "" then Corrupt(error)
        else if remaining < size then Tail
        else ProbeFrame(h, config, bytes[pos..pos + size], next, count)
  }

  /** The scan from `pos` on, having visited `visited`. */
  function InspectFrom(h: Hasher, config: Config, id: nat, bytes: seq<Byte>, allowTail: bool,
                       pos: nat, next: nat, hashed: seq<Byte>, visited: seq<ReplayGroup>): (r: Outcome)
    requires pos <= |bytes|
    decreases |bytes| - pos
  {
    var clean := Outcome(Ok(ScanEnd(next, pos, false, false, hashed)), visited);
    if pos == |bytes| then clean
    else
      match ProbeAt(h, config, id, bytes, pos, next, hashed)
      case Tail => if allowTail then clean else Outcome(Err("incomplete interior group"), visited)
      case Seal =>
        Outcome(Ok(ScanEnd(next, |bytes|, true, false, hashed + bytes[pos..pos + 32])), visited)
      case Corrupt(reason) => Outcome(Err(reason), visited)
      case Whole(records, size) =>
        InspectFrom(h, config, id, bytes, allowTail, pos + size, next + |records|,
                    hashed + bytes[pos..pos + size], visited + [ReplayGroup(next, records)])
  }

  /** The whole parse of one segment file. */
  function Inspect(h: Hasher, config: Config, id: nat, first: nat, bytes: seq<Byte>, allowTail: bool): (r: Outcome) {
    var expected := SegmentHeader(h, id, first);
    var n := if |bytes| < HEADER then |bytes| else HEADER;
    if bytes[..n] != expected[..n] then
      Outcome(Err("segment header/version/sequence/checksum mismatch"), [])
    else if n < HEADER then
      if allowTail then Outcome(Ok(ScanEnd(first, HEADER, false, true, expected)), [])
      else Outcome(Err("incomplete interior segment header"), [])
    else InspectFrom(h, config, id, bytes, allowTail, HEADER, first, expected, [])
  }

  /** What the visitor sees for `groups`. */
  function Visits(first: nat, groups: seq<Group>): (r: seq<ReplayGroup>)
    ensures |r| == |groups|
  {
    if groups == [] then []
    else
      var init := groups[..|groups| - 1];
      Visits(first, init) + [ReplayGroup(NextSeq(first, init), groups[|groups| - 1])]
  }

  lemma VisitsSnoc(first: nat, groups: seq<Group>, records: Group)
    ensures Visits(first, groups + [records]) == Visits(first, groups) + [ReplayGroup(NextSeq(first, groups), records)]
  {
    assert (groups + [records])[..|groups|] == groups;
  }

  // ---------------------------------------------------------------- records

  lemma {:induction false} ParsePrintedRecords(records: seq<seq<Byte>>, maxRecordBytes: nat)
    requires forall i :: 0 <= i < |records| ==> |records[i]| <= maxRecordBytes
    requires maxRecordBytes <= U64_MAX
    ensures ParseRecords(RecordBytes(records), |records|, maxRecordBytes) == Records(records)
  {
    if records != [] {
      var rest := RecordBytes(records);
      var len := |records[0]|;
      assert rest[0..8] == Le64(len);
      WordIs(rest, 0, len);
      assert rest[8..8 + len] == records[0];
      assert rest[8 + len..] == RecordBytes(records[1..]);
      ParsePrintedRecords(records[1..], maxRecordBytes);
      assert records == [records[0]] + records[1..];
    }
  }

  lemma {:induction false} PrintParsedRecords(rest: seq<Byte>, count: nat, maxRecordBytes: nat)
    requires ParseRecords(rest, count, maxRecordBytes).Records?
    ensures RecordBytes(ParseRecords(rest, count, maxRecordBytes).records) == rest
    decreases count
  {
    if count > 0 {
      hide Word, Le64, RecordBytes;
      var len := Word(rest, 0);
      PrintParsedRecords(rest[8 + len..], count - 1, maxRecordBytes);
      WordBound(rest, 0);
      WordIs(rest, 0, len);
      ConsRecordBytes(rest[8..8 + len], ParseRecords(rest[8 + len..], count - 1, maxRecordBytes).records);
      assert rest == rest[0..8] + rest[8..8 + len] + rest[8 + len..];
    }
  }

  lemma ConsRecordBytes(record: seq<Byte>, records: seq<seq<Byte>>)
    ensures RecordBytes([record] + records) == Le64(|record|) + record + RecordBytes(records)
  {
    assert ([record] + records)[1..] == records;
  }

  // ------------------------------------------------------------- one position

  lemma QuadWords(bytes: seq<Byte>, at: nat, magic: seq<Byte>, a: nat, b: nat, c: nat)
    requires at + 32 <= |bytes| && |magic| == 8
    requires a <= U64_MAX && b <= U64_MAX && c <= U64_MAX
    ensures bytes[at..at + 32] == Quad(magic, a, b, c)
       <==> && bytes[at..at + 8] == magic
            && Word(bytes, at + 8) == a && Word(bytes, at + 16) == b && Word(bytes, at + 24) == c
  {
    hide Le64, Word;
    WordIs(bytes, at + 8, a);
    WordIs(bytes, at + 16, b);
    WordIs(bytes, at + 24, c);
    var block, quad := bytes[at..at + 32], Quad(magic, a, b, c);
    assert block[..8] == bytes[at..at + 8];
    assert block[8..16] == bytes[at + 8..at + 16];
    assert block[16..24] == bytes[at + 16..at + 24];
    assert block[24..] == bytes[at + 24..at + 32];
    assert block == block[..8] + block[8..16] + block[16..24] + block[24..];
  }

  /** Where the five parts of a checksummed, trailed block lie. */
  lemma BlockParts(block: seq<Byte>, head: seq<Byte>, sum: seq<Byte>, rest: seq<Byte>, tail: seq<Byte>,
                   total: seq<Byte>)
    requires |head| == 32 && |sum| == 32 && |tail| == 32 && |total| == 32
    requires block == head + sum + rest + tail + total
    ensures block[..32] == head && block[32..64] == sum
    ensures |block| >= 128 && block[64..|block| - 64] == rest
    ensures block[|block| - 64..|block| - 32] == tail && block[|block| - 32..] == total
    ensures block[..|block| - 32] == head + sum + rest + tail
  {
  }

  /** A frame is its five parts in order. */
  lemma FrameIs(h: Hasher, records: Group, first: nat)
    ensures var head := Quad(GROUP_MAGIC, FrameSize(records), first, |records|);
            var tail := Quad(COMMIT_MAGIC, first, first + |records| - 1, FrameSize(records));
            Frame(h, records, first)
            == head + h(head) + RecordBytes(records) + tail + h(head + h(head) + RecordBytes(records) + tail)
  {
  }

  /** A frame's parts, by position. */
  lemma FrameParts(h: Hasher, records: Group, first: nat)
    ensures var f, n := Frame(h, records, first), FrameSize(records);
            && f[..32] == Quad(GROUP_MAGIC, n, first, |records|)
            && f[32..HEADER] == h(f[..32])
            && f[HEADER..n - TRAILER] == RecordBytes(records)
            && f[n - TRAILER..n - 32] == Quad(COMMIT_MAGIC, first, first + |records| - 1, n)
            && f[n - 32..] == h(f[..n - 32])
  {
    hide Quad, RecordBytes;
    var head := Quad(GROUP_MAGIC, FrameSize(records), first, |records|);
    var tail := Quad(COMMIT_MAGIC, first, first + |records| - 1, FrameSize(records));
    FrameIs(h, records, first);
    BlockParts(Frame(h, records, first), head, h(head), RecordBytes(records), tail,
               h(head + h(head) + RecordBytes(records) + tail));
  }

  lemma FrameAccepted(h: Hasher, config: Config, records: Group, first: nat)
    requires config.Valid() && GroupFits(config, records) && first + |records| <= U64_MAX
    ensures ProbeFrame(h, config, Frame(h, records, first), first, |records|) == Whole(records, FrameSize(records))
  {
    hide Frame, Quad, Word, RecordBytes, ParseRecords;
    var f, n := Frame(h, records, first), FrameSize(records);
    FrameParts(h, records, first);
    QuadWords(f, n - TRAILER, COMMIT_MAGIC, first, first + |records| - 1, n);
    ParsePrintedRecords(records, config.maxRecordBytes);
  }

  /** The header decision on the first 64 bytes of a frame. */
  lemma FrameHeader(h: Hasher, config: Config, header: seq<Byte>, pos: nat, records: Group, first: nat)
    requires config.Valid() && GroupFits(config, records) && first + |records| <= U64_MAX
    requires pos + FrameSize(records) + SEAL <= config.segmentBytes
    requires header == Frame(h, records, first)[..HEADER]
    ensures header[..8] == GROUP_MAGIC
    ensures h(header[..32]) == header[32..]
    ensures Word(header, 8) == FrameSize(records) && Word(header, 16) == first && Word(header, 24) == |records|
    ensures HeaderError(config, pos, first, FrameSize(records), first, |records|) == ""
  {
    hide Frame, Quad, Word, RecordBytes;
    FrameParts(h, records, first);
    RecordBytesSize(records);
    QuadWords(header, 0, GROUP_MAGIC, FrameSize(records), first, |records|);
    assert header[0..32] == header[..32];
    assert header[0..8] == header[..8];
  }

  /** A frame present in full is visited. */
  lemma ProbeWhole(h: Hasher, config: Config, id: nat, bytes: seq<Byte>, pos: nat, next: nat, hashed: seq<Byte>,
                   records: Group)
    requires config.Valid() && GroupFits(config, records) && next + |records| <= U64_MAX
    requires pos + FrameSize(records) + SEAL <= config.segmentBytes
    requires pos + FrameSize(records) <= |bytes|
    requires bytes[pos..pos + FrameSize(records)] == Frame(h, records, next)
    ensures ProbeAt(h, config, id, bytes, pos, next, hashed) == Whole(records, FrameSize(records))
  {
    hide Frame, FrameSize, Word, ProbeFrame;
    var header := bytes[pos..pos + HEADER];
    assert header == bytes[pos..pos + FrameSize(records)][..HEADER];
    FrameHeader(h, config, header, pos, records, next);
    FrameAccepted(h, config, records, next);
  }

  /** A frame cut anywhere is a tail, never an error. */
  lemma ProbeCutFrame(h: Hasher, config: Config, id: nat, bytes: seq<Byte>, pos: nat, next: nat, hashed: seq<Byte>,
                      records: Group)
    requires config.Valid() && GroupFits(config, records) && next + |records| <= U64_MAX
    requires pos + FrameSize(records) + SEAL <= config.segmentBytes
    requires pos < |bytes| < pos + FrameSize(records)
    requires bytes[pos..] == Frame(h, records, next)[..|bytes| - pos]
    ensures ProbeAt(h, config, id, bytes, pos, next, hashed).Tail?
  {
    if |bytes| - pos >= HEADER {
      var header := bytes[pos..pos + HEADER];
      assert header == bytes[pos..][..HEADER] == Frame(h, records, next)[..HEADER];
      FrameHeader(h, config, header, pos, records, next);
    }
  }

  lemma ProbeSealed(h: Hasher, config: Config, id: nat, bytes: seq<Byte>, pos: nat, next: nat, hashed: seq<Byte>)
    requires |bytes| == pos + SEAL && |hashed| == pos
    requires id <= U64_MAX && next <= U64_MAX && pos + SEAL <= U64_MAX
    requires bytes[pos..] == SealBlock(h, hashed, id, next)
    ensures ProbeAt(h, config, id, bytes, pos, next, hashed).Seal?
  {
    var header := bytes[pos..pos + HEADER];
    hide Word;
    assert header == bytes[pos..];
    var head := Quad(SEAL_MAGIC, id, next, pos + SEAL);
    assert header[0..32] == header[..32] == head;
    QuadWords(header, 0, SEAL_MAGIC, id, next, pos + SEAL);
    assert header[0..8] == header[..8];
  }

  /** Acceptance is exact: a visited group's bytes are precisely the printed frame. */
  lemma ProbeWholeSound(h: Hasher, config: Config, id: nat, bytes: seq<Byte>, pos: nat, next: nat, hashed: seq<Byte>)
    requires config.Valid() && pos < |bytes|
    requires ProbeAt(h, config, id, bytes, pos, next, hashed).Whole?
    ensures var p := ProbeAt(h, config, id, bytes, pos, next, hashed);
            && p.size == FrameSize(p.records)
            && GroupFits(config, p.records)
            && next + |p.records| <= U64_MAX
            && pos + p.size + SEAL <= config.segmentBytes
            && bytes[pos..pos + p.size] == Frame(h, p.records, next)
  {
    hide Quad, Frame, ProbeFrame, Word;
    var p := ProbeAt(h, config, id, bytes, pos, next, hashed);
    var header := bytes[pos..pos + HEADER];
    var size, count := Word(header, 8), Word(header, 24);
    var frame := bytes[pos..pos + size];
    assert frame[..HEADER] == header;
    assert header[0..8] == header[..8];
    QuadWords(header, 0, GROUP_MAGIC, size, next, count);
    assert header[0..32] == header[..32];
    FrameSound(h, config, frame, next, count);
  }

  lemma FrameSound(h: Hasher, config: Config, frame: seq<Byte>, next: nat, count: nat)
    requires config.Valid() && HEADER + TRAILER <= |frame| <= config.maxFrameBytes
    requires 0 < count <= config.maxRecordsPerGroup && next + count <= U64_MAX
    requires frame[..32] == Quad(GROUP_MAGIC, |frame|, next, count)
    requires frame[32..HEADER] == h(frame[..32])
    requires ProbeFrame(h, config, frame, next, count).Whole?
    ensures var records := ProbeFrame(h, config, frame, next, count).records;
            GroupFits(config, records) && FrameSize(records) == |frame| && frame == Frame(h, records, next)
  {
    hide Quad, Word, RecordBytes, ParseRecords, Frame;
    var records := ProbeFrame(h, config, frame, next, count).records;
    var size, trailer := |frame|, |frame| - TRAILER;
    PrintParsedRecords(frame[HEADER..trailer], count, config.maxRecordBytes);
    QuadWords(frame, trailer, COMMIT_MAGIC, next, next + count - 1, size);
    FrameIs(h, records, next);
    Split5(frame, 32, HEADER, trailer, size - 32);
  }

  lemma Split5<T>(s: seq<T>, i: nat, j: nat, k: nat, l: nat)
    requires i <= j <= k <= l <= |s|
    ensures s == s[..i] + s[i..j] + s[j..k] + s[k..l] + s[l..]
    ensures s[..l] == s[..i] + s[i..j] + s[j..k] + s[k..l]
  {
  }

  lemma ProbeSealSound(h: Hasher, config: Config, id: nat, bytes: seq<Byte>, pos: nat, next: nat, hashed: seq<Byte>)
    requires config.Valid() && pos < |bytes| && |hashed| == pos
    requires id <= U64_MAX && next <= U64_MAX
    requires ProbeAt(h, config, id, bytes, pos, next, hashed).Seal?
    ensures bytes[pos..] == SealBlock(h, hashed, id, next)
  {
    var header := bytes[pos..pos + HEADER];
    hide Quad, Word;
    assert header == bytes[pos..];
    WordBound(header, 24);
    assert header[0..8] == header[..8];
    QuadWords(header, 0, SEAL_MAGIC, id, next, pos + SEAL);
    assert header[0..32] == header[..32];
    assert header == header[..32] + header[32..];
  }
}
