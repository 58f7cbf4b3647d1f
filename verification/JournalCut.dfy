/** What recovery makes of a segment file cut at any byte, and the exact language it accepts. */
module JournalCut {
  import opened Bytes
  import opened JournalFormat
  import opened JournalParser

  /** How many leading groups have their frames entirely inside the first `k` bytes. */
  function WholeGroups(groups: seq<Group>, k: nat): (m: nat)
    ensures m <= |groups|
  {
    if groups == [] || BodySize(groups) <= k then |groups|
    else WholeGroups(groups[..|groups| - 1], k)
  }

  lemma {:induction false} WholeGroupsIsMaximal(groups: seq<Group>, k: nat)
    requires k >= HEADER
    ensures var m := WholeGroups(groups, k);
            BodySize(groups[..m]) <= k && (m < |groups| ==> BodySize(groups[..m + 1]) > k)
  {
    hide FrameSize;
    var m := WholeGroups(groups, k);
    if m == |groups| {
      assert groups[..m] == groups;
    } else {
      var init := groups[..|groups| - 1];
      WholeGroupsIsMaximal(init, k);
      assert init[..m] == groups[..m];
      if m == |init| {
        assert groups[..m + 1] == groups;
      } else {
        assert init[..m + 1] == groups[..m + 1];
      }
    }
  }

  /** Recovery's promise for the first `k` bytes of a printed segment. */
  function CutOutcome(h: Hasher, seg: Seg, k: nat): (r: Outcome)
    requires k <= |Printed(h, seg)|
    ensures r.result.Ok?
  {
    if k < HEADER then
      Outcome(Ok(ScanEnd(seg.first, HEADER, false, true, SegmentHeader(h, seg.id, seg.first))), [])
    else
      var kept := seg.groups[..WholeGroups(seg.groups, k)];
      var body := Body(h, seg.id, seg.first, kept);
      var next := NextSeq(seg.first, kept);
      if seg.sealed && k == |Printed(h, seg)| then
        Outcome(Ok(ScanEnd(next, k, true, false, Printed(h, seg)[..k - 32])), Visits(seg.first, kept))
      else
        Outcome(Ok(ScanEnd(next, |body|, false, false, body)), Visits(seg.first, kept))
  }

  /** The bytes of group `i` inside a printed segment. */
  lemma GroupBytes(h: Hasher, seg: Seg, i: nat)
    requires i < |seg.groups|
    ensures var p := Printed(h, seg);
            var a, b := BodySize(seg.groups[..i]), BodySize(seg.groups[..i + 1]);
            && b == a + FrameSize(seg.groups[i]) && b <= BodySize(seg.groups) <= |p|
            && p[..a] == Body(h, seg.id, seg.first, seg.groups[..i])
            && p[a..b] == Frame(h, seg.groups[i], NextSeq(seg.first, seg.groups[..i]))
            && p[..b] == Body(h, seg.id, seg.first, seg.groups[..i + 1])
            && NextSeq(seg.first, seg.groups[..i + 1]) == NextSeq(seg.first, seg.groups[..i]) + |seg.groups[i]|
            && NextSeq(seg.first, seg.groups[..i + 1]) <= NextSeq(seg.first, seg.groups)
  {
    hide Frame, FrameSize, SealBlock;
    var g := seg.groups;
    var body := Body(h, seg.id, seg.first, g);
    BodyPrefix(h, seg.id, seg.first, g, i);
    BodyPrefix(h, seg.id, seg.first, g, i + 1);
    BodySnoc(h, seg.id, seg.first, g[..i], g[i]);
    assert g[..i + 1] == g[..i] + [g[i]];
    var p, a, b := Printed(h, seg), BodySize(g[..i]), BodySize(g[..i + 1]);
    assert p[..|body|] == body;
    assert p[..b] == body[..b];
    assert p[..a] == body[..a];
    assert p[a..b] == p[..b][a..];
  }

  /** The scan's state just before group `i` of a cut segment. */
  function ScanAt(h: Hasher, config: Config, seg: Seg, bytes: seq<Byte>, i: nat): (r: Outcome)
    requires i <= |seg.groups| && BodySize(seg.groups[..i]) <= |bytes|
  {
    var kept := seg.groups[..i];
    InspectFrom(h, config, seg.id, bytes, true, BodySize(kept), NextSeq(seg.first, kept),
                Body(h, seg.id, seg.first, kept), Visits(seg.first, kept))
  }

  /** A group that is entirely present is stepped over. */
  lemma ScanStep(h: Hasher, config: Config, seg: Seg, k: nat, i: nat)
    requires SegFits(config, seg) && k <= |Printed(h, seg)|
    requires i < |seg.groups| && BodySize(seg.groups[..i + 1]) <= k
    ensures BodySize(seg.groups[..i]) <= k
    ensures ScanAt(h, config, seg, Printed(h, seg)[..k], i) == ScanAt(h, config, seg, Printed(h, seg)[..k], i + 1)
  {
    hide Frame, FrameSize, ProbeAt, Printed, Body, BodySize, NextSeq, Visits, SegFits;
    var bytes := Printed(h, seg)[..k];
    GroupBytes(h, seg, i);
    var a, b := BodySize(seg.groups[..i]), BodySize(seg.groups[..i + 1]);
    assert bytes[a..b] == Printed(h, seg)[a..b];
    assert SegFitsAt(config, seg, i) by { SegFitsGroup(config, seg, i); }
    ProbeWhole(h, config, seg.id, bytes, a, NextSeq(seg.first, seg.groups[..i]),
               Body(h, seg.id, seg.first, seg.groups[..i]), seg.groups[i]);
    assert seg.groups[..i + 1] == seg.groups[..i] + [seg.groups[i]];
    BodySnoc(h, seg.id, seg.first, seg.groups[..i], seg.groups[i]);
    VisitsSnoc(seg.first, seg.groups[..i], seg.groups[i]);
  }

  predicate SegFitsAt(config: Config, seg: Seg, i: nat)
    requires i < |seg.groups|
  {
    && config.Valid() && GroupFits(config, seg.groups[i])
    && BodySize(seg.groups[..i + 1]) + SEAL <= config.segmentBytes
    && NextSeq(seg.first, seg.groups[..i + 1]) <= U64_MAX
  }

  lemma SegFitsGroup(config: Config, seg: Seg, i: nat)
    requires SegFits(config, seg) && i < |seg.groups|
    ensures SegFitsAt(config, seg, i)
  {
    var h: Hasher := _ => seq(32, _ => 0);
    hide FrameSize;
    BodyPrefix(h, seg.id, seg.first, seg.groups, i + 1);
  }

  /** Scanning on from group `i` of a cut segment. */
  lemma {:induction false} InspectCutFrom(h: Hasher, config: Config, seg: Seg, k: nat, i: nat)
    requires SegFits(config, seg) && HEADER <= k <= |Printed(h, seg)|
    requires i <= WholeGroups(seg.groups, k)
    ensures BodySize(seg.groups[..i]) <= k
    ensures ScanAt(h, config, seg, Printed(h, seg)[..k], i) == CutOutcome(h, seg, k)
    decreases |seg.groups| - i
  {
    hide Printed, Body, BodySize, SegFits, ScanAt, CutOutcome, WholeGroups;
    var m := WholeGroups(seg.groups, k);
    WholeGroupsIsMaximal(seg.groups, k);
    if i < m {
      BodyPrefix(h, seg.id, seg.first, seg.groups[..m], i + 1);
      assert seg.groups[..m][..i + 1] == seg.groups[..i + 1];
      ScanStep(h, config, seg, k, i);
      InspectCutFrom(h, config, seg, k, i + 1);
    } else {
      StopAtCut(h, config, seg, k);
    }
  }

  /** The last step: a clean boundary, a torn frame, a torn seal, or the seal itself. */
  lemma StopAtCut(h: Hasher, config: Config, seg: Seg, k: nat)
    requires SegFits(config, seg) && HEADER <= k <= |Printed(h, seg)|
    ensures var kept := seg.groups[..WholeGroups(seg.groups, k)];
            BodySize(kept) <= k &&
            ScanAt(h, config, seg, Printed(h, seg)[..k], |kept|) == CutOutcome(h, seg, k)
  {
    hide Frame, FrameSize, ProbeAt, Body, SealBlock, Visits, WholeGroups, NextSeq, BodySize;
    var bytes := Printed(h, seg)[..k];
    var m := WholeGroups(seg.groups, k);
    var kept := seg.groups[..m];
    var pos, next, body := BodySize(kept), NextSeq(seg.first, kept), Body(h, seg.id, seg.first, kept);
    WholeGroupsIsMaximal(seg.groups, k);
    BodyPrefix(h, seg.id, seg.first, seg.groups, m);
    if pos == k {
    } else if m < |seg.groups| {
      GroupBytes(h, seg, m);
      var b := BodySize(seg.groups[..m + 1]);
      CutSlice(Printed(h, seg), pos, k, b);
      SegFitsGroup(config, seg, m);
      ProbeCutFrame(h, config, seg.id, bytes, pos, next, body, seg.groups[m]);
    } else {
      assert kept == seg.groups;
      StopAtSeal(h, config, seg, k);
    }
  }

  lemma CutSlice<T>(s: seq<T>, pos: nat, k: nat, b: nat)
    requires pos <= k <= b <= |s|
    ensures s[..k][pos..] == s[pos..b][..k - pos]
  {
  }

  lemma StopAtSeal(h: Hasher, config: Config, seg: Seg, k: nat)
    requires SegFits(config, seg) && seg.sealed && BodySize(seg.groups) < k <= |Printed(h, seg)|
    ensures var body := Body(h, seg.id, seg.first, seg.groups);
            var bytes := Printed(h, seg)[..k];
            var probe := ProbeAt(h, config, seg.id, bytes, |body|, NextSeq(seg.first, seg.groups), body);
            && probe == (if k == |Printed(h, seg)| then Seal else Tail)
            && (probe.Seal? ==> Printed(h, seg)[..k - 32] == body + bytes[|body|..|body| + 32])
  {
    hide Body, SealBlock;
    var body := Body(h, seg.id, seg.first, seg.groups);
    var bytes := Printed(h, seg)[..k];
    if k == |Printed(h, seg)| {
      assert bytes[|body|..] == SealBlock(h, body, seg.id, NextSeq(seg.first, seg.groups));
      ProbeSealed(h, config, seg.id, bytes, |body|, NextSeq(seg.first, seg.groups), body);
      assert bytes[..|body|] == body;
      assert bytes[..k - 32] == bytes[..|body|] + bytes[|body|..|body| + 32];
    }
  }

  /**
   * Cut a printed segment at any byte: recovery never errors, visits exactly the groups whose
   * frames fit whole, and reports the boundary after the last of them (or the repaired header);
   * only the uncut sealed file parses as sealed.
   */
  lemma CutSegment(h: Hasher, config: Config, seg: Seg, k: nat)
    requires SegFits(config, seg) && k <= |Printed(h, seg)|
    ensures Inspect(h, config, seg.id, seg.first, Printed(h, seg)[..k], true) == CutOutcome(h, seg, k)
  {
    hide Printed, SegmentHeader, WholeGroups, InspectFrom, Frame, FrameSize;
    var header := SegmentHeader(h, seg.id, seg.first);
    var p := Printed(h, seg);
    HeaderBytes(h, seg);
    if k < HEADER {
      assert p[..k] == p[..HEADER][..k];
    } else {
      assert p[..k][..HEADER] == p[..HEADER];
      assert seg.groups[..0] == [];
      InspectCutFrom(h, config, seg, k, 0);
    }
  }

  lemma HeaderBytes(h: Hasher, seg: Seg)
    ensures Printed(h, seg)[..HEADER] == SegmentHeader(h, seg.id, seg.first)
  {
    hide SegmentHeader, SealBlock;
    BodyPrefix(h, seg.id, seg.first, seg.groups, 0);
    assert seg.groups[..0] == [];
    var body := Body(h, seg.id, seg.first, seg.groups);
    assert Printed(h, seg)[..|body|] == body;
  }

  // ------------------------------------------------------------------ soundness

  /** `bytes`, parsed to `end` with the visits of `groups`, starts with exactly what the printer makes of them. */
  predicate Accepted(h: Hasher, config: Config, id: nat, first: nat, bytes: seq<Byte>, end: ScanEnd,
                     groups: seq<Group>) {
    var seg := Seg(id, first, groups, end.sealed);
    && SegFits(config, seg)
    && end.next == NextSeq(first, groups)
    && end.validLen <= |bytes| && bytes[..end.validLen] == Printed(h, seg)
    && (end.sealed ==> end.validLen == |bytes|)
    && (!end.sealed ==> end.hashed == Body(h, id, first, groups))
    && !end.repairHeader
  }

  lemma {:induction false} InspectFromSound(
    h: Hasher, config: Config, id: nat, first: nat, bytes: seq<Byte>, allowTail: bool, groups: seq<Group>)
    returns (all: seq<Group>)
    requires SegFits(config, Seg(id, first, groups, false))
    requires BodySize(groups) <= |bytes| && bytes[..BodySize(groups)] == Body(h, id, first, groups)
    requires InspectFrom(h, config, id, bytes, allowTail, BodySize(groups), NextSeq(first, groups),
                         Body(h, id, first, groups), Visits(first, groups)).result.Ok?
    ensures var out := InspectFrom(h, config, id, bytes, allowTail, BodySize(groups), NextSeq(first, groups),
                                   Body(h, id, first, groups), Visits(first, groups));
            && Accepted(h, config, id, first, bytes, out.result.value, all)
            && out.visited == Visits(first, all)
            && (!allowTail ==> out.result.value.validLen == |bytes|)
    decreases |bytes| - BodySize(groups)
  {
    hide ProbeAt, Frame, FrameSize, SealBlock, Body, BodySize, NextSeq, Visits;
    var pos, next, body := BodySize(groups), NextSeq(first, groups), Body(h, id, first, groups);
    all := groups;
    if pos < |bytes| {
      var probe := ProbeAt(h, config, id, bytes, pos, next, body);
      if probe.Whole? {
        ProbeWholeSound(h, config, id, bytes, pos, next, body);
        BodySnoc(h, id, first, groups, probe.records);
        VisitsSnoc(first, groups, probe.records);
        assert bytes[..pos + probe.size] == bytes[..pos] + bytes[pos..pos + probe.size];
        all := InspectFromSound(h, config, id, first, bytes, allowTail, groups + [probe.records]);
      } else if probe.Seal? {
        ProbeSealSound(h, config, id, bytes, pos, next, body);
        assert bytes[..|bytes|] == bytes[..pos] + bytes[pos..];
      }
    }
  }

  /** Whatever recovery accepts beyond a header is, byte for byte, a printed segment. */
  lemma InspectSound(h: Hasher, config: Config, id: nat, first: nat, bytes: seq<Byte>, allowTail: bool)
    returns (groups: seq<Group>)
    requires config.Valid() && id <= U64_MAX && first <= U64_MAX
    requires Inspect(h, config, id, first, bytes, allowTail).result.Ok?
    ensures var out := Inspect(h, config, id, first, bytes, allowTail);
            && out.visited == Visits(first, groups)
            && (|bytes| >= HEADER ==> Accepted(h, config, id, first, bytes, out.result.value, groups))
            && (|bytes| < HEADER ==> bytes == SegmentHeader(h, id, first)[..|bytes|] && groups == [] && allowTail)
            && (!allowTail ==> out.result.value.validLen == |bytes|)
  {
    hide ProbeAt, SegmentHeader, InspectFrom;
    groups := [];
    if |bytes| >= HEADER {
      groups := InspectFromSound(h, config, id, first, bytes, allowTail, []);
    } else {
      assert bytes[..|bytes|] == bytes;
    }
  }

  /** Where the lenient scan used every byte, the strict scan agrees with it. */
  lemma {:induction false} StrictAgrees(h: Hasher, config: Config, id: nat, bytes: seq<Byte>,
                                        pos: nat, next: nat, hashed: seq<Byte>, visited: seq<ReplayGroup>)
    requires pos <= |bytes|
    ensures var lenient := InspectFrom(h, config, id, bytes, true, pos, next, hashed, visited);
            var strict := InspectFrom(h, config, id, bytes, false, pos, next, hashed, visited);
            && (lenient.result.Ok? && lenient.result.value.validLen == |bytes| ==> strict == lenient)
            && (lenient.result.Ok? && lenient.result.value.validLen != |bytes| ==> strict.result.Err?)
            && (lenient.result.Err? ==> strict.result.Err?)
            && (lenient.result.Ok? ==> pos <= lenient.result.value.validLen <= |bytes|)
    decreases |bytes| - pos
  {
    hide ProbeAt;
    if pos < |bytes| {
      var probe := ProbeAt(h, config, id, bytes, pos, next, hashed);
      if probe.Whole? {
        StrictAgrees(h, config, id, bytes, pos + probe.size, next + |probe.records|,
                     hashed + bytes[pos..pos + probe.size], visited + [ReplayGroup(next, probe.records)]);
      }
    }
  }

  /** Interior files fail closed: a cut segment passes the strict scan exactly at a group boundary or uncut. */
  lemma StrictCut(h: Hasher, config: Config, seg: Seg, k: nat)
    requires SegFits(config, seg) && k <= |Printed(h, seg)|
    ensures var strict := Inspect(h, config, seg.id, seg.first, Printed(h, seg)[..k], false);
            var clean := k >= HEADER && CutOutcome(h, seg, k).result.value.validLen == k;
            && (strict.result.Ok? <==> clean)
            && (clean ==> strict == CutOutcome(h, seg, k))
  {
    hide Printed, SegmentHeader, InspectFrom, CutOutcome;
    CutSegment(h, config, seg, k);
    var bytes, header := Printed(h, seg)[..k], SegmentHeader(h, seg.id, seg.first);
    if k >= HEADER {
      StrictAgrees(h, config, seg.id, bytes, HEADER, seg.first, header, []);
    }
  }

  /** The strict parser and the printer are inverse: it accepts exactly the printed segments. */
  lemma StrictAcceptsExactlyPrinted(h: Hasher, config: Config, id: nat, first: nat, bytes: seq<Byte>)
    requires config.Valid() && id <= U64_MAX && first <= U64_MAX
    ensures Inspect(h, config, id, first, bytes, false).result.Ok?
       <==> exists groups: seq<Group>, sealed: bool ::
              SegFits(config, Seg(id, first, groups, sealed)) && bytes == Printed(h, Seg(id, first, groups, sealed))
  {
    hide Printed, Inspect, SegFits, CutOutcome;
    if Inspect(h, config, id, first, bytes, false).result.Ok? {
      var groups := InspectSound(h, config, id, first, bytes, false);
      var end := Inspect(h, config, id, first, bytes, false).result.value;
      assert bytes[..end.validLen] == bytes;
      assert SegFits(config, Seg(id, first, groups, end.sealed))
          && bytes == Printed(h, Seg(id, first, groups, end.sealed));
    }
    forall groups: seq<Group>, sealed: bool
      | SegFits(config, Seg(id, first, groups, sealed)) && bytes == Printed(h, Seg(id, first, groups, sealed))
      ensures Inspect(h, config, id, first, bytes, false).result.Ok?
    {
      var seg := Seg(id, first, groups, sealed);
      assert Printed(h, seg)[..|bytes|] == bytes;
      StrictCut(h, config, seg, |bytes|);
      UncutIsClean(h, seg);
    }
  }

  lemma UncutIsClean(h: Hasher, seg: Seg)
    ensures |Printed(h, seg)| >= HEADER
    ensures CutOutcome(h, seg, |Printed(h, seg)|)
         == Outcome(Ok(ScanEnd(NextSeq(seg.first, seg.groups), |Printed(h, seg)|, seg.sealed, false,
                               if seg.sealed then Printed(h, seg)[..|Printed(h, seg)| - 32]
                               else Printed(h, seg))),
                    Visits(seg.first, seg.groups))
  {
    hide SealBlock;
    assert seg.groups[..|seg.groups|] == seg.groups;
  }

  // --------------------------------------------------------- the parser as it runs

  /** The per-record loop over a complete frame: walk the length words up to the trailer. */
  method SplitRecords(frame: seq<Byte>, trailer: nat, count: nat, maxRecordBytes: nat) returns (r: RecordsResult)
    requires HEADER <= trailer <= |frame|
    ensures r == ParseRecords(frame[HEADER..trailer], count, maxRecordBytes)
  {
    hide Word, ParseRecords;
    var cursor: nat := HEADER;
    var records: seq<seq<Byte>> := [];
    for i := 0 to count
      invariant HEADER <= cursor <= trailer
      invariant ParseRecords(frame[HEADER..trailer], count, maxRecordBytes)
             == Prepend(records, ParseRecords(frame[cursor..trailer], count - i, maxRecordBytes))
    {
      ParseOne(frame, cursor, trailer, count - i, maxRecordBytes);
      if cursor + 8 > trailer {
        return BadRecords("missing record length");
      }
      var len := Word(frame, cursor);
      if len > maxRecordBytes {
        return BadRecords("record byte bound");
      }
      if len > trailer - (cursor + 8) {
        return BadRecords("record crosses commit trailer");
      }
      records := records + [frame[cursor + 8..cursor + 8 + len]];
      cursor := cursor + 8 + len;
    }
    ParseOne(frame, cursor, trailer, 0, maxRecordBytes);
    if cursor != trailer {
      return BadRecords("group record count/extent mismatch");
    }
    r := Records(records);
  }

  /** One step of the record parse, at a cursor into the frame. */
  lemma ParseOne(frame: seq<Byte>, cursor: nat, trailer: nat, count: nat, maxRecordBytes: nat)
    requires cursor <= trailer <= |frame|
    ensures var parsed := ParseRecords(frame[cursor..trailer], count, maxRecordBytes);
            if count == 0 then
              parsed == if cursor == trailer then Records([]) else BadRecords("group record count/extent mismatch")
            else if cursor + 8 > trailer then parsed == BadRecords("missing record length")
            else
              var len := Word(frame, cursor);
              if len > maxRecordBytes then parsed == BadRecords("record byte bound")
              else if len > trailer - (cursor + 8) then parsed == BadRecords("record crosses commit trailer")
              else parsed == Prepend([frame[cursor + 8..cursor + 8 + len]],
                                     ParseRecords(frame[cursor + 8 + len..trailer], count - 1, maxRecordBytes))
  {
    hide Word;
    if count > 0 && cursor + 8 <= trailer {
      var rest := frame[cursor..trailer];
      SubSlice(frame, cursor, trailer, 0, 8);
      SameWord(rest, frame, cursor);
      var len := Word(frame, cursor);
      if len <= trailer - (cursor + 8) {
        SubSlice(frame, cursor, trailer, 8, 8 + len);
      }
    }
  }

  lemma SubSlice<T>(s: seq<T>, lo: nat, hi: nat, a: nat, b: nat)
    requires a <= b && lo + b <= hi <= |s|
    ensures s[lo..hi][a..b] == s[lo + a..lo + b]
    ensures s[lo..hi][b..] == s[lo + b..hi]
  {
    var t := s[lo..hi];
    assert t[a..b] == s[lo + a..lo + b] by {
      assert forall i :: 0 <= i < b - a ==> t[a..b][i] == t[a + i] == s[lo + (a + i)] == s[lo + a..lo + b][i];
    }
  }

  function Prepend(records: seq<seq<Byte>>, rest: RecordsResult): (r: RecordsResult) {
    if rest.BadRecords? then rest else Records(records + rest.records)
  }

  lemma SameWord(a: seq<Byte>, b: seq<Byte>, at: nat)
    requires 8 <= |a| && at + 8 <= |b| && a[0..8] == b[at..at + 8]
    ensures Word(a, 0) == Word(b, at)
  {
  }

  /** The checks on one position, in the order the parser makes them. */
  method ReadAt(h: Hasher, config: Config, id: nat, bytes: seq<Byte>, pos: nat, next: nat, hashed: seq<Byte>)
    returns (probe: Probe)
    requires pos < |bytes|
    ensures probe == ProbeAt(h, config, id, bytes, pos, next, hashed)
  {
    hide Word, ParseRecords;
    var remaining := |bytes| - pos;
    if remaining < HEADER {
      return Tail;
    }
    var header := bytes[pos..pos + HEADER];
    if header[..8] == SEAL_MAGIC {
      if Word(header, 8) != id || Word(header, 16) != next || Word(header, 24) != pos + SEAL || pos + SEAL != |bytes| {
        return Corrupt("invalid segment seal extent/sequence");
      }
      if h(hashed + header[..32]) != header[32..] {
        return Corrupt("segment seal checksum mismatch");
      }
      return Seal;
    }
    if header[..8] != GROUP_MAGIC {
      return Corrupt("unknown group format");
    }
    if h(header[..32]) != header[32..] {
      return Corrupt("group header checksum mismatch");
    }
    var size, groupFirst, count := Word(header, 8), Word(header, 16), Word(header, 24);
    var error := HeaderError(config, pos, next, size, groupFirst, count);
    if error != "" {
      return Corrupt(error);
    }
    if remaining < size {
      return Tail;
    }
    var frame := bytes[pos..pos + size];
    var trailer := size - TRAILER;
    if frame[trailer..trailer + 8] != COMMIT_MAGIC || Word(frame, trailer + 8) != next
       || Word(frame, trailer + 16) != next + count - 1 || Word(frame, trailer + 24) != size {
      return Corrupt("invalid complete commit trailer");
    }
    if h(frame[..size - 32]) != frame[size - 32..] {
      return Corrupt("complete group checksum mismatch");
    }
    var records := SplitRecords(frame, trailer, count, config.maxRecordBytes);
    probe := if records.BadRecords? then Corrupt(records.reason) else Whole(records.records, size);
  }

  /** The scan loop over an in-memory file, with the callback's groups returned in `visited`. */
  method InspectReader(h: Hasher, config: Config, id: nat, first: nat, bytes: seq<Byte>, allowTail: bool)
    returns (result: Result<ScanEnd>, visited: seq<ReplayGroup>)
    ensures Outcome(result, visited) == Inspect(h, config, id, first, bytes, allowTail)
  {
    hide ProbeAt, SegmentHeader;
    var expected := SegmentHeader(h, id, first);
    var n := if |bytes| < HEADER then |bytes| else HEADER;
    visited := [];
    if bytes[..n] != expected[..n] {
      return Err("segment header/version/sequence/checksum mismatch"), visited;
    }
    if n < HEADER {
      if !allowTail {
        return Err("incomplete interior segment header"), visited;
      }
      return Ok(ScanEnd(first, HEADER, false, true, expected)), visited;
    }
    var hashed, pos := expected, HEADER;
    var next: nat := first;
    while pos < |bytes|
      invariant HEADER <= pos <= |bytes|
      invariant Inspect(h, config, id, first, bytes, allowTail)
             == InspectFrom(h, config, id, bytes, allowTail, pos, next, hashed, visited)
      decreases |bytes| - pos
    {
      var probe := ReadAt(h, config, id, bytes, pos, next, hashed);
      match probe
      case Tail =>
        if !allowTail {
          return Err("incomplete interior group"), visited;
        }
        break;
      case Seal =>
        return Ok(ScanEnd(next, |bytes|, true, false, hashed + bytes[pos..pos + 32])), visited;
      case Corrupt(reason) =>
        return Err(reason), visited;
      case Whole(records, size) =>
        visited := visited + [ReplayGroup(next, records)];
        hashed := hashed + bytes[pos..pos + size];
        pos, next := pos + size, next + |records|;
    }
    result := Ok(ScanEnd(next, pos, false, false, hashed));
  }
}
