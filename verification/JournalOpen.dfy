/** Reopening a journal directory: the startup scan, the tail repair and what they recover. */
module JournalOpen {
  import opened Common
  import opened Bytes
  import opened JournalFormat
  import opened JournalParser

  /** One directory entry, named by its segment ID. Directories are listed in ID order. */
  datatype File = File(id: nat, bytes: seq<Byte>)

  /** In-memory metadata of a segment. An empty segment has last == first - 1. */
  datatype Meta = Meta(id: nat, len: nat, first: nat, last: int)

  /** The writable tail: its length and what its running hash has absorbed. */
  datatype Active = NoActive | Active(len: nat, hashed: seq<Byte>)

  datatype JournalState = JournalState(
    files: seq<File>,
    segments: seq<Meta>,
    active: Active,
    nextSequence: nat,
    nextSegmentId: nat,
    checkpoint: nat,
    diskBytes: nat)

  datatype Entry = Entry(meta: Meta, end: ScanEnd)

  function TotalBytes(files: seq<File>): (r: nat) {
    if files == [] then 0 else TotalBytes(files[..|files| - 1]) + |files[|files| - 1].bytes|
  }

  /** Directory admission, before any frame is read. */
  function AdmissionError(config: Config, files: seq<File>): (r: string) {
    if |files| > config.maxSegments then "segment count admission exceeded"
    else if exists i :: 0 <= i < |files| && |files[i].bytes| > config.segmentBytes then
      "segment byte admission exceeded"
    else if TotalBytes(files) > config.maxTotalBytes then "disk admission exceeded"
    else ""
  }

  /** The first sequence of a segment file, guessed from the neighbours when the header is torn. */
  function FirstOf(h: Hasher, file: File, index: nat, previousNext: nat, floorNext: nat): (r: nat) {
    if |file.bytes| >= 32 then Word(file.bytes, 24)
    else
      var contiguous := if index == 0 && file.id != 1 then floorNext else previousNext;
      if file.bytes == SegmentHeader(h, file.id, contiguous)[..|file.bytes|] then contiguous else floorNext
  }

  /** The record-sequence check of one startup step: only a checkpoint excuses a gap. */
  predicate SequenceLinked(c: nat, index: nat, previousNext: nat, first: nat) {
    if index == 0 then first <= c + 1
    else first >= previousNext && (first == previousNext || first <= c + 1)
  }

  /** The segment-ID check of one startup step. */
  predicate IdLinked(c: nat, previousId: nat, previousNext: nat, id: nat, first: nat) {
    id == previousId + 1 || (c > 0 && previousNext <= c + 1 && first <= c + 1)
  }

  predicate Linked(c: nat, index: nat, previousId: nat, previousNext: nat, id: nat, first: nat) {
    && first > 0
    && SequenceLinked(c, index, previousNext, first)
    && IdLinked(c, previousId, previousNext, id, first)
  }

  function OpenOne(h: Hasher, config: Config, c: nat, file: File, index: nat, isLast: bool, previousId: nat,
                   previousNext: nat)
    : (r: Result<Entry>)
    ensures r.Ok? ==> r.value.meta.id == file.id
  {
    var first := FirstOf(h, file, index, previousNext, c + 1);
    if first == 0 then Err("zero record sequence")
    else if !SequenceLinked(c, index, previousNext, first) then
      Err("record sequence gap above checkpoint or overlapping history")
    else if !IdLinked(c, previousId, previousNext, file.id, first) then Err("segment ID gap above checkpoint")
    else
      var out := Inspect(h, config, file.id, first, file.bytes, isLast).result;
      if out.Err? then Err(out.reason)
      else if !isLast && !out.value.sealed then Err("unsealed interior segment")
      else Ok(Entry(Meta(file.id, |file.bytes|, first, out.value.next - 1), out.value))
  }

  /** The startup loop from file `i` on. */
  function OpenLoop(h: Hasher, config: Config, c: nat, files: seq<File>, i: nat, previousId: nat, previousNext: nat)
    : (r: Result<seq<Entry>>)
    requires i <= |files|
    ensures r.Ok? ==> |r.value| == |files| - i
    decreases |files| - i
  {
    if i == |files| then Ok([])
    else
      var one := OpenOne(h, config, c, files[i], i, i + 1 == |files|, previousId, previousNext);
      if one.Err? then Err(one.reason)
      else
        var rest := OpenLoop(h, config, c, files, i + 1, files[i].id, one.value.end.next);
        if rest.Err? then Err(rest.reason) else Ok([one.value] + rest.value)
  }

  function Metas(entries: seq<Entry>): (r: seq<Meta>)
    ensures |r| == |entries|
  {
    seq(|entries|, i requires 0 <= i < |entries| => entries[i].meta)
  }

  /** The last file after tail repair: a rewritten header, or the bytes up to the last commit. */
  function Repaired(h: Hasher, file: File, entry: Entry): (r: seq<Byte>) {
    if entry.end.repairHeader then SegmentHeader(h, file.id, entry.meta.first)
    else if entry.end.validLen <= |file.bytes| then file.bytes[..entry.end.validLen]
    else file.bytes
  }

  /** After a clean scan: repair the tail if the last file is unsealed, and take ownership. */
  function TakeOver(h: Hasher, config: Config, c: nat, files: seq<File>, entries: seq<Entry>): (r: Result<JournalState>)
    requires |entries| == |files| > 0
  {
    var n := |files| - 1;
    var last, entry := files[n], entries[n];
    var next := Max(entry.end.next, c + 1);
    if last.id + 1 > U64_MAX then Err("segment ID exhausted")
    else if entry.end.sealed then
      Ok(JournalState(files, Metas(entries), NoActive, next, last.id + 1, c, TotalBytes(files)))
    else
      var repaired := TotalBytes(files) - |last.bytes| + entry.end.validLen;
      if repaired + SEAL > config.maxTotalBytes then Err("no disk budget for recovered active segment")
      else if entry.end.validLen + SEAL > config.segmentBytes then Err("no segment seal reserve")
      else
        Ok(JournalState(
             files[..n] + [File(last.id, Repaired(h, last, entry))],
             Metas(entries)[n := entry.meta.(len := entry.end.validLen)],
             Active(entry.end.validLen, entry.end.hashed),
             next, last.id + 1, c, repaired))
  }

  /** `open_with_checkpoint` on the files of a directory, in ID order. */
  function Open(h: Hasher, config: Config, c: nat, files: seq<File>): (r: Result<JournalState>) {
    if !config.Valid() then Err("invalid configuration")
    else if c + 1 > U64_MAX then Err("checkpoint sequence exhausted")
    else if AdmissionError(config, files) != "" then Err(AdmissionError(config, files))
    else
      var scanned := OpenLoop(h, config, c, files, 0, 0, 1);
      if scanned.Err? then Err(scanned.reason)
      else if files == [] then Ok(JournalState([], [], NoActive, c + 1, 1, c, 0))
      else TakeOver(h, config, c, files, scanned.value)
  }
}
