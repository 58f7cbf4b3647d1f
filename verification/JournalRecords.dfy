/** The records a journal delivers on replay, numbered by sequence. */
module JournalRecords {
  import opened Common
  import opened Bytes
  import opened JournalFormat
  import opened JournalOpen
  import opened JournalLog

  datatype Rec = Rec(sequence: nat, payload: seq<Byte>)

  /** The records of one group whose first record is `first`. */
  function GroupRecs(first: nat, records: seq<seq<Byte>>): (r: seq<Rec>)
    ensures |r| == |records|
    ensures forall i :: 0 <= i < |r| ==> r[i].sequence == first + i
  {
    seq(|records|, i requires 0 <= i < |records| => Rec(first + i, records[i]))
  }

  function SegRecs(first: nat, groups: seq<Group>): (r: seq<Rec>)
    ensures |r| == NextSeq(first, groups) - first
    ensures forall i :: 0 <= i < |r| ==> r[i].sequence == first + i
  {
    if groups == [] then []
    else
      var init := groups[..|groups| - 1];
      SegRecs(first, init) + GroupRecs(NextSeq(first, init), groups[|groups| - 1])
  }

  /** Everything a scan of the retained segments visits, in order. */
  function LogRecs(log: seq<Seg>): (r: seq<Rec>) {
    if log == [] then []
    else LogRecs(log[..|log| - 1]) + SegRecs(log[|log| - 1].first, log[|log| - 1].groups)
  }

  /** Replay skips records at or below the checkpoint. */
  function Above(c: nat, recs: seq<Rec>): (r: seq<Rec>) {
    if recs == [] then []
    else
      var last := recs[|recs| - 1];
      Above(c, recs[..|recs| - 1]) + if last.sequence > c then [last] else []
  }

  lemma {:induction false} AboveConcat(c: nat, a: seq<Rec>, b: seq<Rec>)
    ensures Above(c, a + b) == Above(c, a) + Above(c, b)
  {
    if b == [] {
      assert a + b == a;
    } else {
      var init := b[..|b| - 1];
      AboveConcat(c, a, init);
      assert (a + b)[..|a + b| - 1] == a + init;
    }
  }

  lemma {:induction false} AboveNone(c: nat, recs: seq<Rec>)
    requires forall i :: 0 <= i < |recs| ==> recs[i].sequence <= c
    ensures Above(c, recs) == []
  {
    if recs != [] {
      AboveNone(c, recs[..|recs| - 1]);
    }
  }

  /** Filtering a consecutive run leaves the consecutive run above the checkpoint. */
  lemma {:induction false} AboveRun(c: nat, recs: seq<Rec>, first: nat)
    requires forall i :: 0 <= i < |recs| ==> recs[i].sequence == first + i
    ensures var low := Max(first, c + 1);
            var r := Above(c, recs);
            && |r| == (if first + |recs| > low then first + |recs| - low else 0)
            && forall i :: 0 <= i < |r| ==> r[i].sequence == low + i
  {
    if recs != [] {
      AboveRun(c, recs[..|recs| - 1], first);
    }
  }

  lemma LogRecsSnoc(log: seq<Seg>, seg: Seg)
    ensures LogRecs(log + [seg]) == LogRecs(log) + SegRecs(seg.first, seg.groups)
  {
    assert (log + [seg])[..|log|] == log;
  }

  lemma SegRecsSnoc(first: nat, groups: seq<Group>, records: Group)
    ensures SegRecs(first, groups + [records]) == SegRecs(first, groups) + GroupRecs(NextSeq(first, groups), records)
  {
    assert (groups + [records])[..|groups|] == groups;
  }

  lemma ChainInit(c: nat, log: seq<Seg>)
    requires Chain(c, log) && |log| > 0
    ensures Chain(c, log[..|log| - 1])
    ensures var n := |log| - 1;
            Linked(c, n, PreviousId(log, n), PreviousEnd(log, n), log[n].id, log[n].first)
  {
    hide Linked, NextSeq;
    var init := log[..|log| - 1];
    forall i | 0 <= i < |init|
      ensures Linked(c, i, PreviousId(init, i), PreviousEnd(init, i), init[i].id, init[i].first)
    {
      assert PreviousId(init, i) == PreviousId(log, i) && PreviousEnd(init, i) == PreviousEnd(log, i);
    }
  }

  /** Replay above the checkpoint is gap-free: c+1, c+2, ... up to the frontier, each exactly once. */
  lemma {:induction false} DeliveredContiguously(c: nat, log: seq<Seg>)
    requires Chain(c, log)
    ensures var d := Above(c, LogRecs(log));
            && |d| == FrontierOf(c, log) - (c + 1)
            && forall i :: 0 <= i < |d| ==> d[i].sequence == c + 1 + i
  {
    if log != [] {
      hide Chain, NextSeq, SegRecs;
      var n := |log| - 1;
      var init, last := log[..n], log[n];
      ChainInit(c, log);
      DeliveredContiguously(c, init);
      var recs := SegRecs(last.first, last.groups);
      AboveConcat(c, LogRecs(init), recs);
      AboveRun(c, recs, last.first);
    }
  }
}
