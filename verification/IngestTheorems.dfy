/** What every run of the ingestion pipeline keeps. */
module IngestTheorems {
  import opened Common
  import opened Ingest

  // ------------------------------------------------------------ counting

  /** Writes among the first `n` sequences. */
  function Writes(events: seq<Event>, n: nat): (r: nat)
    requires n <= |events|
  {
    if n == 0 then 0 else Writes(events, n - 1) + if events[n - 1].write then 1 else 0
  }

  function Bytes(events: seq<Event>, n: nat): (r: nat)
    requires n <= |events|
  {
    if n == 0 then 0 else Bytes(events, n - 1) + if events[n - 1].write then events[n - 1].bytes else 0
  }

  /** Writes among the first `n` sequences whose commit gave a receipt. */
  function Successes(events: seq<Event>, decided: map<nat, Option<nat>>, n: nat): (r: nat)
    requires n <= |events|
  {
    if n == 0 then 0
    else Successes(events, decided, n - 1) + if events[n - 1].write && n in decided && decided[n].Some? then 1 else 0
  }

  ghost predicate Inside(groups: seq<Span>, i: nat) {
    exists k :: 0 <= k < |groups| && groups[k].first - 1 <= i < groups[k].End()
  }

  lemma {:induction false} CountsPrefix(a: seq<Event>, b: seq<Event>, n: nat)
    requires n <= |a| <= |b| && a == b[..|a|]
    ensures Writes(a, n) == Writes(b, n) && Bytes(a, n) == Bytes(b, n)
  {
    if n > 0 {
      CountsPrefix(a, b, n - 1);
    }
  }

  lemma {:induction false} SuccessesSame(a: seq<Event>, b: seq<Event>, before: map<nat, Option<nat>>,
                                         after: map<nat, Option<nat>>, n: nat)
    requires n <= |a| <= |b| && a == b[..|a|]
    requires forall q :: 1 <= q <= n && a[q - 1].write ==> q in before && q in after && before[q] == after[q]
    ensures Successes(a, before, n) == Successes(b, after, n)
  {
    if n > 0 {
      SuccessesSame(a, b, before, after, n - 1);
      assert a[n - 1] == b[n - 1];
    }
  }

  lemma {:induction false} CountsGrow(events: seq<Event>, m: nat, n: nat)
    requires m <= n <= |events|
    ensures Writes(events, m) <= Writes(events, n) && Bytes(events, m) <= Bytes(events, n)
  {
    if m < n {
      CountsGrow(events, m, n - 1);
    }
  }

  // ------------------------------------------------------------ the invariant

  /** Cells the prepare stage has not reached. */
  ghost predicate TailCells(s: State)
    requires Shape(s)
  {
    && (forall i :: s.p <= i < s.v ==> s.cells[i] == if s.events[i].write then Validated else Open)
    && (forall i :: s.v <= i < |s.events| ==> s.cells[i] == if s.events[i].write then Input else Open)
  }

  /** Only barriers lie between `from` and `to`. */
  ghost predicate Barriers(s: State, from: nat, to: nat)
    requires Shape(s) && from <= to <= |s.events|
  {
    forall i :: from <= i < to ==> !s.events[i].write && s.cells[i].Open?
  }

  /** Between prepare and commit there is at most one group, the last one formed, after any barriers. */
  ghost predicate MidCells(s: State)
    requires Shape(s)
  {
    if s.awaiting <= s.c then Barriers(s, s.c, s.p)
    else
      && s.groups != []
      && var g := s.groups[|s.groups| - 1];
         && 1 <= g.first && 1 <= g.count && s.c <= g.first - 1 && g.End() == s.p == s.awaiting
         && Barriers(s, s.c, g.first - 1) && s.cells[g.first - 1] == Head(g.count)
         && (forall i :: g.first - 1 <= i < s.p ==> s.events[i].write)
         && (forall i :: g.first <= i < s.p ==> s.cells[i].Member?)
  }

  /** No write up to `n` got a receipt past `sequence`. */
  ghost predicate Covers(decided: map<nat, Option<nat>>, n: nat, sequence: nat) {
    forall q :: q in decided && q <= n && decided[q].Some? ==> decided[q].value <= sequence
  }

  /** Committed cells hold the decided results, and marks that cover all writes before them. */
  ghost predicate HeadCells(s: State)
    requires Shape(s)
  {
    forall i :: s.d <= i < s.c ==>
      if s.events[i].write then i + 1 in s.decided && s.cells[i] == Written(s.decided[i + 1])
      else s.cells[i].Marked? && Covers(s.decided, i, s.cells[i].sequence)
  }

  ghost predicate DecidedOk(s: State)
    requires Shape(s)
  {
    && (forall q :: q in s.decided <==> 1 <= q <= s.c && s.events[q - 1].write)
    && Covers(s.decided, s.c, s.frontier)
  }

  ghost predicate AnswersOk(s: State)
    requires Shape(s)
  {
    && (forall q :: q in s.answers <==> 1 <= q <= s.d && s.events[q - 1].write)
    && (forall q :: q in s.answers ==> q in s.decided && s.answers[q] == s.decided[q])
  }

  /** A barrier is told what became of exactly the writes before it. */
  ghost predicate ReplyOk(events: seq<Event>, decided: map<nat, Option<nat>>, q: nat, reply: Reply)
    requires 1 <= q <= |events|
  {
    && reply.completed == Writes(events, q - 1)
    && reply.succeeded == Successes(events, decided, q - 1)
    && reply.completed == reply.succeeded + reply.failed
    && Covers(decided, q - 1, reply.sequence)
  }

  ghost predicate RepliesOk(s: State)
    requires Shape(s)
  {
    && (forall q :: q in s.replies <==> 1 <= q <= s.d && !s.events[q - 1].write)
    && (forall q :: q in s.replies ==> ReplyOk(s.events, s.decided, q, s.replies[q]))
  }

  ghost predicate StatsOk(limits: Limits, s: State)
    requires Shape(s)
  {
    && s.stats.submitted == Writes(s.events, |s.events|)
    && s.stats.completed == Writes(s.events, s.d)
    && s.stats.succeeded == Successes(s.events, s.decided, s.d)
    && s.stats.completed == s.stats.succeeded + s.stats.failed
    && s.stats.pending == Writes(s.events, |s.events|) - Writes(s.events, s.d)
    && s.stats.pendingBytes == Bytes(s.events, |s.events|) - Bytes(s.events, s.d)
    && s.stats.pendingBytes <= limits.maxPending
  }

  /** The groups, in order, hold every prepared write once. */
  ghost predicate GroupsOk(limits: Limits, s: State)
    requires Shape(s)
  {
    && (forall k :: 0 <= k < |s.groups| ==> GroupOk(limits, s.events, s.groups[k]) && s.groups[k].End() <= s.p)
    && (forall j, k :: 0 <= j < k < |s.groups| ==> s.groups[j].End() < s.groups[k].first)
    && (forall i :: 0 <= i < s.p && s.events[i].write ==> Inside(s.groups, i))
  }

  ghost predicate BookOk(limits: Limits, s: State)
    requires Shape(s)
  {
    && |s.events| - s.d <= limits.capacity && Sized(limits, s.events)
    && (forall q :: q in s.entries <==> s.d < q <= |s.events|)
  }

  ghost predicate Inv(limits: Limits, s: State) {
    && limits.Valid() && Shape(s) && !s.broken
    && BookOk(limits, s) && TailCells(s) && MidCells(s) && HeadCells(s)
    && DecidedOk(s) && AnswersOk(s) && RepliesOk(s) && StatsOk(limits, s) && GroupsOk(limits, s)
  }

  // ------------------------------------------------------------ admission

  lemma {:induction false} SumsPrefix(a: seq<Event>, b: seq<Event>, first: nat, n: nat)
    requires 1 <= first && first - 1 + n <= |a| <= |b| && a == b[..|a|]
    ensures RowSum(a, first, n) == RowSum(b, first, n) && ByteSum(a, first, n) == ByteSum(b, first, n)
  {
    if n > 0 {
      SumsPrefix(a, b, first, n - 1);
    }
  }

  /** The parts of the invariant that do not look at cells survive an appended event. */
  lemma AppendKeeps(limits: Limits, s: State, t: State, event: Event)
    requires Shape(s) && Shape(t) && t.events == s.events + [event]
    requires t.p == s.p && t.c == s.c && t.d == s.d && t.groups == s.groups
    requires t.decided == s.decided && t.answers == s.answers && t.replies == s.replies && t.frontier == s.frontier
    requires DecidedOk(s) && AnswersOk(s) && RepliesOk(s) && GroupsOk(limits, s)
    ensures DecidedOk(t) && AnswersOk(t) && RepliesOk(t) && GroupsOk(limits, t)
  {
    hide Writes, Successes, RowSum, ByteSum, Inside;
    assert s.events == t.events[..|s.events|];
    assert DecidedOk(t) && AnswersOk(t);
    forall q | q in t.replies ensures 1 <= q <= |t.events| && ReplyOk(t.events, t.decided, q, t.replies[q]) {
      assert ReplyOk(s.events, s.decided, q, s.replies[q]);
      CountsPrefix(s.events, t.events, q - 1);
      SuccessesSame(s.events, t.events, s.decided, t.decided, q - 1);
    }
    forall k | 0 <= k < |t.groups| ensures GroupOk(limits, t.events, t.groups[k]) {
      assert GroupOk(limits, s.events, s.groups[k]);
      SumsPrefix(s.events, t.events, s.groups[k].first, s.groups[k].count);
    }
  }

  lemma AppendStats(limits: Limits, s: State, t: State, event: Event)
    requires Shape(s) && Shape(t) && t.events == s.events + [event] && t.d == s.d && t.decided == s.decided
    requires DecidedOk(s) && StatsOk(limits, s)
    requires t.stats == if event.write
      then s.stats.(submitted := s.stats.submitted + 1, pending := s.stats.pending + 1,
                    pendingBytes := s.stats.pendingBytes + event.bytes)
      else s.stats
    requires event.write ==> s.stats.pendingBytes + event.bytes <= limits.maxPending
    ensures StatsOk(limits, t)
  {
    assert s.events == t.events[..|s.events|];
    CountsPrefix(s.events, t.events, s.d);
    CountsPrefix(s.events, t.events, |s.events|);
    SuccessesSame(s.events, t.events, s.decided, t.decided, s.d);
  }

  lemma AppendCells(limits: Limits, s: State, t: State, event: Event)
    requires Shape(s) && Shape(t) && t.events == s.events + [event]
    requires t.cells == s.cells + [if event.write then Input else Open]
    requires t.v == s.v && t.p == s.p && t.c == s.c && t.d == s.d && t.groups == s.groups && t.awaiting == s.awaiting
    requires t.decided == s.decided
    requires TailCells(s) && MidCells(s) && HeadCells(s)
    ensures TailCells(t) && MidCells(t) && HeadCells(t)
  {
    hide Covers, MidCells;
    MidSame(s, t);
  }

  lemma AdmitKeeps(limits: Limits, s: State, a: Action)
    requires Inv(limits, s) && Enabled(limits, s, a) && (a.Enqueue? || a.Flush?)
    ensures Inv(limits, Do(limits, s, a))
  {
    hide BookOk, TailCells, MidCells, HeadCells, DecidedOk, AnswersOk, RepliesOk, StatsOk, GroupsOk;
    var t := Do(limits, s, a);
    var event := if a.Enqueue? then Event(true, a.rows, a.bytes) else Event(false, 0, 0);
    AdmitBook(limits, s, t, event);
    hide *;
    AppendKeeps(limits, s, t, event);
    AppendStats(limits, s, t, event);
    AppendCells(limits, s, t, event);
    InvFrom(limits, t);
  }

  lemma InvFrom(limits: Limits, s: State)
    requires limits.Valid() && Shape(s) && !s.broken
    requires BookOk(limits, s) && TailCells(s) && MidCells(s) && HeadCells(s)
    requires DecidedOk(s) && AnswersOk(s) && RepliesOk(s) && StatsOk(limits, s) && GroupsOk(limits, s)
    ensures Inv(limits, s)
  {
  }

  lemma Parts(limits: Limits, s: State)
    requires Inv(limits, s)
    ensures limits.Valid() && Shape(s) && !s.broken
    ensures BookOk(limits, s) && TailCells(s) && MidCells(s) && HeadCells(s)
    ensures DecidedOk(s) && AnswersOk(s) && RepliesOk(s) && StatsOk(limits, s) && GroupsOk(limits, s)
  {
  }

  lemma AdmitBook(limits: Limits, s: State, t: State, event: Event)
    requires Shape(s) && BookOk(limits, s) && Shape(t) && t.events == s.events + [event] && t.d == s.d
    requires |s.events| - s.d < limits.capacity && t.entries == s.entries + {|s.events| + 1}
    requires event.write ==> event.rows <= limits.maxRows && event.bytes + GROUP_OVERHEAD <= limits.maxBytes
    ensures BookOk(limits, t)
  {
  }

  // ------------------------------------------------------------ the stages

  lemma SameGroups(limits: Limits, s: State, t: State)
    requires Shape(s) && Shape(t) && t.events == s.events && t.groups == s.groups && t.p == s.p && t.d == s.d
    requires t.entries == s.entries
    requires GroupsOk(limits, s) && BookOk(limits, s)
    ensures GroupsOk(limits, t) && BookOk(limits, t)
  {
    hide GroupOk, Inside, Writes;
  }

  lemma SameRecords(limits: Limits, s: State, t: State)
    requires Shape(s) && DecidedOk(s) && AnswersOk(s) && RepliesOk(s) && StatsOk(limits, s)
    requires Shape(t) && t.events == s.events && t.c == s.c && t.d == s.d && t.decided == s.decided
    requires t.answers == s.answers
    requires t.replies == s.replies && t.frontier == s.frontier && t.stats == s.stats
    ensures DecidedOk(t) && AnswersOk(t) && RepliesOk(t) && StatsOk(limits, t)
  {
    hide Writes, Bytes, Successes, Covers, ReplyOk;
  }

  /** Cells past the commit stage are someone else's. */
  lemma MidSame(s: State, t: State)
    requires Shape(s) && Shape(t) && MidCells(s)
    requires t.c == s.c && t.p == s.p && t.awaiting == s.awaiting && t.groups == s.groups
    requires forall i :: s.c <= i < s.p ==> t.events[i] == s.events[i] && t.cells[i] == s.cells[i]
    ensures MidCells(t)
  {
    if s.awaiting > s.c {
      var g := s.groups[|s.groups| - 1];
      assert t.cells[g.first - 1] == s.cells[g.first - 1];
    }
  }

  lemma ValidateCells(s: State, t: State)
    requires Shape(s) && TailCells(s) && MidCells(s) && HeadCells(s) && s.v < |s.events|
    requires t == s.(v := s.v + 1, cells := if s.events[s.v].write then s.cells[s.v := Validated] else s.cells)
    ensures Shape(t) && TailCells(t) && MidCells(t) && HeadCells(t)
  {
    hide Covers, MidCells;
    MidSame(s, t);
  }

  lemma ValidateKeeps(limits: Limits, s: State)
    requires Inv(limits, s) && s.validated == s.v < |s.events|
    ensures Inv(limits, DoValidate(s))
  {
    hide BookOk, MidCells, HeadCells, DecidedOk, AnswersOk, RepliesOk, StatsOk, GroupsOk;
    assert s.cells[s.v] == if s.events[s.v].write then Input else Open;
    var t := DoValidate(s);
    hide *;
    ValidateCells(s, t);
    SameRecords(limits, s, t);
    SameGroups(limits, s, t);
    InvFrom(limits, t);
  }

  lemma PrepareBarrierKeeps(limits: Limits, s: State)
    requires Inv(limits, s) && s.p < s.v && s.awaiting <= s.published && !s.events[s.p].write
    ensures Inv(limits, DoPrepare(limits, s))
  {
    hide Bytes, Successes, Inside, GroupOk, Covers, ReplyOk, GroupCount, Sized;
    var t := DoPrepare(limits, s);
    assert s.cells[s.p] == Open;
    assert TailCells(t);
    assert MidCells(t);
    assert HeadCells(t);
  }

  /** Preparing a group finds its whole prefix ready and validated. */
  lemma PreparesGroup(limits: Limits, s: State) returns (g: Span)
    requires Inv(limits, s) && s.p < s.v && s.awaiting <= s.published && s.events[s.p].write
    ensures g == Span(s.p + 1, GroupCount(limits, s.events, s.p + 1, s.validated))
    ensures GroupOk(limits, s.events, g) && g.End() <= s.v && s.p + 1 in s.entries
    ensures DoPrepare(limits, s) == s.(cells := Staged(s.cells, g), p := g.End(), awaiting := g.End(),
                                       groups := s.groups + [g])
  {
    hide Writes, Bytes, Successes, Inside, RowSum, ByteSum, Covers, ReplyOk, GroupCount, Staged, MidCells, HeadCells;
    g := Span(s.p + 1, GroupCount(limits, s.events, s.p + 1, s.validated));
    GroupFormed(limits, s.events, s.p + 1, s.validated);
    assert Coalesced(limits, g.count, s.v - s.p) == g.count;
    assert forall i :: s.p <= i < g.End() ==> s.cells[i].Validated?;
  }

  lemma PrepareCells(limits: Limits, s: State, t: State, g: Span)
    requires Shape(s) && TailCells(s) && MidCells(s) && HeadCells(s) && s.awaiting <= s.c
    requires GroupOk(limits, s.events, g) && g.first == s.p + 1 && g.End() <= s.v
    requires t == s.(cells := Staged(s.cells, g), p := g.End(), awaiting := g.End(), groups := s.groups + [g])
    ensures Shape(t) && TailCells(t) && MidCells(t) && HeadCells(t)
  {
    hide Covers, RowSum, ByteSum;
  }

  lemma PrepareGroups(limits: Limits, s: State, t: State, g: Span)
    requires Shape(s) && Shape(t) && GroupsOk(limits, s) && GroupOk(limits, s.events, g) && g.first == s.p + 1
    requires t.events == s.events && t.groups == s.groups + [g] && t.p == g.End()
    ensures GroupsOk(limits, t)
  {
    hide RowSum, ByteSum;
    forall i | 0 <= i < t.p && t.events[i].write ensures Inside(t.groups, i) {
      if i < s.p {
        var k :| 0 <= k < |s.groups| && s.groups[k].first - 1 <= i < s.groups[k].End();
        assert t.groups[k] == s.groups[k];
      } else {
        assert t.groups[|s.groups|] == g;
      }
    }
  }

  lemma PrepareBook(limits: Limits, s: State, t: State)
    requires Shape(s) && BookOk(limits, s) && Shape(t) && t.events == s.events && t.d == s.d && t.entries == s.entries
    ensures BookOk(limits, t)
  {
  }

  lemma PrepareGroupKeeps(limits: Limits, s: State)
    requires Inv(limits, s) && s.p < s.v && s.awaiting <= s.published && s.events[s.p].write
    ensures Inv(limits, DoPrepare(limits, s))
  {
    var g := PreparesGroup(limits, s);
    var t := DoPrepare(limits, s);
    PrepareBook(limits, s, t);
    hide *;
    PrepareCells(limits, s, t, g);
    PrepareGroups(limits, s, t, g);
    SameRecords(limits, s, t);
    InvFrom(limits, t);
  }

  /** The next cell to commit is an open barrier, or the head of the one group in flight. */
  lemma CommitsHead(limits: Limits, s: State) returns (g: Span)
    requires Inv(limits, s) && s.c < s.p && s.events[s.c].write
    ensures 1 <= g.count && g == Span(s.c + 1, s.p - s.c) && s.awaiting == s.p && s.groups != []
    ensures s.cells[s.c] == Head(g.count) && forall i :: s.c < i < s.p ==> s.cells[i].Member?
    ensures forall i :: s.c <= i < s.p ==> s.events[i].write
    ensures Coalesced(limits, g.count, s.p - s.c) == g.count
  {
    hide Writes, Bytes, Successes, Inside, GroupOk, Covers, ReplyOk, Sized, HeadCells, TailCells, GroupsOk, DecidedOk,
      AnswersOk, RepliesOk, StatsOk;
    g := s.groups[|s.groups| - 1];
  }

  lemma MarkCells(s: State, t: State)
    requires Shape(s) && TailCells(s) && MidCells(s) && HeadCells(s) && DecidedOk(s) && s.c < s.p
    requires !s.events[s.c].write
    requires t == s.(cells := s.cells[s.c := Marked(s.frontier)], c := s.c + 1)
    ensures Shape(t) && TailCells(t) && MidCells(t) && HeadCells(t) && DecidedOk(t)
  {
  }

  lemma MarkRecords(limits: Limits, s: State, t: State)
    requires Shape(s) && DecidedOk(s) && AnswersOk(s) && RepliesOk(s) && StatsOk(limits, s)
    requires Shape(t) && t.events == s.events && t.d == s.d && t.decided == s.decided && t.answers == s.answers
    requires t.replies == s.replies && t.stats == s.stats
    ensures AnswersOk(t) && RepliesOk(t) && StatsOk(limits, t)
  {
    hide Writes, Bytes, Successes, Covers, ReplyOk;
  }

  lemma CommitBarrierKeeps(limits: Limits, s: State, results: seq<Option<nat>>, frontier: nat)
    requires Inv(limits, s) && s.published == s.c < s.p && !s.events[s.c].write
    ensures Inv(limits, DoCommit(limits, s, results, frontier))
  {
    hide BookOk, TailCells, HeadCells, DecidedOk, AnswersOk, RepliesOk, StatsOk, GroupsOk;
    assert s.cells[s.c].Open?;
    var t := DoCommit(limits, s, results, frontier);
    hide *;
    MarkCells(s, t);
    MarkRecords(limits, s, t);
    SameGroups(limits, s, t);
    InvFrom(limits, t);
  }

  lemma CommitCells(limits: Limits, s: State, t: State, results: seq<Option<nat>>, frontier: nat)
    requires Shape(s) && TailCells(s) && HeadCells(s) && DecidedOk(s) && s.c < s.p && |results| == s.p - s.c
    requires s.awaiting == s.p
    requires (forall i :: s.c <= i < s.p ==> s.events[i].write)
    requires t == s.(cells := Results(s.cells, s.c, results), c := s.p, decided := Decide(s.decided, s.c, results),
                     frontier := frontier)
    ensures Shape(t) && TailCells(t) && MidCells(t) && HeadCells(t)
  {
  }

  lemma CommitDecides(s: State, t: State, results: seq<Option<nat>>, frontier: nat)
    requires Shape(s) && DecidedOk(s) && AnswersOk(s) && s.c < s.p && |results| == s.p - s.c && s.frontier <= frontier
    requires forall i :: s.c <= i < s.p ==> s.events[i].write
    requires forall i :: 0 <= i < |results| && results[i].Some? ==> results[i].value <= frontier
    requires Shape(t) && t.events == s.events && t.d == s.d && t.answers == s.answers
    requires t.c == s.p && t.decided == Decide(s.decided, s.c, results) && t.frontier == frontier
    ensures DecidedOk(t) && AnswersOk(t)
    ensures forall q :: q in s.decided ==> q in t.decided && t.decided[q] == s.decided[q]
  {
  }

  lemma CommitReplies(limits: Limits, s: State, t: State)
    requires Shape(s) && RepliesOk(s) && StatsOk(limits, s) && DecidedOk(s)
    requires Shape(t) && t.events == s.events && t.d == s.d && s.c <= t.c && t.replies == s.replies
    requires t.stats == s.stats
    requires DecidedOk(t) && forall q :: q in s.decided ==> q in t.decided && t.decided[q] == s.decided[q]
    ensures RepliesOk(t) && StatsOk(limits, t)
  {
    hide Writes, Successes, Bytes;
    forall q | q in t.replies ensures ReplyOk(t.events, t.decided, q, t.replies[q]) {
      assert ReplyOk(s.events, s.decided, q, s.replies[q]);
      SuccessesSame(s.events, t.events, s.decided, t.decided, q - 1);
    }
    SuccessesSame(s.events, t.events, s.decided, t.decided, s.d);
  }

  lemma CommitGroupKeeps(limits: Limits, s: State, results: seq<Option<nat>>, frontier: nat)
    requires Inv(limits, s) && s.published == s.c < s.p && s.events[s.c].write && Publishes(s, results, frontier)
    ensures Inv(limits, DoCommit(limits, s, results, frontier))
  {
    var g := CommitsHead(limits, s);
    var t := DoCommit(limits, s, results, frontier);
    assert t == s.(cells := Results(s.cells, s.c, results), c := s.p, decided := Decide(s.decided, s.c, results),
                   frontier := frontier);
    hide *;
    CommitCells(limits, s, t, results, frontier);
    CommitDecides(s, t, results, frontier);
    CommitReplies(limits, s, t);
    SameGroups(limits, s, t);
    InvFrom(limits, t);
  }

  lemma CompleteCells(s: State, t: State)
    requires Shape(s) && TailCells(s) && MidCells(s) && HeadCells(s) && s.d < s.c
    requires t.events == s.events && t.cells == s.cells[s.d := Empty] && t.d == s.d + 1 && t.decided == s.decided
    requires t.v == s.v && t.p == s.p && t.c == s.c && t.groups == s.groups && t.awaiting == s.awaiting
    requires t.validated == s.validated && t.published == s.published
    ensures Shape(t) && TailCells(t) && MidCells(t) && HeadCells(t)
  {
    hide Covers, MidCells;
    MidSame(s, t);
  }

  lemma CompleteStats(limits: Limits, s: State, t: State)
    requires Shape(s) && StatsOk(limits, s) && DecidedOk(s) && s.d < s.c && s.events[s.d].write
    requires t.events == s.events && t.d == s.d + 1 && t.decided == s.decided && Shape(t)
    requires s.d + 1 in s.decided && t.stats == Answered(s.stats, s.events[s.d].bytes, s.decided[s.d + 1])
    ensures StatsOk(limits, t)
  {
    CountsGrow(s.events, s.d + 1, |s.events|);
  }

  /** One more sequence is complete: its entry is gone, and the groups are as they were. */
  lemma CompleteBook(limits: Limits, s: State, t: State)
    requires Shape(s) && BookOk(limits, s) && GroupsOk(limits, s) && s.d < s.c
    requires Shape(t) && t.events == s.events && t.d == s.d + 1 && t.entries == s.entries - {s.d + 1}
    requires t.groups == s.groups && t.p == s.p
    ensures BookOk(limits, t) && GroupsOk(limits, t)
  {
    hide GroupOk, Inside, Writes, Sized;
  }

  lemma CompleteRecords(limits: Limits, s: State, t: State)
    requires Shape(s) && DecidedOk(s) && AnswersOk(s) && RepliesOk(s) && s.d < s.c && Shape(t)
    requires t.events == s.events && t.d == s.d + 1 && t.c == s.c && t.decided == s.decided && t.frontier == s.frontier
    requires if s.events[s.d].write
      then s.d + 1 in s.decided && t.answers == s.answers[s.d + 1 := s.decided[s.d + 1]] && t.replies == s.replies
      else t.answers == s.answers && s.d + 1 in t.replies && t.replies == s.replies[s.d + 1 := t.replies[s.d + 1]]
             && ReplyOk(s.events, s.decided, s.d + 1, t.replies[s.d + 1])
    ensures DecidedOk(t) && AnswersOk(t) && RepliesOk(t)
  {
    hide ReplyOk, Covers;
  }

  lemma CompletesWrite(limits: Limits, s: State)
    requires Inv(limits, s) && s.d < s.c && s.events[s.d].write
    ensures s.d + 1 in s.entries && s.d + 1 in s.decided && s.cells[s.d] == Written(s.decided[s.d + 1])
  {
    hide Inside, GroupOk, Covers, ReplyOk, Sized, MidCells, TailCells, Writes, Bytes, Successes;
  }

  lemma CompletedWrite(s: State)
    requires Shape(s) && s.d < s.c && s.events[s.d].write && s.d + 1 in s.entries && s.d + 1 in s.decided
    requires s.cells[s.d] == Written(s.decided[s.d + 1])
    ensures DoComplete(s) == s.(cells := s.cells[s.d := Empty], entries := s.entries - {s.d + 1}, d := s.d + 1,
      stats := Answered(s.stats, s.events[s.d].bytes, s.decided[s.d + 1]),
      answers := s.answers[s.d + 1 := s.decided[s.d + 1]])
  {
  }

  lemma CompleteWriteKeeps(limits: Limits, s: State)
    requires Inv(limits, s) && s.d < s.c && s.events[s.d].write
    ensures Inv(limits, DoComplete(s))
  {
    hide *;
    Parts(limits, s);
    CompletesWrite(limits, s);
    CompletedWrite(s);
    var t := DoComplete(s);
    CompleteCells(s, t);
    CompleteStats(limits, s, t);
    CompleteBook(limits, s, t);
    CompleteRecords(limits, s, t);
    InvFrom(limits, t);
  }

  lemma CompletesBarrier(limits: Limits, s: State)
    requires Inv(limits, s) && s.d < s.c && !s.events[s.d].write
    ensures s.d + 1 in s.entries && s.cells[s.d].Marked?
    ensures ReplyOk(s.events, s.decided, s.d + 1,
                    Reply(s.cells[s.d].sequence, s.stats.completed, s.stats.succeeded, s.stats.failed))
  {
    hide Inside, GroupOk, Sized, MidCells, TailCells, Writes, Bytes, Successes;
  }

  lemma CompletedBarrier(s: State)
    requires Shape(s) && s.d < s.c && !s.events[s.d].write && s.d + 1 in s.entries && s.cells[s.d].Marked?
    ensures DoComplete(s) == s.(cells := s.cells[s.d := Empty], entries := s.entries - {s.d + 1}, d := s.d + 1,
      replies := s.replies[s.d + 1 := Reply(s.cells[s.d].sequence, s.stats.completed, s.stats.succeeded,
                                            s.stats.failed)])
  {
  }

  lemma BarrierStats(limits: Limits, s: State, t: State)
    requires Shape(s) && StatsOk(limits, s) && s.d < s.c && !s.events[s.d].write
    requires t.events == s.events && t.d == s.d + 1 && t.decided == s.decided && Shape(t) && t.stats == s.stats
    ensures StatsOk(limits, t)
  {
  }

  lemma CompleteBarrierKeeps(limits: Limits, s: State)
    requires Inv(limits, s) && s.d < s.c && !s.events[s.d].write
    ensures Inv(limits, DoComplete(s))
  {
    hide *;
    Parts(limits, s);
    CompletesBarrier(limits, s);
    CompletedBarrier(s);
    var t := DoComplete(s);
    CompleteCells(s, t);
    BarrierStats(limits, s, t);
    CompleteBook(limits, s, t);
    CompleteRecords(limits, s, t);
    InvFrom(limits, t);
  }

  // ------------------------------------------------------------ runs

  lemma NotesKeep(limits: Limits, s: State, a: Action)
    requires Inv(limits, s) && Enabled(limits, s, a) && (a.Close? || a.NoteValidated? || a.NotePublished?)
    ensures Inv(limits, Do(limits, s, a))
  {
    var t := Do(limits, s, a);
    assert t == s.(closed := t.closed, validated := t.validated, published := t.published);
    hide *;
    AsideCells(limits, s, t);
    SameRecords(limits, s, t);
    SameGroups(limits, s, t);
    InvFrom(limits, t);
  }

  lemma AsideCells(limits: Limits, s: State, t: State)
    requires Inv(limits, s) && Shape(t)
    requires t == s.(closed := t.closed, validated := t.validated, published := t.published)
    ensures TailCells(t) && MidCells(t) && HeadCells(t)
  {
    hide Covers, Sized, DecidedOk, AnswersOk, RepliesOk, StatsOk, GroupsOk;
  }

  /** Every enabled action keeps the invariant; no worker ever meets a payload it does not know. */
  lemma StepKeeps(limits: Limits, s: State, a: Action)
    requires Inv(limits, s) && Enabled(limits, s, a)
    ensures Inv(limits, Do(limits, s, a))
  {
    hide Inv, DoValidate, DoPrepare, DoCommit, DoComplete;
    assert Shape(s) by { ShapeOf(limits, s); }
    match a
    case Enqueue(_, _) => AdmitKeeps(limits, s, a);
    case Flush => AdmitKeeps(limits, s, a);
    case Close => NotesKeep(limits, s, a);
    case Validate => ValidateKeeps(limits, s);
    case NoteValidated => NotesKeep(limits, s, a);
    case Prepare => if s.events[s.p].write { PrepareGroupKeeps(limits, s); } else { PrepareBarrierKeeps(limits, s); }
    case Commit(results, frontier) =>
      if s.events[s.c].write { CommitGroupKeeps(limits, s, results, frontier); }
          else { CommitBarrierKeeps(limits, s, results, frontier); }
    case NotePublished => NotesKeep(limits, s, a);
    case Complete => if s.events[s.d].write { CompleteWriteKeeps(limits, s); } else { CompleteBarrierKeeps(limits, s); }
  }

  lemma ShapeOf(limits: Limits, s: State)
    requires Inv(limits, s)
    ensures Shape(s)
  {
  }

  /** `states` is a run of `actions` from the empty pipeline. */
  ghost predicate Run(limits: Limits, states: seq<State>, actions: seq<Action>) {
    && |states| == |actions| + 1 && states[0] == Init()
    && (forall i :: 0 <= i < |actions| ==>
          Shape(states[i]) && Enabled(limits, states[i], actions[i])
              && states[i + 1] == Do(limits, states[i], actions[i]))
  }

  lemma {:induction false} RunKeeps(limits: Limits, states: seq<State>, actions: seq<Action>, i: nat)
    requires limits.Valid() && Run(limits, states, actions) && i < |states|
    ensures Inv(limits, states[i])
  {
    hide Do, Enabled;
    if i == 0 {
      assert Inv(limits, Init());
    } else {
      hide Inv;
      RunKeeps(limits, states, actions, i - 1);
      assert states[i - 1 + 1] == Do(limits, states[i - 1], actions[i - 1]);
      StepKeeps(limits, states[i - 1], actions[i - 1]);
    }
  }

  // ------------------------------------------------------------ what callers see

  /** No worker of a run ever finds a cell in a state it does not expect, a missing entry or a missing prefix. */
  lemma NeverMisread(limits: Limits, states: seq<State>, actions: seq<Action>, i: nat)
    requires limits.Valid() && Run(limits, states, actions) && i < |states|
    ensures !states[i].broken
  {
    hide Run;
    RunKeeps(limits, states, actions, i);
  }

  /** Every group keeps the limits, groups do not overlap, and every prepared write is in one. */
  lemma GroupsAreLegal(limits: Limits, states: seq<State>, actions: seq<Action>, i: nat)
    requires limits.Valid() && Run(limits, states, actions) && i < |states|
    ensures var s := states[i];
      && (forall k :: 0 <= k < |s.groups| ==> GroupOk(limits, s.events, s.groups[k]))
      && (forall j, k :: 0 <= j < k < |s.groups| ==> s.groups[j].End() < s.groups[k].first)
      && s.p <= |s.events| && (forall q :: 0 <= q < s.p && s.events[q].write ==> Inside(s.groups, q))
  {
    hide Run, GroupOk;
    RunKeeps(limits, states, actions, i);
  }

  /** What the caller of flush `q` was told, against what the callers of earlier writes were told. */
  ghost predicate FlushTold(s: State, q: nat)
    requires q in s.replies
  {
    && 1 <= q <= |s.events| && !s.events[q - 1].write
    && var reply := s.replies[q];
       && reply.completed == Writes(s.events, q - 1)
       && reply.succeeded == Successes(s.events, s.answers, q - 1)
       && reply.failed == reply.completed - reply.succeeded
       && (forall w :: 1 <= w < q && s.events[w - 1].write ==> w in s.answers)
       && Covers(s.answers, q - 1, reply.sequence)
  }

  lemma RepliesTell(s: State, q: nat)
    requires Shape(s) && DecidedOk(s) && AnswersOk(s) && RepliesOk(s) && q in s.replies
    ensures FlushTold(s, q)
  {
    hide Writes, Successes;
    assert ReplyOk(s.events, s.decided, q, s.replies[q]);
    SuccessesSame(s.events, s.events, s.decided, s.answers, q - 1);
  }

  /**
   * A flush is answered after every write admitted before it, with the counts of exactly those writes,
   * and with a sequence no receipt among them exceeds.
   */
  lemma FlushSeesEarlierWrites(limits: Limits, states: seq<State>, actions: seq<Action>, i: nat, q: nat)
    requires limits.Valid() && Run(limits, states, actions) && i < |states| && q in states[i].replies
    ensures FlushTold(states[i], q)
  {
    hide *;
    RunKeeps(limits, states, actions, i);
    Parts(limits, states[i]);
    RepliesTell(states[i], q);
  }

  lemma AnswerStays(limits: Limits, s: State, a: Action, q: nat)
    requires Inv(limits, s) && Enabled(limits, s, a) && q in s.answers
    ensures q in Do(limits, s, a).answers && Do(limits, s, a).answers[q] == s.answers[q]
  {
    hide Writes, Bytes, Successes, GroupOk, Covers, ReplyOk, Sized, MidCells, HeadCells, TailCells, GroupsOk,
      RepliesOk, StatsOk, BookOk, DecidedOk, Staged, Results, Decide, GroupCount;
  }

  lemma AnswersHold(limits: Limits, states: seq<State>, actions: seq<Action>, j: nat)
    requires limits.Valid() && Run(limits, states, actions) && j < |states|
    ensures forall q :: q in states[j].answers ==>
      q in states[j].decided && states[j].answers[q] == states[j].decided[q]
  {
    hide *;
    RunKeeps(limits, states, actions, j);
    Parts(limits, states[j]);
    AnswersAgree(states[j]);
  }

  lemma AnswersAgree(s: State)
    requires Shape(s) && AnswersOk(s)
    ensures forall q :: q in s.answers ==> q in s.decided && s.answers[q] == s.decided[q]
  {
  }

  /** A write is answered with what its commit decided, and the answer never changes. */
  lemma {:induction false} AnsweredOnce(limits: Limits, states: seq<State>, actions: seq<Action>, i: nat, j: nat,
                                        q: nat)
    requires limits.Valid() && Run(limits, states, actions) && i <= j < |states| && q in states[i].answers
    ensures q in states[j].answers && states[j].answers[q] == states[i].answers[q]
    ensures q in states[j].decided && states[j].decided[q] == states[i].answers[q]
  {
    hide Do, Enabled, Inv, Shape, AnswersOk;
    AnswersHold(limits, states, actions, j);
    if i < j {
      AnsweredOnce(limits, states, actions, i, j - 1, q);
      RunKeeps(limits, states, actions, j - 1);
      assert states[j - 1 + 1] == Do(limits, states[j - 1], actions[j - 1]);
      AnswerStays(limits, states[j - 1], actions[j - 1], q);
    }
  }

  /** While anything admitted is incomplete, some worker has a turn to take. */
  lemma NeverStuck(limits: Limits, s: State) returns (a: Action)
    requires Inv(limits, s) && s.d < |s.events|
    ensures Enabled(limits, s, a) && !a.Enqueue? && !a.Flush? && !a.Close?
  {
    hide BookOk, TailCells, MidCells, HeadCells, DecidedOk, AnswersOk, RepliesOk, StatsOk, GroupsOk;
    a := if s.d < s.c then Complete
         else if s.published < s.c then NotePublished
         else if s.c < s.p then Commit(seq(if s.cells[s.c].Head? then s.cells[s.c].count else 0, _ => None), s.frontier)
         else if s.p < s.v then Prepare
         else if s.validated < s.v then NoteValidated
         else Validate;
  }

  /** A drained pipeline owes nothing: every caller has an answer and every pending byte is given back. */
  lemma DrainedOwesNothing(limits: Limits, s: State)
    requires Inv(limits, s) && s.d == |s.events|
    ensures s.stats.pending == 0 && s.stats.pendingBytes == 0 && s.entries == {}
    ensures s.stats.submitted == s.stats.completed == s.stats.succeeded + s.stats.failed
    ensures forall q :: 1 <= q <= |s.events| ==> if s.events[q - 1].write then q in s.answers else q in s.replies
  {
    hide Writes, Bytes, Successes, GroupOk, Covers, ReplyOk, Sized;
  }
}
