/** Crashes: a half-finished retirement and a half-finished append both reopen to the right content. */
module JournalCrash {
  import opened Bytes
  import opened JournalFormat
  import opened JournalParser
  import opened JournalOpen
  import opened JournalLog
  import opened JournalRecords

  // ------------------------------------------------------------ intact reopen

  /** Reopening an intact directory returns the journal of the same log. */
  lemma OpenIntact(h: Hasher, config: Config, c: nat, log: seq<Seg>)
    requires Openable(config, c, log)
    ensures Open(h, config, c, FilesOf(h, log)) == Ok(JournalOf(h, c, log, 1))
  {
    hide Printed, Chain, AllFit, InteriorSealed, IdsAscend, TakeOver, CutSeg;
    if log != [] {
      var last := log[|log| - 1];
      var k := |Printed(h, last)|;
      assert k >= HEADER;
      OpenTorn(h, config, c, log, k, 1);
      WholeCut(h, c, log);
      assert TornFiles(h, log, k) == FilesOf(h, log);
      assert CutLog(h, c, log, k) == log;
    }
  }

  lemma WholeCut(h: Hasher, c: nat, log: seq<Seg>)
    requires |log| > 0
    ensures var last := log[|log| - 1];
            var k := |Printed(h, last)|;
            CutSeg(h, c, log, k) == last && Printed(h, last)[..k] == Printed(h, last)
  {
    hide SealBlock, Body;
    var last := log[|log| - 1];
    CutSegPrints(h, last, |Printed(h, last)|);
  }

  // ------------------------------------------------------------ retirement

  /** The log when, of the first `covered` segments, only the files in `alive` were not yet unlinked. */
  function Survivors(log: seq<Seg>, covered: nat, alive: set<nat>): (r: seq<Seg>)
    ensures |r| <= |log|
  {
    if log == [] then []
    else
      var n := |log| - 1;
      Survivors(log[..n], covered, alive) + if n >= covered || log[n].id in alive then [log[n]] else []
  }

  /** Appending one linked, fitting segment after sealed ones keeps a log openable. */
  lemma SnocOpenable(config: Config, c: nat, log: seq<Seg>, seg: Seg)
    requires Openable(config, c, log) && (log != [] ==> log[|log| - 1].sealed)
    requires SegFits(config, seg) && seg.id + 1 <= U64_MAX
    requires log != [] ==> log[|log| - 1].id < seg.id
    requires Linked(c, |log|, PreviousId(log, |log|), PreviousEnd(log, |log|), seg.id, seg.first)
    requires |log| < config.maxSegments
    requires Reserved(log) + BodySize(seg.groups) + SEAL <= config.maxTotalBytes
    ensures Openable(config, c, log + [seg])
  {
    hide SegFits, Linked, BodySize, NextSeq;
    var all := log + [seg];
    assert all[..|log|] == log;
    SnocChain(c, log, seg);
    SnocShape(config, log, seg);
  }

  lemma SnocShape(config: Config, log: seq<Seg>, seg: Seg)
    requires AllFit(config, log) && InteriorSealed(log) && IdsAscend(log)
    requires log != [] ==> log[|log| - 1].sealed && log[|log| - 1].id < seg.id
    requires SegFits(config, seg) && seg.id + 1 <= U64_MAX
    ensures var all := log + [seg]; AllFit(config, all) && InteriorSealed(all) && IdsAscend(all)
  {
    hide SegFits;
  }

  lemma OpenableInit(config: Config, c: nat, log: seq<Seg>)
    requires Openable(config, c, log) && |log| > 0
    ensures var init := log[..|log| - 1];
            && Openable(config, c, init)
            && Reserved(log) == Reserved(init) + BodySize(log[|log| - 1].groups) + SEAL
            && (init != [] ==> init[|init| - 1].sealed && init[|init| - 1].id < log[|log| - 1].id)
  {
    hide SegFits, Linked, BodySize, NextSeq, Chain;
    ChainInit(c, log);
  }

  /** The first `covered` segments end at or below the new checkpoint. */
  predicate CoveredBy(cut: nat, log: seq<Seg>, covered: nat) {
    covered <= |log| && forall i :: 0 <= i < covered ==> EndOf(log[i]) <= cut + 1
  }

  /** What a surviving prefix may be followed by. */
  predicate Trails(cut: nat, covered: nat, log: seq<Seg>, kept: seq<Seg>) {
    && (kept != [] ==> log != [])
    && (kept != [] ==>
          var k, l := kept[|kept| - 1], log[|log| - 1];
          (l.sealed ==> k.sealed) && k.id <= l.id && EndOf(k) <= EndOf(l))
    && (|log| <= covered ==> kept == [] || EndOf(kept[|kept| - 1]) <= cut + 1)
    && (|log| > covered ==> kept != [] && kept[|kept| - 1] == log[|log| - 1])
    && Reserved(kept) <= Reserved(log)
  }

  /** Every subset of the covered files, with the live tail, is openable under the new checkpoint. */
  lemma {:induction false} SurvivorsOpenable(config: Config, c: nat, cut: nat, log: seq<Seg>, covered: nat,
                                             alive: set<nat>)
    requires Openable(config, c, log) && c <= cut && 0 < cut && cut + 1 <= U64_MAX
    requires forall i :: 0 <= i < covered && i < |log| ==> EndOf(log[i]) <= cut + 1
    requires config.Valid()
    ensures Openable(config, cut, Survivors(log, covered, alive))
    ensures Trails(cut, covered, log, Survivors(log, covered, alive))
  {
    hide Openable, Trails, EndOf;
    if log == [] {
      EmptyOpenable(config, cut, covered);
    } else {
      var n := |log| - 1;
      OpenableInit(config, c, log);
      SurvivorsOpenable(config, c, cut, log[..n], covered, alive);
      SurvivorStep(config, c, cut, log, covered, Survivors(log[..n], covered, alive), log[n].id in alive);
    }
  }

  lemma SurvivorStep(config: Config, c: nat, cut: nat, log: seq<Seg>, covered: nat, kept: seq<Seg>, alive: bool)
    requires Openable(config, c, log) && |log| > 0 && c <= cut && 0 < cut
    requires |log| <= covered ==> EndOf(log[|log| - 1]) <= cut + 1
    requires 1 < |log| <= covered + 1 ==> EndOf(log[|log| - 2]) <= cut + 1
    requires Openable(config, cut, kept) && Trails(cut, covered, log[..|log| - 1], kept)
    requires |kept| < |log|
    ensures var n := |log| - 1;
            var next := kept + if n >= covered || alive then [log[n]] else [];
            Openable(config, cut, next) && Trails(cut, covered, log, next)
  {
    hide Openable, NextSeq, BodySize, SegFits;
    var n := |log| - 1;
    var init, last := log[..n], log[n];
    OpenableInit(config, c, log);
    OpenableAt(config, c, log, n);
    assert (kept + [last])[..|kept|] == kept;
    assert log[..n] == init;
    if n >= covered || alive {
      LinkSurvivor(c, cut, log, covered, kept);
      LastSealed(cut, kept, init, covered);
      ReservedLast(config, c, log);
      assert |log| <= config.maxSegments by { SegmentBound(config, c, log); }
      SnocOpenable(config, cut, kept, last);
    } else {
      assert kept + [] == kept;
    }
  }

  lemma SegmentBound(config: Config, c: nat, log: seq<Seg>)
    requires Openable(config, c, log)
    ensures |log| <= config.maxSegments
  {
  }

  lemma LinkSurvivor(c: nat, cut: nat, log: seq<Seg>, covered: nat, kept: seq<Seg>)
    requires |log| > 0 && c <= cut && 0 < cut
    requires var n := |log| - 1; Linked(c, n, PreviousId(log, n), PreviousEnd(log, n), log[n].id, log[n].first)
    requires |log| <= covered ==> EndOf(log[|log| - 1]) <= cut + 1
    requires 1 < |log| <= covered + 1 ==> EndOf(log[|log| - 2]) <= cut + 1
    requires Trails(cut, covered, log[..|log| - 1], kept)
    ensures var last := log[|log| - 1];
            Linked(cut, |kept|, PreviousId(kept, |kept|), PreviousEnd(kept, |kept|), last.id, last.first)
  {
    hide NextSeq, Reserved;
  }

  lemma LastSealed(cut: nat, kept: seq<Seg>, init: seq<Seg>, covered: nat)
    requires Trails(cut, covered, init, kept)
    requires init != [] ==> init[|init| - 1].sealed
    ensures kept != [] ==> kept[|kept| - 1].sealed
  {
    hide NextSeq, BodySize;
  }

  lemma EmptyOpenable(config: Config, c: nat, covered: nat)
    requires config.Valid() && c + 1 <= U64_MAX
    ensures Openable(config, c, []) && Trails(c, covered, [], [])
  {
  }

  /** Replay above the checkpoint does not see which covered files survived. */
  lemma {:induction false} SurvivorsDeliverTheSame(cut: nat, log: seq<Seg>, covered: nat, alive: set<nat>)
    requires forall i :: 0 <= i < covered && i < |log| ==> EndOf(log[i]) <= cut + 1
    ensures Above(cut, LogRecs(Survivors(log, covered, alive))) == Above(cut, LogRecs(log))
  {
    hide NextSeq, SegRecs, Above;
    if log != [] {
      var n := |log| - 1;
      var init, last := log[..n], log[n];
      SurvivorsDeliverTheSame(cut, init, covered, alive);
      var kept, recs := Survivors(init, covered, alive), SegRecs(last.first, last.groups);
      AboveConcat(cut, LogRecs(init), recs);
      if n >= covered || last.id in alive {
        LogRecsSnoc(kept, last);
        AboveConcat(cut, LogRecs(kept), recs);
      } else {
        assert Survivors(log, covered, alive) == kept;
        AboveNone(cut, recs);
      }
    }
  }

  /**
   * Crash in the middle of retiring the segments covered by a positive checkpoint, with any
   * subset of them left on disk: reopening under that checkpoint succeeds, delivers the same
   * records above it, and continues at the old frontier.
   */
  lemma ReclaimCrashReopens(h: Hasher, config: Config, c: nat, cut: nat, log: seq<Seg>, covered: nat, alive: set<nat>)
    requires Openable(config, c, log) && c <= cut && 0 < cut < FrontierOf(c, log)
    requires CoveredBy(cut, log, covered)
    ensures var kept := Survivors(log, covered, alive);
            && Open(h, config, cut, FilesOf(h, kept)) == Ok(JournalOf(h, cut, kept, 1))
            && JournalOf(h, cut, kept, 1).nextSequence == FrontierOf(c, log)
            && Above(cut, LogRecs(kept)) == Above(cut, LogRecs(log))
            && |Above(cut, LogRecs(kept))| == FrontierOf(c, log) - (cut + 1)
  {
    hide Chain, AllFit, InteriorSealed, IdsAscend, Reserved, NextSeq, LogRecs, Above;
    var kept := Survivors(log, covered, alive);
    FrontierBound(config, c, log);
    SurvivorsOpenable(config, c, cut, log, covered, alive);
    OpenIntact(h, config, cut, kept);
    SurvivorsDeliverTheSame(cut, log, covered, alive);
    DeliveredContiguously(cut, kept);
  }

  lemma FrontierBound(config: Config, c: nat, log: seq<Seg>)
    requires Openable(config, c, log)
    ensures FrontierOf(c, log) <= U64_MAX
  {
    hide Chain, Reserved;
    if log != [] {
      OpenableAt(config, c, log, |log| - 1);
    }
  }
}
