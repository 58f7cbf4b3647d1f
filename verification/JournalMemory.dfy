/** How a journal's in-memory metadata follows its log: sealing, growing, adding and retiring segments. */
module JournalMemory {
  import opened Bytes
  import opened JournalFormat
  import opened JournalParser
  import opened JournalOpen
  import opened JournalLog
  import opened JournalRecords
  import opened JournalCrash
  import opened JournalAppend
  import opened JournalDirectory

  // ------------------------------------------------------------ bytes of one file

  lemma SealBytes(h: Hasher, seg: Seg)
    requires !seg.sealed
    ensures Printed(h, seg.(sealed := true))
         == Printed(h, seg) + SealBlock(h, Body(h, seg.id, seg.first, seg.groups), seg.id, EndOf(seg))
  {
  }

  lemma FrameBytes(h: Hasher, seg: Seg, records: Group)
    requires !seg.sealed
    ensures Printed(h, seg.(groups := seg.groups + [records])) == Printed(h, seg) + Frame(h, records, EndOf(seg))
  {
    BodySnoc(h, seg.id, seg.first, seg.groups, records);
  }

  lemma {:induction false} FrameGrows(records: seq<seq<Byte>>, record: seq<Byte>)
    ensures FrameSize(records + [record]) == FrameSize(records) + 8 + |record|
  {
    var all := records + [record];
    if records == [] {
      assert all[1..] == [];
    } else {
      assert all[1..] == records[1..] + [record];
      FrameGrows(records[1..], record);
    }
  }

  // ------------------------------------------------------------ metadata of the log

  lemma ReplacedLast(h: Hasher, log: seq<Seg>, seg: Seg)
    requires log != [] && seg.id == log[|log| - 1].id
    ensures var n, all := |log| - 1, log[|log| - 1 := seg];
            && MetasOf(all) == MetasOf(log)[n := MetaOf(seg)]
            && TotalBytes(FilesOf(h, all)) + |Printed(h, log[n])| == TotalBytes(FilesOf(h, log)) + |Printed(h, seg)|
            && ToMap(FilesOf(h, all)) == ToMap(FilesOf(h, log))[seg.id := Printed(h, seg)]
            && seg.id in ToMap(FilesOf(h, log)) && ToMap(FilesOf(h, log))[seg.id] == Printed(h, log[n])
  {
    hide Printed, MetaOf, ToMap;
    var n, all := |log| - 1, log[|log| - 1 := seg];
    BytesWithinReserve(h, log);
    BytesWithinReserve(h, all);
    assert all[..n] == log[..n];
    LastFile(h, log, Printed(h, seg));
    assert FilesOf(h, all) == FilesOf(h, log)[n := File(seg.id, Printed(h, seg))];
  }

  lemma AddedLast(h: Hasher, log: seq<Seg>, seg: Seg)
    ensures var all := log + [seg];
            && MetasOf(all) == MetasOf(log) + [MetaOf(seg)]
            && TotalBytes(FilesOf(h, all)) == TotalBytes(FilesOf(h, log)) + |Printed(h, seg)|
            && ToMap(FilesOf(h, all)) == ToMap(FilesOf(h, log))[seg.id := Printed(h, seg)]
  {
    hide Printed, MetaOf, ToMap;
    var all := log + [seg];
    BytesWithinReserve(h, all);
    assert all[..|log|] == log;
    SnocFile(h, log, seg);
  }

  /** The directory of a possibly torn log lists as its files. */
  lemma TornListing(h: Hasher, log: seq<Seg>, k: nat)
    requires log != [] && IdsAscend(log) && k <= |Printed(h, log[|log| - 1])|
    ensures Listing(ToMap(FilesOf(h, log))[log[|log| - 1].id := Printed(h, log[|log| - 1])[..k]])
      == TornFiles(h, log, k)
  {
    hide Printed, Listing;
    var n := |log| - 1;
    FilesAscend(h, log);
    LastFile(h, log, Printed(h, log[n])[..k]);
    var files := TornFiles(h, log, k);
    assert files[..n] == FilesOf(h, log)[..n];
    ListingOfMap(files);
  }

  lemma IntactListing(h: Hasher, log: seq<Seg>)
    requires IdsAscend(log)
    ensures Listing(ToMap(FilesOf(h, log))) == FilesOf(h, log)
  {
    FilesAscend(h, log);
    ListingOfMap(FilesOf(h, log));
  }

  lemma OpenableAscends(config: Config, c: nat, log: seq<Seg>)
    requires Openable(config, c, log)
    ensures IdsAscend(log) && forall i :: 0 <= i < |log| - 1 ==> log[i].sealed
  {
    hide Chain, AllFit, Reserved;
  }

  lemma FreshId(h: Hasher, config: Config, c: nat, log: seq<Seg>, nextId: nat)
    requires LogOk(config, c, log, nextId)
    ensures nextId !in ToMap(FilesOf(h, log))
  {
    hide Openable;
    OpenableAscends(config, c, log);
    FilesAscend(h, log);
  }

  // ------------------------------------------------------------ retiring covered segments

  /** What is left once the covered files from `j` on are unlinked. */
  function Gap(log: seq<Seg>, j: nat, covered: nat): (r: seq<Seg>)
    requires j <= covered
  {
    if |log| <= j then log else if |log| <= covered then log[..j] else log[..j] + log[covered..]
  }

  lemma {:induction false} GapSurvives(log: seq<Seg>, j: nat, covered: nat, alive: set<nat>)
    requires j <= covered
    requires forall i :: 0 <= i < |log| && i < covered ==> (log[i].id in alive <==> i < j)
    ensures Survivors(log, covered, alive) == Gap(log, j, covered)
  {
    if log != [] {
      var n := |log| - 1;
      GapSurvives(log[..n], j, covered, alive);
      GapStep(log, j, covered);
      assert n < covered ==> (log[n].id in alive <==> n < j);
    }
  }

  lemma GapStep(log: seq<Seg>, j: nat, covered: nat)
    requires j <= covered && log != []
    ensures var n := |log| - 1;
            Gap(log, j, covered) == Gap(log[..n], j, covered) + if n >= covered || n < j then [log[n]] else []
  {
    var n := |log| - 1;
    var init := log[..n];
    assert log == init + [log[n]];
    if n >= covered {
      assert init[..j] == log[..j];
      assert log[covered..] == log[covered..n] + [log[n]];
    }
  }

  function IdsIn(log: seq<Seg>): (r: set<nat>)
    ensures forall i :: 0 <= i < |log| ==> log[i].id in r
    ensures forall id :: id in r ==> exists i :: 0 <= i < |log| && log[i].id == id
  {
    if log == [] then {} else IdsIn(log[..|log| - 1]) + {log[|log| - 1].id}
  }

  lemma {:induction false} DistinctIds(log: seq<Seg>, i: nat, j: nat)
    requires IdsAscend(log) && i < j < |log|
    ensures log[i].id < log[j].id
  {
    if i + 1 < j {
      DistinctIds(log, i, j - 1);
    }
  }

  lemma AliveIds(log: seq<Seg>, j: nat)
    requires IdsAscend(log) && j <= |log|
    ensures forall i :: 0 <= i < |log| ==> (log[i].id in IdsIn(log[..j]) <==> i < j)
  {
    forall i | 0 <= i < |log|
      ensures log[i].id in IdsIn(log[..j]) <==> i < j
    {
      if i < j {
        assert log[..j][i].id in IdsIn(log[..j]);
      } else if log[i].id in IdsIn(log[..j]) {
        var k :| 0 <= k < j && log[..j][k].id == log[i].id;
        DistinctIds(log, k, i);
      }
    }
  }

  lemma OutsideIds(log: seq<Seg>, i: nat, j: nat, covered: nat)
    requires IdsAscend(log) && j <= covered <= |log| && i < |log| && (i < j || covered <= i)
    ensures log[i].id !in IdsIn(log[j..covered])
  {
    forall k | 0 <= k < covered - j ensures log[j..covered][k].id != log[i].id {
      var m: nat := j + k;
      if i < m { DistinctIds(log, i, m); } else { DistinctIds(log, m, i); }
    }
  }

  /** The directory after the covered files from `j` on are gone. */
  lemma GapFiles(h: Hasher, log: seq<Seg>, j: nat, covered: nat)
    requires IdsAscend(log) && j <= covered <= |log|
    ensures ToMap(FilesOf(h, Gap(log, j, covered))) == ToMap(FilesOf(h, log)) - IdsIn(log[j..covered])
  {
    hide ToMap, FilesOf, IdsIn;
    var alive := IdsIn(log[..j]);
    AliveIds(log, j);
    GapSurvives(log, j, covered, alive);
    forall i | 0 <= i < |log|
      ensures log[i].id in IdsIn(log[j..covered]) <==> i < covered && log[i].id !in alive
    {
      if j <= i < covered {
        assert log[j..covered][i - j].id in IdsIn(log[j..covered]);
      } else if log[i].id in IdsIn(log[j..covered]) {
        OutsideIds(log, i, j, covered);
        assert false;
      }
    }
    UnlinkedFiles(h, log, covered, alive, IdsIn(log[j..covered]));
  }

  lemma UnlinkNext(log: seq<Seg>, j: nat, covered: nat)
    requires j < covered <= |log|
    ensures IdsIn(log[j..covered]) == IdsIn(log[j + 1..covered]) + {log[j].id}
  {
    var all, rest := log[j..covered], log[j + 1..covered];
    forall id | id in IdsIn(all) ensures id in IdsIn(rest) || id == log[j].id {
      var i :| 0 <= i < |all| && all[i].id == id;
      assert i > 0 ==> rest[i - 1].id == id;
    }
    forall id | id in IdsIn(rest) ensures id in IdsIn(all) {
      var i :| 0 <= i < |rest| && rest[i].id == id;
      assert all[i + 1].id == id;
    }
    assert all[0].id in IdsIn(all);
  }

  /** After retirement the rest of the log is in order under the new authority, with the same frontier. */
  lemma RetiredOk(config: Config, c: nat, cut: nat, log: seq<Seg>, nextId: nat, covered: nat)
    requires LogOk(config, c, log, nextId) && c <= cut < FrontierOf(c, log) && CoveredBy(cut, log, covered)
    requires cut == 0 ==> covered == |log| || covered == 0
    ensures var rest := log[covered..];
            && LogOk(config, cut, rest, if cut == 0 && rest == [] then 1 else nextId)
            && FrontierOf(cut, rest) == FrontierOf(c, log)
            && Above(cut, LogRecs(rest)) == Above(cut, LogRecs(log))
  {
    hide Openable, NextSeq, LogRecs, Above;
    var rest := log[covered..];
    assert Survivors(log, covered, {}) == rest by { GapSurvives(log, 0, covered, {}); }
    SurvivorsDeliverTheSame(cut, log, covered, {});
    FrontierBound(config, c, log);
    OpenableConfig(config, c, log);
    if cut > 0 {
      SurvivorsOpenable(config, c, cut, log, covered, {});
    } else if covered > 0 {
      EmptyOpenable(config, 0, 0);
    }
  }

  function SumLens(metas: seq<Meta>): (r: nat) {
    if metas == [] then 0 else metas[0].len + SumLens(metas[1..])
  }

  lemma SumNext(metas: seq<Meta>, j: nat, covered: nat)
    requires j < covered <= |metas|
    ensures SumLens(metas[j..covered]) == metas[j].len + SumLens(metas[j + 1..covered])
  {
    assert metas[j..covered][1..] == metas[j + 1..covered];
  }

  /** Retiring a covered prefix removes exactly the lengths of its segments. */
  lemma {:induction false} RetiredBytes(h: Hasher, log: seq<Seg>, covered: nat)
    requires covered <= |log|
    ensures MetasOf(log)[covered..] == MetasOf(log[covered..])
    ensures TotalBytes(FilesOf(h, log)) == SumLens(MetasOf(log)[..covered]) + TotalBytes(FilesOf(h, log[covered..]))
    decreases |log|
  {
    hide Printed;
    if covered == 0 {
      assert log[0..] == log;
    } else {
      hide TotalBytes, FilesOf, MetasOf, SumLens;
      RetiredBytes(h, log[1..], covered - 1);
      assert log[1..][covered - 1..] == log[covered..];
      HeadMeta(log, covered);
      HeadBytes(h, log);
    }
  }

  lemma HeadMeta(log: seq<Seg>, covered: nat)
    requires 0 < covered <= |log|
    ensures MetasOf(log)[covered..] == MetasOf(log[1..])[covered - 1..]
    ensures SumLens(MetasOf(log)[..covered]) == MetaOf(log[0]).len + SumLens(MetasOf(log[1..])[..covered - 1])
  {
    hide MetaOf;
    assert MetasOf(log)[..covered][1..] == MetasOf(log[1..])[..covered - 1];
  }

  lemma {:induction false} HeadBytes(h: Hasher, log: seq<Seg>)
    requires log != []
    ensures TotalBytes(FilesOf(h, log)) == MetaOf(log[0]).len + TotalBytes(FilesOf(h, log[1..]))
  {
    hide Printed;
    BytesWithinReserve(h, log);
    var n := |log| - 1;
    if n == 0 {
      assert TotalBytes(FilesOf(h, log[..0])) == 0;
    } else {
      HeadBytes(h, log[..n]);
      BytesWithinReserve(h, log[1..]);
      assert log[..n][1..] == log[1..][..n - 1];
    }
  }

  /** A floor-zero retirement cut short leaves a prefix that ordinary open still accepts. */
  lemma {:induction false} PrefixOpenable(config: Config, c: nat, log: seq<Seg>, j: nat)
    requires Openable(config, c, log) && j <= |log|
    ensures Openable(config, c, log[..j])
  {
    hide Openable;
    if j < |log| {
      OpenableInit(config, c, log);
      PrefixOpenable(config, c, log[..|log| - 1], j);
      assert log[..|log| - 1][..j] == log[..j];
    } else {
      assert log[..j] == log;
    }
  }
}
