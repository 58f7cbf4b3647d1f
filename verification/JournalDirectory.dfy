/** A journal directory as a mutable map from segment ID to file bytes, with failing I/O. */
module JournalDirectory {
  import opened Bytes
  import opened JournalFormat
  import opened JournalOpen
  import opened JournalLog
  import opened JournalCrash

  function Ids(files: seq<File>): (r: set<nat>) {
    if files == [] then {} else Ids(files[..|files| - 1]) + {files[|files| - 1].id}
  }

  function ToMap(files: seq<File>): (r: map<nat, seq<Byte>>)
    ensures r.Keys == Ids(files)
  {
    if files == [] then map[]
    else ToMap(files[..|files| - 1])[files[|files| - 1].id := files[|files| - 1].bytes]
  }

  predicate IsMax(k: nat, keys: set<nat>) {
    k in keys && forall other :: other in keys ==> other <= k
  }

  function MaxKey(keys: set<nat>): (r: nat)
    requires keys != {}
    ensures IsMax(r, keys)
  {
    MaxExists(keys);
    var k :| IsMax(k, keys);
    k
  }

  lemma {:induction false} MaxExists(keys: set<nat>)
    requires keys != {}
    ensures exists k :: IsMax(k, keys)
  {
    var x :| x in keys;
    var rest := keys - {x};
    assert keys == rest + {x};
    if rest == {} {
      assert IsMax(x, keys);
    } else {
      MaxExists(rest);
      var m :| IsMax(m, rest);
      assert IsMax(if x > m then x else m, keys);
    }
  }

  /** The directory listing sorted by segment ID. */
  function Listing(files: map<nat, seq<Byte>>): (r: seq<File>)
    decreases |files|
  {
    if files == map[] then []
    else
      var top := MaxKey(files.Keys);
      assert files.Keys == (files - {top}).Keys + {top};
      Listing(files - {top}) + [File(top, files[top])]
  }

  predicate Ascending(files: seq<File>) {
    files != [] ==>
      var n := |files| - 1;
      Ascending(files[..n]) && forall id :: id in Ids(files[..n]) ==> id < files[n].id
  }

  /** Sorting a directory of ascending files gives back the files. */
  lemma {:induction false} ListingOfMap(files: seq<File>)
    requires Ascending(files)
    ensures Listing(ToMap(files)) == files
  {
    if files != [] {
      var n := |files| - 1;
      ListingOfMap(files[..n]);
      var m := ToMap(files);
      TopFile(files);
      assert m - {files[n].id} == ToMap(files[..n]);
    }
  }

  lemma TopFile(files: seq<File>)
    requires Ascending(files) && files != []
    ensures MaxKey(ToMap(files).Keys) == files[|files| - 1].id
    ensures files[|files| - 1].id !in ToMap(files[..|files| - 1])
  {
    var top := MaxKey(ToMap(files).Keys);
    assert files[|files| - 1].id in ToMap(files).Keys;
  }

  lemma {:induction false} FilesAscend(h: Hasher, log: seq<Seg>)
    requires IdsAscend(log)
    ensures Ascending(FilesOf(h, log))
    ensures forall id :: id in Ids(FilesOf(h, log)) ==> log != [] && id <= log[|log| - 1].id
  {
    hide Printed;
    if log != [] {
      var n := |log| - 1;
      FilesAscend(h, log[..n]);
      assert FilesOf(h, log)[..n] == FilesOf(h, log[..n]);
    }
  }

  /** The last file of a log, in the directory map. */
  lemma LastFile(h: Hasher, log: seq<Seg>, bytes: seq<Byte>)
    requires |log| > 0
    ensures var n := |log| - 1;
            var m := ToMap(FilesOf(h, log));
            && log[n].id in m && m[log[n].id] == Printed(h, log[n])
            && m[log[n].id := bytes] == ToMap(FilesOf(h, log)[n := File(log[n].id, bytes)])
  {
    hide Printed;
    var n := |log| - 1;
    var files := FilesOf(h, log);
    assert files[n := File(log[n].id, bytes)][..n] == files[..n];
  }

  /** Unlinking covered files leaves the files of the surviving segments. */
  lemma {:induction false} UnlinkedFiles(h: Hasher, log: seq<Seg>, covered: nat, alive: set<nat>, gone: set<nat>)
    requires IdsAscend(log)
    requires forall i :: 0 <= i < |log| ==> (log[i].id in gone <==> i < covered && log[i].id !in alive)
    ensures ToMap(FilesOf(h, Survivors(log, covered, alive))) == ToMap(FilesOf(h, log)) - gone
  {
    hide Printed, ToMap, FilesOf;
    if log == [] {
      NoFiles(h);
    } else {
      var n := |log| - 1;
      UnlinkedFiles(h, log[..n], covered, alive, gone);
      var kept := Survivors(log[..n], covered, alive);
      SnocFile(h, log[..n], log[n]);
      assert log == log[..n] + [log[n]];
      if n >= covered || log[n].id in alive {
        SnocFile(h, kept, log[n]);
        KeepKey(ToMap(FilesOf(h, log[..n])), log[n].id, Printed(h, log[n]), gone);
      } else {
        FilesAscend(h, log[..n]);
        assert kept + [] == kept;
        DropKey(ToMap(FilesOf(h, log[..n])), log[n].id, Printed(h, log[n]), gone);
      }
    }
  }

  lemma NoFiles(h: Hasher)
    ensures ToMap(FilesOf(h, [])) == map[]
  {
  }

  lemma SnocFile(h: Hasher, log: seq<Seg>, seg: Seg)
    ensures ToMap(FilesOf(h, log + [seg])) == ToMap(FilesOf(h, log))[seg.id := Printed(h, seg)]
  {
    hide Printed;
    assert FilesOf(h, log + [seg])[..|log|] == FilesOf(h, log);
  }

  lemma KeepKey<V>(m: map<nat, V>, id: nat, v: V, gone: set<nat>)
    requires id !in gone
    ensures m[id := v] - gone == (m - gone)[id := v]
  {
  }

  lemma DropKey<V>(m: map<nat, V>, id: nat, v: V, gone: set<nat>)
    requires id in gone
    ensures m[id := v] - gone == m - gone
  {
  }

  datatype Credit = Failed | Left(units: nat)

  /** Files by segment ID. Every operation may fail once its I/O credit runs out. */
  class Directory {
    var files: map<nat, seq<Byte>>

    constructor ()
      ensures files == map[]
    {
      files := map[];
    }

    /** Append and sync. A failure leaves an arbitrary prefix of the chunk behind. */
    method Write(id: nat, chunk: seq<Byte>, credit: nat) returns (left: Credit)
      requires id in files
      modifies this
      ensures credit > |chunk| ==>
        left == Left(credit - |chunk| - 1) && files == old(files)[id := old(files)[id] + chunk]
      ensures credit <= |chunk| ==> left == Failed && files == old(files)[id := old(files)[id] + chunk[..credit]]
    {
      if credit > |chunk| {
        files := files[id := files[id] + chunk];
        return Left(credit - |chunk| - 1);
      }
      files := files[id := files[id] + chunk[..credit]];
      left := Failed;
    }

    /** Exclusive creation of an empty file. */
    method Create(id: nat, credit: nat) returns (left: Credit)
      requires id !in files
      modifies this
      ensures credit > 0 ==> left == Left(credit - 1) && files == old(files)[id := []]
      ensures credit == 0 ==> left == Failed && files == old(files)
    {
      if credit == 0 {
        return Failed;
      }
      files := files[id := []];
      left := Left(credit - 1);
    }

    method Unlink(id: nat, credit: nat) returns (left: Credit)
      modifies this
      ensures credit > 0 ==> left == Left(credit - 1) && files == old(files) - {id}
      ensures credit == 0 ==> left == Failed && files == old(files)
    {
      if credit == 0 {
        return Failed;
      }
      files := files - {id};
      left := Left(credit - 1);
    }
  }
}
