/** The commit of marked deletions when a session quits (`deleteItems` in
    mailaccess.go), over an abstract file system. */
module Commit {
  import opened Common

  /** The files of the server's mail directories, by path, each as its lines. */
  class Disk {
    var files: map<string, seq<string>>

    constructor (files: map<string, seq<string>>)
      ensures this.files == files
    {
      this.files := files;
    }
  }

  /** The two files that hold a message: its metadata and its raw content. */
  function MessagePaths(emailDir: string, name: string): set<string>
  {
    {Join(emailDir, name) + ".json", Join(emailDir, name)}
  }

  /** Whether committing the positions `ids` removes the file at `path`. */
  ghost predicate Committed(emailDir: string, md: seq<MailData>, ids: set<int>, path: string)
  {
    exists id :: id in ids && 0 <= id < |md| && path in MessagePaths(emailDir, md[id].name)
  }

  /** The files removed by committing the positions in the given visiting order. */
  function RemovedBy(emailDir: string, md: seq<MailData>, order: seq<int>): set<string>
    requires forall i :: 0 <= i < |order| ==> 0 <= order[i] < |md|
  {
    if order == [] then {}
    else RemovedBy(emailDir, md, order[..|order| - 1]) + MessagePaths(emailDir, md[order[|order| - 1]].name)
  }

  lemma {:induction false} RemovedBySnoc(emailDir: string, md: seq<MailData>, order: seq<int>, id: int)
    requires forall i :: 0 <= i < |order| ==> 0 <= order[i] < |md|
    requires 0 <= id < |md|
    ensures RemovedBy(emailDir, md, order + [id])
            == RemovedBy(emailDir, md, order) + MessagePaths(emailDir, md[id].name)
  {
    assert (order + [id])[..|order|] == order;
  }

  /** Whatever the visiting order, the files removed are those of the visited set. */
  lemma {:induction false} RemovedByAnyOrder(emailDir: string, md: seq<MailData>, order: seq<int>, ids: set<int>)
    requires forall i :: 0 <= i < |order| ==> 0 <= order[i] < |md|
    requires forall id :: id in ids <==> id in order
    ensures forall p :: p in RemovedBy(emailDir, md, order) <==> Committed(emailDir, md, ids, p)
  {
    if order != [] {
      var last := order[|order| - 1];
      var init := order[..|order| - 1];
      var rest := ids - {last};
      if last in init {
        rest := ids;
      }
      assert forall id :: id in rest <==> id in init by {
        forall id ensures id in rest <==> id in init {
          if id != last { assert id in order ==> id in init || id == last; }
        }
      }
      RemovedByAnyOrder(emailDir, md, init, rest);
      forall p ensures p in RemovedBy(emailDir, md, order) <==> Committed(emailDir, md, ids, p) {
        if Committed(emailDir, md, ids, p) {
          var id :| id in ids && 0 <= id < |md| && p in MessagePaths(emailDir, md[id].name);
          if id != last {
            assert Committed(emailDir, md, rest, p);
          }
        }
        if p in RemovedBy(emailDir, md, init) {
          assert Committed(emailDir, md, rest, p);
          var id :| id in rest && 0 <= id < |md| && p in MessagePaths(emailDir, md[id].name);
          assert id in ids;
        }
      }
    }
  }

  /** `deleteItems`: visits the marked positions once each, in an unspecified
      order (Go's map iteration), removes `<name>.json` and `<name>` of each,
      and counts a success when the `.json` removal succeeds. A failure does
      not stop the loop. A marked position outside the snapshot makes the
      index expression panic, leaving the removals done so far. */
  method DeleteItems(emailDir: string, md: seq<MailData>, deleted: set<int>, disk: Disk)
    returns (succeeded: nat, failed: nat, panicked: bool, ghost order: seq<int>)
    modifies disk
    ensures panicked <==> exists id :: id in deleted && !(0 <= id < |md|)
    ensures !panicked ==> |order| == |deleted| && forall id :: id in order <==> id in deleted
    ensures !panicked ==> succeeded + failed == |deleted|
    ensures !panicked ==> forall p :: p in disk.files <==> p in old(disk.files) && !Committed(emailDir, md, deleted, p)
    ensures panicked ==> disk.files.Keys <= old(disk.files.Keys)
    ensures forall p :: p in disk.files ==> p in old(disk.files) && disk.files[p] == old(disk.files)[p]
  {
    succeeded, failed, panicked := 0, 0, false;
    var remaining := deleted;
    order := [];
    while remaining != {}
      invariant remaining <= deleted
      invariant forall id :: id in deleted ==> (id in remaining <==> id !in order)
      invariant forall i :: 0 <= i < |order| ==> order[i] in deleted && 0 <= order[i] < |md|
      invariant forall i, j :: 0 <= i < j < |order| ==> order[i] != order[j]
      invariant disk.files == old(disk.files) - RemovedBy(emailDir, md, order)
      invariant succeeded + failed == |order|
      decreases remaining
    {
      var id := Pick(remaining);
      if !(0 <= id < |md|) {
        panicked := true;
        return;
      }
      var ok := RemoveMessage(emailDir, md[id].name, disk);
      if ok {
        succeeded := succeeded + 1;
      } else {
        failed := failed + 1;
      }
      RemovedBySnoc(emailDir, md, order, id);
      assert disk.files == old(disk.files) - RemovedBy(emailDir, md, order + [id]);
      order := order + [id];
      remaining := remaining - {id};
    }
    DistinctCount(order, deleted);
    RemovedByAnyOrder(emailDir, md, order, deleted);
  }

  /** Removes `<name>.json` and then `<name>` from the directory; the result
      is whether the first removal found its file. */
  method RemoveMessage(emailDir: string, name: string, disk: Disk) returns (ok: bool)
    modifies disk
    ensures ok <==> Join(emailDir, name) + ".json" in old(disk.files)
    ensures disk.files == old(disk.files) - MessagePaths(emailDir, name)
  {
    var filename := Join(emailDir, name);
    ok := filename + ".json" in disk.files;
    disk.files := disk.files - {filename + ".json"};
    disk.files := disk.files - {filename};
  }

  /** A duplicate-free listing of a set has as many entries as the set. */
  lemma {:induction false} DistinctCount(order: seq<int>, s: set<int>)
    requires forall i, j :: 0 <= i < j < |order| ==> order[i] != order[j]
    requires forall x :: x in s <==> x in order
    ensures |order| == |s|
  {
    if order == [] {
      forall x ensures x !in s {
        assert x !in order;
      }
      assert s == {};
    } else {
      var last := order[|order| - 1];
      var init := order[..|order| - 1];
      assert last in s;
      assert forall x :: x in s - {last} <==> x in init;
      DistinctCount(init, s - {last});
      assert |s - {last}| == |s| - 1;
    }
  }
}
