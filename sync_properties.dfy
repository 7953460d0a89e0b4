/** Properties of the mailbox synchroniser across its loop and across runs:
    what it plans to download, how it resumes after a failed download, and
    how it numbers messages. */
module SyncProperties {
  import opened Common
  import opened Backend

  /** The names a set of index lines knows. */
  function Known(lines: seq<string>): (s: set<string>)
    ensures forall l :: l in s <==> l in lines
  {
    set l | l in lines
  }

  /** No name occurs twice. */
  predicate Distinct(s: seq<string>)
  {
    forall i, j :: 0 <= i < j < |s| ==> s[i] != s[j]
  }

  lemma {:induction false} DistinctSnoc(s: seq<string>, x: string)
    requires Distinct(s) && x !in s
    ensures Distinct(s + [x])
  {
  }

  /** The names of two runs of keys, one after the other. */
  lemma {:induction false} NamesAppend(a: seq<string>, b: seq<string>)
    ensures Names(a + b) == Names(a) + Names(b)
  {
    var l := Names(a + b);
    var r := Names(a) + Names(b);
    forall i | 0 <= i < |a + b|
      ensures l[i] == r[i]
    {
      if i < |a| {
        assert (a + b)[i] == a[i];
      } else {
        assert (a + b)[i] == b[i - |a|];
      }
    }
  }

  /** Every planned key comes from the listing. */
  lemma {:induction false} PlanFromListing(keys: seq<string>, known: set<string>)
    ensures forall j :: 0 <= j < |Plan(keys, known)| ==> Plan(keys, known)[j] in keys
    decreases |keys|
  {
    if keys != [] {
      var init := keys[..|keys| - 1];
      PlanFromListing(init, known);
      assert forall x :: x in init ==> x in keys;
    }
  }

  /** No planned key has a name the index knows. */
  lemma {:induction false} PlanNew(keys: seq<string>, known: set<string>)
    ensures forall j :: 0 <= j < |Plan(keys, known)| ==> Base(Plan(keys, known)[j]) !in known
    decreases |keys|
  {
    if keys != [] {
      PlanNew(keys[..|keys| - 1], known);
    }
  }

  /** No two planned keys share a name, so no download overwrites another. */
  lemma {:induction false} PlanDistinct(keys: seq<string>, known: set<string>)
    ensures Distinct(Names(Plan(keys, known)))
    decreases |keys|
  {
    if keys != [] {
      var init := keys[..|keys| - 1];
      var key := keys[|keys| - 1];
      PlanDistinct(init, known);
      var p := Plan(init, known);
      if !(Base(key) in known || Base(key) in Names(p)) {
        assert Plan(keys, known) == p + [key];
        NamesSnoc(p, key);
        DistinctSnoc(Names(p), Base(key));
      } else {
        assert Plan(keys, known) == p;
      }
    }
  }

  /** Every listed key's name is either known beforehand or the name of a
      planned key. */
  lemma {:induction false} PlanCovers(keys: seq<string>, known: set<string>)
    ensures forall k :: k in keys ==> Base(k) in known || Base(k) in Names(Plan(keys, known))
    decreases |keys|
  {
    if keys != [] {
      var init := keys[..|keys| - 1];
      var key := keys[|keys| - 1];
      PlanCovers(init, known);
      var p := Plan(init, known);
      assert keys == init + [key];
      NamesSnoc(p, key);
      forall k | k in keys
        ensures Base(k) in known || Base(k) in Names(Plan(keys, known))
      {
        if k != key {
          assert k in init;
        }
      }
    }
  }

  /** Nothing is planned when every listed name is known. */
  lemma {:induction false} PlanAllKnown(keys: seq<string>, known: set<string>)
    requires forall k :: k in keys ==> Base(k) in known
    ensures Plan(keys, known) == []
    decreases |keys|
  {
    if keys != [] {
      var init := keys[..|keys| - 1];
      assert forall k :: k in init ==> k in keys;
      PlanAllKnown(init, known);
    }
  }

  /** A run that stopped after downloading the first n planned keys appended
      their names to the index; a second run with the same listing plans
      exactly the keys the first one did not reach. */
  lemma {:induction false} PlanResumes(keys: seq<string>, known: set<string>, n: nat)
    requires n <= |Plan(keys, known)|
    ensures var plan := Plan(keys, known);
            Plan(keys, known + Known(Names(plan[..n]))) == plan[n..]
    decreases |keys|
  {
    var plan := Plan(keys, known);
    var known' := known + Known(Names(plan[..n]));
    if n == |plan| {
      assert plan[..n] == plan;
      PlanCovers(keys, known);
      PlanAllKnown(keys, known');
    } else {
      var init := keys[..|keys| - 1];
      var key := keys[|keys| - 1];
      var p := Plan(init, known);
      PlanPrefix(keys, known, |keys| - 1);
      assert n <= |p| && plan[..n] == p[..n];
      PlanResumes(init, known, n);
      var rest := Plan(init, known');
      assert rest == p[n..];
      assert p == p[..n] + p[n..];
      NamesAppend(p[..n], p[n..]);
      if Base(key) in known || Base(key) in Names(p) {
        assert plan == p;
        assert Base(key) in known' || Base(key) in Names(rest);
        assert Plan(keys, known') == rest;
      } else {
        assert plan == p + [key];
        assert Base(key) !in known' && Base(key) !in Names(rest);
        assert Plan(keys, known') == rest + [key];
        SliceSnoc(p, key, n);
      }
    }
  }

  lemma {:induction false} SliceSnoc(p: seq<string>, key: string, n: nat)
    requires n <= |p|
    ensures (p + [key])[n..] == p[n..] + [key]
  {
  }

  /** The index lines after a run: the old ones followed by the downloaded
      names. */
  lemma {:induction false} AppendedLines(f: Option<seq<string>>, done: seq<string>)
    ensures IndexLines(Appended(f, done)) == IndexLines(f) + Names(done)
  {
    if done == [] {
      assert IndexLines(f) + [] == IndexLines(f);
    }
  }

  /** Running `DownloadEmails` again with the same listing after a run that
      downloaded the first n planned keys (all of them when it succeeded)
      downloads exactly the rest. */
  lemma {:induction false} RerunDownloadsRest(f: Option<seq<string>>, keys: seq<string>, n: nat)
    requires n <= |Plan(keys, Known(IndexLines(f)))|
    ensures var plan := Plan(keys, Known(IndexLines(f)));
            Plan(keys, Known(IndexLines(Appended(f, plan[..n])))) == plan[n..]
  {
    var plan := Plan(keys, Known(IndexLines(f)));
    AppendedLines(f, plan[..n]);
    PlanResumes(keys, Known(IndexLines(f)), n);
    assert Known(IndexLines(f) + Names(plan[..n])) == Known(IndexLines(f)) + Known(Names(plan[..n]));
  }

  // ---------------------------------------------------------------------
  // Numbering

  /** Each downloaded key's record in r holds its name, the number given to
      it (the start number plus its position among the downloads) and the
      sizes of its lines. */
  ghost predicate IdsRecorded(r: map<string, MailData>, done: seq<string>, fetch: string -> Fetch, start: int)
  {
    forall j :: 0 <= j < |done| ==>
      Base(done[j]) in r && r[Base(done[j])] == Record(Base(done[j]), start + j, Content(fetch(done[j])))
  }

  /** Records in r of names outside `done` are those of `metadata`. */
  ghost predicate OthersKept(r: map<string, MailData>, metadata: map<string, MailData>, done: seq<string>)
  {
    forall name :: name !in Names(done) ==>
      (name in r <==> name in metadata) && (name in metadata ==> r[name] == metadata[name])
  }

  /** Every downloaded key gets its own record with its number; records of
      other names are left as they were. */
  lemma {:induction false} RecordedIds(metadata: map<string, MailData>, done: seq<string>,
                                       fetch: string -> Fetch, start: int)
    requires Distinct(Names(done))
    ensures IdsRecorded(Recorded(metadata, done, fetch, start), done, fetch, start)
    ensures OthersKept(Recorded(metadata, done, fetch, start), metadata, done)
  {
    if done != [] {
      var n := |done| - 1;
      var init := done[..n];
      var key := done[n];
      assert done == init + [key];
      NamesSnoc(init, key);
      assert Names(init) == Names(done)[..n];
      RecordedIds(metadata, init, fetch, start);
      RecordedSnoc(metadata, init, key, fetch, start);
      forall j | 0 <= j < |init|
        ensures Base(init[j]) != Base(key)
      {
        assert Names(done)[j] == Base(init[j]) && Names(done)[n] == Base(key);
      }
      IdsStep(Recorded(metadata, init, fetch, start), metadata, init, key, fetch, start);
    }
  }

  /** Recording one more fresh name keeps both facts. */
  lemma {:induction false} IdsStep(r0: map<string, MailData>, metadata: map<string, MailData>, init: seq<string>,
                key: string, fetch: string -> Fetch, start: int)
    requires forall j :: 0 <= j < |init| ==> Base(init[j]) != Base(key)
    requires Base(key) !in Names(init)
    requires IdsRecorded(r0, init, fetch, start) && OthersKept(r0, metadata, init)
    ensures var r := r0[Base(key) := Record(Base(key), start + |init|, Content(fetch(key)))];
            IdsRecorded(r, init + [key], fetch, start) && OthersKept(r, metadata, init + [key])
  {
    var done := init + [key];
    var n := |init|;
    NamesSnoc(init, key);
    var b := Base(key);
    var r := r0[b := Record(b, start + n, Content(fetch(key)))];
    forall j | 0 <= j < |done|
      ensures Base(done[j]) in r && r[Base(done[j])] == Record(Base(done[j]), start + j, Content(fetch(done[j])))
    {
      if j < n {
        assert done[j] == init[j];
      }
    }
  }

  /** The j-th downloaded name lands on line |lines| + j of the index file.
      Its number is that line position when the index already had lines,
      but one more when the index was empty: the first run numbers from 1,
      while loading numbers the lines from 0. */
  lemma {:induction false} NumberAndLine(f: Option<seq<string>>, done: seq<string>, j: nat)
    requires j < |done|
    ensures var lines := IndexLines(f);
            && IndexLines(Appended(f, done))[|lines| + j] == Base(done[j])
            && StartID(|lines|) + j == |lines| + j + (if lines == [] then 1 else 0)
  {
    AppendedLines(f, done);
  }

  /** After a complete first run from an empty index that downloaded m
      messages, the last of them holds number m, and after the index is
      loaded again the next new message is also given number m. */
  lemma {:induction false} NumberReusedAfterReload(keys: seq<string>, fetch: string -> Fetch)
    requires var plan := Plan(keys, {});
             |plan| >= 1 && Downloads(plan, fetch) == |plan|
    ensures var plan := Plan(keys, {});
            var m := |plan|;
            var r := Recorded(map[], plan, fetch, StartID(0));
            var lines := IndexLines(Appended(None, plan));
            && |lines| == m && Base(plan[m - 1]) in r
            && r[Base(plan[m - 1])].id == m && StartID(|lines|) == m
  {
    var plan := Plan(keys, {});
    var m := |plan|;
    PlanDistinct(keys, {});
    RecordedIds(map[], plan, fetch, StartID(0));
    RecordSizes(Base(plan[m - 1]), m, Content(fetch(plan[m - 1])));
    AppendedLines(None, plan);
  }

  /** After a run that failed on the n-th planned key, the index holds the
      names downloaded before it but neither that key's name nor any later
      planned name. */
  lemma {:induction false} FailedNotIndexed(f: Option<seq<string>>, keys: seq<string>, n: nat)
    requires n < |Plan(keys, Known(IndexLines(f)))|
    ensures var plan := Plan(keys, Known(IndexLines(f)));
            var lines := IndexLines(Appended(f, plan[..n]));
            && (forall j :: 0 <= j < n ==> Base(plan[j]) in lines)
            && (forall j :: n <= j < |plan| ==> Base(plan[j]) !in lines)
  {
    var known := Known(IndexLines(f));
    var plan := Plan(keys, known);
    var lines := IndexLines(Appended(f, plan[..n]));
    AppendedLines(f, plan[..n]);
    PlanNew(keys, known);
    PlanDistinct(keys, known);
    forall j | 0 <= j < n
      ensures Base(plan[j]) in lines
    {
      InPrefixNames(plan, n, j);
    }
    forall j | n <= j < |plan|
      ensures Base(plan[j]) !in lines
    {
      NotInPrefixNames(plan, n, j);
    }
  }

  lemma {:induction false} InPrefixNames(plan: seq<string>, n: nat, j: nat)
    requires j < n <= |plan|
    ensures Base(plan[j]) in Names(plan[..n])
  {
    assert Names(plan[..n])[j] == Base(plan[..n][j]);
  }

  lemma {:induction false} NotInPrefixNames(plan: seq<string>, n: nat, j: nat)
    requires Distinct(Names(plan)) && n <= j < |plan|
    ensures Base(plan[j]) !in Names(plan[..n])
  {
    var names := Names(plan);
    NamesPrefix(plan, n);
    DistinctPrefix(names, n, j);
  }

  /** The names of a prefix of the keys are the prefix of their names. */
  lemma {:induction false} NamesPrefix(keys: seq<string>, n: nat)
    requires n <= |keys|
    ensures Names(keys[..n]) == Names(keys)[..n]
  {
    var a := Names(keys[..n]);
    var b := Names(keys)[..n];
    forall i | 0 <= i < n
      ensures a[i] == b[i]
    {
      assert keys[..n][i] == keys[i];
    }
  }

  lemma {:induction false} DistinctPrefix(s: seq<string>, n: nat, j: nat)
    requires Distinct(s) && n <= j < |s|
    ensures s[j] !in s[..n]
  {
  }

  /** After a complete run, a second run with the same listing plans nothing
      and so leaves the index file as it is. */
  lemma {:induction false} RerunAfterSuccess(f: Option<seq<string>>, keys: seq<string>)
    ensures var plan := Plan(keys, Known(IndexLines(f)));
            var f' := Appended(f, plan);
            Plan(keys, Known(IndexLines(f'))) == [] && Appended(f', []) == f'
  {
    var plan := Plan(keys, Known(IndexLines(f)));
    RerunDownloadsRest(f, keys, |plan|);
    assert plan[..|plan|] == plan;
  }
}
