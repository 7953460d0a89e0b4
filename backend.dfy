/** The mailbox synchroniser (backend/backend.go): the per-user index of
    every message name ever seen, the numbering of new messages, and the
    download of new objects from the bucket listing into the user's mail
    directory with a metadata record for each. */
module Backend {
  import opened Common

  /** The name of the index file inside a user's mail directory. */
  const IndexFileName: string := "_email_index.txt"

  /** An index record: a message number and the message's file name. */
  datatype MailFile = MailFile(index: int, filename: string)

  /** A user's mail directory as the synchroniser sees it: the lines of the
      index file (None while it does not exist), the downloaded raw messages
      by file name, each as its lines, and the saved metadata records by
      message name. */
  class MailDir {
    var indexFile: Option<seq<string>>
    var messages: map<string, seq<string>>
    var metadata: map<string, MailData>

    constructor (indexFile: Option<seq<string>>, messages: map<string, seq<string>>, metadata: map<string, MailData>)
      ensures this.indexFile == indexFile && this.messages == messages && this.metadata == metadata
    {
      this.indexFile := indexFile;
      this.messages := messages;
      this.metadata := metadata;
    }
  }

  /** The lines of the index file; a missing file has none. */
  function IndexLines(f: Option<seq<string>>): seq<string>
  {
    if f.None? then [] else f.value
  }

  // ---------------------------------------------------------------------
  // loadIndex

  /** `filesByIndex` after loading: line i is record (i, line) under key i. */
  function ByIndexOf(lines: seq<string>): (m: map<int, MailFile>)
    ensures forall k :: k in m <==> 0 <= k < |lines|
  {
    map i | 0 <= i < |lines| :: MailFile(i, lines[i])
  }

  /** `filesByName` after loading: each line's record under the line; a name
      listed twice keeps its last record. */
  function ByNameOf(lines: seq<string>): (m: map<string, MailFile>)
    ensures NamesLastLine(m, lines)
  {
    if lines == [] then map[]
    else
      var n := |lines| - 1;
      var m := ByNameOf(lines[..n]);
      NamesLastLineSnoc(m, lines);
      m[lines[n] := MailFile(n, lines[n])]
  }

  /** `m` files exactly the names of `lines`, each under the record of its
      last line. */
  ghost predicate NamesLastLine(m: map<string, MailFile>, lines: seq<string>)
  {
    && (forall name :: name in m <==> name in lines)
    && forall name :: name in m ==>
         && m[name].filename == name && 0 <= m[name].index < |lines| && lines[m[name].index] == name
         && forall j :: m[name].index < j < |lines| ==> lines[j] != name
  }

  lemma {:induction false} NamesLastLineSnoc(m: map<string, MailFile>, lines: seq<string>)
    requires lines != [] && NamesLastLine(m, lines[..|lines| - 1])
    ensures var n := |lines| - 1;
            NamesLastLine(m[lines[n] := MailFile(n, lines[n])], lines)
  {
    var n := |lines| - 1;
    assert lines == lines[..n] + [lines[n]];
  }

  /** The message numbers and names of the index. */
  class Index {
    var byIndex: map<int, MailFile>
    var byName: map<string, MailFile>

    constructor ()
      ensures byIndex == map[] && byName == map[]
    {
      byIndex := map[];
      byName := map[];
    }

    /** `appendIndex`: appends the name as a new line of the index file
        (creating the file when missing) and files one record under the next
        number and under the name. Nothing else changes. */
    method Append(name: string, dir: MailDir) returns (ghost id: int)
      modifies this, dir
      ensures dir.indexFile == Some(IndexLines(old(dir.indexFile)) + [name])
      ensures dir.messages == old(dir.messages) && dir.metadata == old(dir.metadata)
      ensures IsNextID(old(byIndex), id)
      ensures byIndex == old(byIndex)[id := MailFile(id, name)]
      ensures byName == old(byName)[name := MailFile(id, name)]
    {
      dir.indexFile := Some(IndexLines(dir.indexFile) + [name]);
      var newID := GetNextID(byIndex);
      var thisFile := MailFile(newID, name);
      byIndex := byIndex[newID := thisFile];
      byName := byName[name := thisFile];
      id := newID;
    }
  }

  /** `loadIndex`: reads the index file line by line; a missing file gives
      two empty maps. */
  method LoadIndex(dir: MailDir) returns (idx: Index)
    ensures fresh(idx)
    ensures idx.byIndex == ByIndexOf(IndexLines(dir.indexFile))
    ensures idx.byName == ByNameOf(IndexLines(dir.indexFile))
  {
    idx := new Index();
    if dir.indexFile.None? {
      return;
    }
    var lines := dir.indexFile.value;
    var currentIndex := 0;
    while currentIndex < |lines|
      invariant 0 <= currentIndex <= |lines|
      invariant idx.byIndex == ByIndexOf(lines[..currentIndex])
      invariant idx.byName == ByNameOf(lines[..currentIndex])
    {
      var thisFile := MailFile(currentIndex, lines[currentIndex]);
      idx.byIndex := idx.byIndex[currentIndex := thisFile];
      idx.byName := idx.byName[lines[currentIndex] := thisFile];
      LoadStep(lines, currentIndex);
      currentIndex := currentIndex + 1;
    }
    assert lines[..currentIndex] == lines;
  }

  /** Loading one more line files its record under its number and its name. */
  lemma {:induction false} LoadStep(lines: seq<string>, k: nat)
    requires k < |lines|
    ensures ByIndexOf(lines[..k + 1]) == ByIndexOf(lines[..k])[k := MailFile(k, lines[k])]
    ensures ByNameOf(lines[..k + 1]) == ByNameOf(lines[..k])[lines[k] := MailFile(k, lines[k])]
  {
    assert lines[..k + 1][..k] == lines[..k];
  }

  // ---------------------------------------------------------------------
  // getNextID

  /** The number `getNextID` gives: one more than the largest key, and 1
      when no key is positive. */
  predicate IsNextID(m: map<int, MailFile>, id: int)
  {
    id >= 1 && (forall k :: k in m ==> k < id) && (id == 1 || id - 1 in m)
  }

  /** `getNextID`: the largest key, starting from 0, plus one. */
  method GetNextID(filesByIndex: map<int, MailFile>) returns (id: int)
    ensures IsNextID(filesByIndex, id)
  {
    var res := 0;
    var remaining := filesByIndex.Keys;
    while remaining != {}
      invariant remaining <= filesByIndex.Keys
      invariant res >= 0 && (res == 0 || res in filesByIndex)
      invariant forall k :: k in filesByIndex && k !in remaining ==> k <= res
      decreases remaining
    {
      var key := Pick(remaining);
      if key > res {
        res := key;
      }
      remaining := remaining - {key};
    }
    id := res + 1;
  }

  /** The next number is determined by the keys. */
  lemma {:induction false} NextIDUnique(m: map<int, MailFile>, a: int, b: int)
    requires IsNextID(m, a) && IsNextID(m, b)
    ensures a == b
  {
  }

  /** The first number given out after loading an index of `count` lines:
      `count`, but 1 when the index is empty. */
  function StartID(count: nat): int
  {
    if count == 0 then 1 else count
  }

  /** After loading, and after j numbers were given out since, the next number
      is the start number plus j. */
  lemma {:induction false} NextAfterLoad(m: map<int, MailFile>, count: nat, j: nat, id: int)
    requires forall k :: k in m <==> 0 <= k < count || StartID(count) <= k < StartID(count) + j
    requires IsNextID(m, id)
    ensures id == StartID(count) + j
  {
    var start := StartID(count);
    if j > 0 {
      assert start + j - 1 in m;
    } else if count > 0 {
      assert count - 1 in m;
    }
  }

  // ---------------------------------------------------------------------
  // splitEmail, calcPartSizeBytes, processEmail

  /** `splitEmail`: the lines before the first empty line are the headers;
      that line and everything after it are the body. */
  method SplitEmail(lines: seq<string>) returns (headers: seq<string>, body: seq<string>)
    ensures headers + body == lines
    ensures forall i :: 0 <= i < |headers| ==> headers[i] != ""
    ensures body == [] || body[0] == ""
  {
    headers, body := [], [];
    var inHeaders := true;
    var k := 0;
    while k < |lines|
      invariant 0 <= k <= |lines|
      invariant headers + body == lines[..k]
      invariant forall i :: 0 <= i < |headers| ==> headers[i] != ""
      invariant inHeaders <==> body == []
      invariant body == [] || body[0] == ""
    {
      var line := lines[k];
      if line == "" {
        if inHeaders {
          inHeaders := false;
        }
      }
      if inHeaders {
        headers := headers + [line];
      } else {
        body := body + [line];
      }
      assert lines[..k + 1] == lines[..k] + [line];
      k := k + 1;
    }
    assert lines[..k] == lines;
  }

  /** The position of the first empty line, or the number of lines. */
  function FirstEmpty(lines: seq<string>): (i: nat)
    ensures i <= |lines|
    ensures forall j :: 0 <= j < i ==> lines[j] != ""
    ensures i < |lines| ==> lines[i] == ""
  {
    if lines == [] || lines[0] == "" then 0 else 1 + FirstEmpty(lines[1..])
  }

  /** The split is unique: any headers and body with the properties that
      `SplitEmail` ensures cut the lines at the first empty line. */
  lemma {:induction false} SplitUnique(lines: seq<string>, headers: seq<string>, body: seq<string>)
    requires headers + body == lines
    requires forall i :: 0 <= i < |headers| ==> headers[i] != ""
    requires body == [] || body[0] == ""
    ensures headers == lines[..FirstEmpty(lines)] && body == lines[FirstEmpty(lines)..]
  {
    assert lines[..|headers|] == headers;
  }

  /** The number of bytes a part occupies on the wire: each line and its CRLF. */
  function PartSize(part: seq<string>): nat
  {
    if part == [] then 0 else PartSize(part[..|part| - 1]) + |part[|part| - 1]| + 2
  }

  /** `calcPartSizeBytes`. */
  method CalcPartSizeBytes(part: seq<string>) returns (sum: nat)
    ensures sum == PartSize(part)
  {
    sum := 0;
    var k := 0;
    while k < |part|
      invariant 0 <= k <= |part|
      invariant sum == PartSize(part[..k])
    {
      assert part[..k + 1][..k] == part[..k];
      sum := sum + |part[k]| + 2;
      k := k + 1;
    }
    assert part[..k] == part;
  }

  /** Sizes add up over concatenation. */
  lemma {:induction false} PartSizeAppend(a: seq<string>, b: seq<string>)
    ensures PartSize(a + b) == PartSize(a) + PartSize(b)
  {
    if b != [] {
      var n := |b| - 1;
      assert (a + b)[..|a + b| - 1] == a + b[..n];
      PartSizeAppend(a, b[..n]);
    } else {
      assert a + b == a;
    }
  }

  /** The metadata record `processEmail` saves for a message. */
  function Record(name: string, id: int, lines: seq<string>): MailData
  {
    var f := FirstEmpty(lines);
    var headerSize := PartSize(lines[..f]);
    var bodySize := PartSize(lines[f..]);
    MailData(id, headerSize, bodySize, headerSize + bodySize, false, name)
  }

  /** The total size of a record is the size of the whole message, and the
      header size counts exactly the lines before the first empty line. */
  lemma {:induction false} RecordSizes(name: string, id: int, lines: seq<string>)
    ensures Record(name, id, lines).totalSize == PartSize(lines)
    ensures Record(name, id, lines).headerSize + Record(name, id, lines).messageSize == PartSize(lines)
    ensures Record(name, id, lines).id == id && Record(name, id, lines).name == name && !Record(name, id, lines).read
  {
    var f := FirstEmpty(lines);
    PartSizeAppend(lines[..f], lines[f..]);
    assert lines[..f] + lines[f..] == lines;
  }

  /** `processEmail`: splits the downloaded message and saves its record as
      `<name>.json`. */
  method ProcessEmail(dir: MailDir, filename: string, id: int)
    requires filename in dir.messages
    modifies dir
    ensures dir.metadata == old(dir.metadata)[filename := Record(filename, id, old(dir.messages)[filename])]
    ensures dir.indexFile == old(dir.indexFile) && dir.messages == old(dir.messages)
  {
    var lines := dir.messages[filename];
    var headers, body := SplitEmail(lines);
    SplitUnique(lines, headers, body);
    var headerSize := CalcPartSizeBytes(headers);
    var bodySize := CalcPartSizeBytes(body);
    var metadata := MailData(id, headerSize, bodySize, headerSize + bodySize, false, filename);
    dir.metadata := dir.metadata[filename := metadata];
  }

  // ---------------------------------------------------------------------
  // DownloadEmails

  /** The bucket listing under the user's prefix, or the error of creating
      the S3 session or of listing. */
  datatype Listing = ListFailed(err: string) | Listed(keys: seq<string>)

  /** The outcome of downloading one object: its lines, or the error. */
  datatype Fetch = Fetched(lines: seq<string>) | FetchFailed(err: string)

  /** The message names of the given keys. */
  function Names(keys: seq<string>): (names: seq<string>)
    ensures |names| == |keys| && forall i :: 0 <= i < |keys| ==> names[i] == Base(keys[i])
  {
    if keys == [] then [] else Names(keys[..|keys| - 1]) + [Base(keys[|keys| - 1])]
  }

  /** The keys the synchroniser downloads, in listing order: each key whose
      name is neither known beforehand nor the name of a key chosen before it. */
  function Plan(keys: seq<string>, known: set<string>): seq<string>
  {
    if keys == [] then []
    else
      var p := Plan(keys[..|keys| - 1], known);
      var key := keys[|keys| - 1];
      if Base(key) in known || Base(key) in Names(p) then p else p + [key]
  }

  /** The number of leading keys of the plan whose download succeeds. */
  function Downloads(plan: seq<string>, fetch: string -> Fetch): (n: nat)
    ensures n <= |plan|
    ensures forall j :: 0 <= j < n ==> fetch(plan[j]).Fetched?
    ensures n < |plan| ==> fetch(plan[n]).FetchFailed?
  {
    if plan == [] || fetch(plan[0]).FetchFailed? then 0 else 1 + Downloads(plan[1..], fetch)
  }

  /** The lines of a download: none when it failed. */
  function Content(x: Fetch): seq<string>
  {
    if x.Fetched? then x.lines else []
  }

  /** The message files after downloading the given keys in order. */
  function Stored(messages: map<string, seq<string>>, done: seq<string>, fetch: string -> Fetch): map<string, seq<string>>
  {
    if done == [] then messages
    else
      var key := done[|done| - 1];
      Stored(messages, done[..|done| - 1], fetch)[Base(key) := Content(fetch(key))]
  }

  /** The metadata records after processing the given keys in order, numbered
      from `start`. */
  function Recorded(metadata: map<string, MailData>, done: seq<string>, fetch: string -> Fetch, start: int)
    : map<string, MailData>
  {
    if done == [] then metadata
    else
      var key := done[|done| - 1];
      Recorded(metadata, done[..|done| - 1], fetch, start)[Base(key) := Record(Base(key), start + |done| - 1, Content(fetch(key)))]
  }

  /** The index file after appending the names of the given keys: unchanged
      (and possibly still missing) when there are none. */
  function Appended(indexFile: Option<seq<string>>, done: seq<string>): Option<seq<string>>
  {
    if done == [] then indexFile else Some(IndexLines(indexFile) + Names(done))
  }

  /** `DownloadEmails`: lists the user's objects and, for each listed key
      whose name the index does not know, takes the next number, downloads
      the object, saves its metadata record under that number and appends the
      name to the index. The first failed download ends the call with its
      error; the keys handled before it stay downloaded and indexed. */
  method DownloadEmails(listing: Listing, fetch: string -> Fetch, dir: MailDir) returns (err: Option<string>)
    modifies dir
    ensures listing.ListFailed? ==>
              err == Some(listing.err) && dir.indexFile == old(dir.indexFile)
              && dir.messages == old(dir.messages) && dir.metadata == old(dir.metadata)
    ensures listing.Listed? ==>
              var lines := IndexLines(old(dir.indexFile));
              var plan := Plan(listing.keys, set l | l in lines);
              var n := Downloads(plan, fetch);
              && err == (if n < |plan| then Some(fetch(plan[n]).err) else None)
              && dir.indexFile == Appended(old(dir.indexFile), plan[..n])
              && dir.messages == Stored(old(dir.messages), plan[..n], fetch)
              && dir.metadata == Recorded(old(dir.metadata), plan[..n], fetch, StartID(|lines|))
  {
    match listing
    case ListFailed(e) =>
      return Some(e);
    case Listed(keys) =>
      var idx := LoadIndex(dir);
      ghost var lines := IndexLines(dir.indexFile);
      err := SyncKeys(keys, fetch, idx, dir, set l | l in lines, |lines|);
  }

  /** The state of the loop of `DownloadEmails` once the keys of `done` were
      downloaded, given the index's names `known` and line count `count` at
      load time and the directory's index file, messages and records then. */
  ghost predicate Synced(idx: Index, dir: MailDir, done: seq<string>, fetch: string -> Fetch,
                         known: set<string>, count: nat, indexFile: Option<seq<string>>,
                         messages: map<string, seq<string>>, metadata: map<string, MailData>)
    reads idx, dir
  {
    && (forall j :: 0 <= j < |done| ==> fetch(done[j]).Fetched?)
    && IndexSynced(idx.byIndex, idx.byName, done, known, count)
    && FilesSynced(dir.indexFile, dir.messages, dir.metadata, done, fetch, StartID(count), indexFile, messages, metadata)
  }

  /** The index maps once the keys of `done` were taken. */
  ghost predicate IndexSynced(byIndex: map<int, MailFile>, byName: map<string, MailFile>, done: seq<string>,
                              known: set<string>, count: nat)
  {
    && (forall name :: name in byName <==> name in known || name in Names(done))
    && (forall k :: k in byIndex <==> 0 <= k < count || StartID(count) <= k < StartID(count) + |done|)
  }

  /** The directory's files once the keys of `done` were downloaded. */
  ghost predicate FilesSynced(f: Option<seq<string>>, m: map<string, seq<string>>, r: map<string, MailData>,
                              done: seq<string>, fetch: string -> Fetch, start: int,
                              indexFile: Option<seq<string>>, messages: map<string, seq<string>>,
                              metadata: map<string, MailData>)
  {
    && f == Appended(indexFile, done)
    && m == Stored(messages, done, fetch)
    && r == Recorded(metadata, done, fetch, start)
  }

  /** The loop of `DownloadEmails` over the listed keys, given the loaded
      index: `known` are the names it holds and `count` its number of lines. */
  method SyncKeys(keys: seq<string>, fetch: string -> Fetch, idx: Index, dir: MailDir,
                  ghost known: set<string>, ghost count: nat)
    returns (err: Option<string>)
    requires forall k :: k in idx.byIndex <==> 0 <= k < count
    requires forall name :: name in idx.byName <==> name in known
    modifies idx, dir
    ensures var plan := Plan(keys, known);
            var n := Downloads(plan, fetch);
            && err == (if n < |plan| then Some(fetch(plan[n]).err) else None)
            && dir.indexFile == Appended(old(dir.indexFile), plan[..n])
            && dir.messages == Stored(old(dir.messages), plan[..n], fetch)
            && dir.metadata == Recorded(old(dir.metadata), plan[..n], fetch, StartID(count))
  {
    var i := 0;
    while i < |keys|
      invariant 0 <= i <= |keys|
      invariant Synced(idx, dir, Plan(keys[..i], known), fetch, known, count,
                       old(dir.indexFile), old(dir.messages), old(dir.metadata))
    {
      var stop := Visit(keys, i, fetch, idx, dir, known, count,
                        old(dir.indexFile), old(dir.messages), old(dir.metadata));
      if stop.Some? {
        return stop;
      }
      i := i + 1;
    }
    assert keys[..i] == keys;
    PlanCompletes(Plan(keys, known), fetch);
    err := None;
  }

  /** One pass of the loop: the i-th listed key is skipped when its name is
      known, and otherwise downloaded and taken; a failed download stops the
      loop with its error. */
  method Visit(keys: seq<string>, i: nat, fetch: string -> Fetch, idx: Index, dir: MailDir,
               ghost known: set<string>, ghost count: nat, ghost indexFile: Option<seq<string>>,
               ghost messages: map<string, seq<string>>, ghost metadata: map<string, MailData>)
    returns (stop: Option<string>)
    requires i < |keys|
    requires Synced(idx, dir, Plan(keys[..i], known), fetch, known, count, indexFile, messages, metadata)
    modifies idx, dir
    ensures stop.None? ==>
              Synced(idx, dir, Plan(keys[..i + 1], known), fetch, known, count, indexFile, messages, metadata)
    ensures stop.Some? ==>
              var plan := Plan(keys, known);
              var n := Downloads(plan, fetch);
              && n < |plan| && stop == Some(fetch(plan[n]).err)
              && Synced(idx, dir, plan[..n], fetch, known, count, indexFile, messages, metadata)
  {
    ghost var done := Plan(keys[..i], known);
    var key := keys[i];
    var emailId := Base(key);
    PlanStep(keys, known, i);
    if emailId in idx.byName {
      assert Plan(keys[..i + 1], known) == done;
      return None;
    }
    assert Plan(keys[..i + 1], known) == done + [key];
    var nextPopId := GetNextID(idx.byIndex);
    NextAfterLoad(idx.byIndex, count, |done|, nextPopId);
    match fetch(key)
    case FetchFailed(e) =>
      PlanStops(keys, known, i, fetch);
      return Some(e);
    case Fetched(content) =>
      ghost var byIndex, byName := idx.byIndex, idx.byName;
      ghost var f, m, r := dir.indexFile, dir.messages, dir.metadata;
      Take(key, content, nextPopId, idx, dir);
      FilesStep(f, m, r, done, key, content, nextPopId, fetch, StartID(count), indexFile, messages, metadata);
      IndexStep(byIndex, byName, done, key, known, count, nextPopId);
      FetchedSnoc(done, key, fetch);
      return None;
  }

  /** One key whose name is new and whose download succeeded: its message is
      stored, its record saved under the next number and its name appended
      to the index under that same number. Nothing else changes. */
  method Take(key: string, content: seq<string>, nextPopId: int, idx: Index, dir: MailDir)
    requires IsNextID(idx.byIndex, nextPopId)
    modifies idx, dir
    ensures dir.indexFile == Some(IndexLines(old(dir.indexFile)) + [Base(key)])
    ensures dir.messages == old(dir.messages)[Base(key) := content]
    ensures dir.metadata == old(dir.metadata)[Base(key) := Record(Base(key), nextPopId, content)]
    ensures idx.byIndex == old(idx.byIndex)[nextPopId := MailFile(nextPopId, Base(key))]
    ensures idx.byName == old(idx.byName)[Base(key) := MailFile(nextPopId, Base(key))]
  {
    var emailId := Base(key);
    ghost var byIndex := idx.byIndex;
    dir.messages := dir.messages[emailId := content];
    ProcessEmail(dir, emailId, nextPopId);
    ghost var id := idx.Append(emailId, dir);
    NextIDUnique(byIndex, id, nextPopId);
  }

  /** Taking one more key extends the files by that key. */
  lemma {:induction false} FilesStep(f: Option<seq<string>>, m: map<string, seq<string>>, r: map<string, MailData>,
                  done: seq<string>, key: string, content: seq<string>, id: int,
                  fetch: string -> Fetch, start: int,
                  indexFile: Option<seq<string>>, messages: map<string, seq<string>>,
                  metadata: map<string, MailData>)
    requires fetch(key) == Fetched(content) && id == start + |done|
    requires FilesSynced(f, m, r, done, fetch, start, indexFile, messages, metadata)
    ensures FilesSynced(Some(IndexLines(f) + [Base(key)]), m[Base(key) := content],
                        r[Base(key) := Record(Base(key), id, content)],
                        done + [key], fetch, start, indexFile, messages, metadata)
  {
    Snoc(indexFile, messages, metadata, done, key, fetch, start);
  }

  lemma {:induction false} FetchedSnoc(done: seq<string>, key: string, fetch: string -> Fetch)
    requires forall j :: 0 <= j < |done| ==> fetch(done[j]).Fetched?
    requires fetch(key).Fetched?
    ensures forall j :: 0 <= j < |done + [key]| ==> fetch((done + [key])[j]).Fetched?
  {
  }

  /** Taking one more key under the next number extends the index maps. */
  lemma {:induction false} IndexStep(byIndex: map<int, MailFile>, byName: map<string, MailFile>, done: seq<string>, key: string,
                  known: set<string>, count: nat, id: int)
    requires IndexSynced(byIndex, byName, done, known, count)
    requires id == StartID(count) + |done|
    ensures IndexSynced(byIndex[id := MailFile(id, Base(key))], byName[Base(key) := MailFile(id, Base(key))],
                        done + [key], known, count)
  {
    NamesSnoc(done, key);
  }

  /** The plan grows by the next key exactly when its name is new. */
  lemma {:induction false} PlanStep(keys: seq<string>, known: set<string>, i: nat)
    requires i < |keys|
    ensures var done := Plan(keys[..i], known);
            Plan(keys[..i + 1], known)
            == if Base(keys[i]) in known || Base(keys[i]) in Names(done) then done else done + [keys[i]]
  {
    assert keys[..i + 1][..i] == keys[..i];
  }

  /** The download that fails on a key the plan chose next ends the plan's
      downloads there. */
  lemma {:induction false} PlanStops(keys: seq<string>, known: set<string>, i: nat, fetch: string -> Fetch)
    requires i < |keys|
    requires var done := Plan(keys[..i], known);
             && (forall j :: 0 <= j < |done| ==> fetch(done[j]).Fetched?)
             && Base(keys[i]) !in known && Base(keys[i]) !in Names(done)
             && fetch(keys[i]).FetchFailed?
    ensures var done := Plan(keys[..i], known);
            var plan := Plan(keys, known);
            && Downloads(plan, fetch) == |done| < |plan| && plan[|done|] == keys[i]
            && plan[..|done|] == done
  {
    PlanNext(keys, known, i);
    StopsAt(Plan(keys, known), Plan(keys[..i], known), fetch);
  }

  /** A key the plan of the first i keys does not cover comes next in the
      plan. */
  lemma {:induction false} PlanNext(keys: seq<string>, known: set<string>, i: nat)
    requires i < |keys|
    requires Base(keys[i]) !in known && Base(keys[i]) !in Names(Plan(keys[..i], known))
    ensures var done := Plan(keys[..i], known);
            var plan := Plan(keys, known);
            |done| < |plan| && plan[|done|] == keys[i] && plan[..|done|] == done
  {
    var done := Plan(keys[..i], known);
    PlanPrefix(keys, known, i + 1);
    assert keys[..i + 1][..i] == keys[..i];
    var p := Plan(keys[..i + 1], known);
    assert p == done + [keys[i]];
    PrefixSnoc(Plan(keys, known), done, keys[i]);
  }

  lemma {:induction false} PrefixSnoc(s: seq<string>, done: seq<string>, x: string)
    requires |done + [x]| <= |s| && done + [x] == s[..|done + [x]|]
    ensures |done| < |s| && s[|done|] == x && s[..|done|] == done
  {
    var p := done + [x];
    assert s[|done|] == p[|done|];
    assert s[..|done|] == p[..|done|];
  }

  lemma {:induction false} StopsAt(plan: seq<string>, done: seq<string>, fetch: string -> Fetch)
    requires |done| < |plan| && plan[..|done|] == done
    requires forall j :: 0 <= j < |done| ==> fetch(done[j]).Fetched?
    requires fetch(plan[|done|]).FetchFailed?
    ensures Downloads(plan, fetch) == |done|
  {
    forall j | 0 <= j < |done|
      ensures fetch(plan[j]).Fetched?
    {
      assert plan[j] == plan[..|done|][j];
    }
    DownloadsAt(plan, fetch, |done|);
  }

  /** The downloads stop at the first failing key. */
  lemma {:induction false} DownloadsAt(plan: seq<string>, fetch: string -> Fetch, m: nat)
    requires m < |plan| && fetch(plan[m]).FetchFailed?
    requires forall j :: 0 <= j < m ==> fetch(plan[j]).Fetched?
    ensures Downloads(plan, fetch) == m
  {
    if m > 0 {
      DownloadsAt(plan[1..], fetch, m - 1);
    }
  }

  /** When every chosen key downloads, the whole plan is carried out. */
  lemma {:induction false} PlanCompletes(plan: seq<string>, fetch: string -> Fetch)
    requires forall j :: 0 <= j < |plan| ==> fetch(plan[j]).Fetched?
    ensures Downloads(plan, fetch) == |plan| && plan[..|plan|] == plan
  {
  }

  /** One more downloaded key extends the index file, the messages and the
      records by that key alone. */
  lemma {:induction false} Snoc(indexFile: Option<seq<string>>, messages: map<string, seq<string>>, metadata: map<string, MailData>,
             done: seq<string>, key: string, fetch: string -> Fetch, start: int)
    ensures Appended(indexFile, done + [key]) == Some(IndexLines(Appended(indexFile, done)) + [Base(key)])
    ensures Stored(messages, done + [key], fetch) == Stored(messages, done, fetch)[Base(key) := Content(fetch(key))]
    ensures Recorded(metadata, done + [key], fetch, start)
            == Recorded(metadata, done, fetch, start)[Base(key) := Record(Base(key), start + |done|, Content(fetch(key)))]
    ensures Names(done + [key]) == Names(done) + [Base(key)]
  {
    NamesSnoc(done, key);
    AppendedSnoc(indexFile, done, key);
    StoredSnoc(messages, done, key, fetch);
    RecordedSnoc(metadata, done, key, fetch, start);
  }

  lemma {:induction false} NamesSnoc(done: seq<string>, key: string)
    ensures Names(done + [key]) == Names(done) + [Base(key)]
  {
    assert (done + [key])[..|done|] == done;
  }

  lemma {:induction false} AppendedSnoc(indexFile: Option<seq<string>>, done: seq<string>, key: string)
    ensures Appended(indexFile, done + [key]) == Some(IndexLines(Appended(indexFile, done)) + [Base(key)])
  {
    NamesSnoc(done, key);
    var lines := IndexLines(indexFile);
    assert done + [key] != [];
    assert Appended(indexFile, done + [key]) == Some(lines + (Names(done) + [Base(key)]));
    if done == [] {
      assert Names(done) == [];
      assert lines + ([] + [Base(key)]) == lines + [Base(key)];
    } else {
      assert lines + (Names(done) + [Base(key)]) == (lines + Names(done)) + [Base(key)];
    }
  }

  lemma {:induction false} StoredSnoc(messages: map<string, seq<string>>, done: seq<string>, key: string, fetch: string -> Fetch)
    ensures Stored(messages, done + [key], fetch) == Stored(messages, done, fetch)[Base(key) := Content(fetch(key))]
  {
    assert (done + [key])[..|done|] == done;
  }

  lemma {:induction false} RecordedSnoc(metadata: map<string, MailData>, done: seq<string>, key: string, fetch: string -> Fetch, start: int)
    ensures Recorded(metadata, done + [key], fetch, start)
            == Recorded(metadata, done, fetch, start)[Base(key) := Record(Base(key), start + |done|, Content(fetch(key)))]
  {
    assert (done + [key])[..|done|] == done;
  }

  /** The plan of a prefix of the listing is a prefix of the plan. */
  lemma {:induction false} PlanPrefix(keys: seq<string>, known: set<string>, m: nat)
    requires m <= |keys|
    ensures var p := Plan(keys[..m], known);
            |p| <= |Plan(keys, known)| && p == Plan(keys, known)[..|p|]
    decreases |keys|
  {
    if m < |keys| {
      var init := keys[..|keys| - 1];
      PlanPrefix(init, known, m);
      assert init[..m] == keys[..m];
    } else {
      assert keys[..m] == keys;
    }
  }
}
