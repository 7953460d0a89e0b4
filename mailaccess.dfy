/** Helpers of the session engine (mailaccess.go): command tokenising,
    argument selection, response formatting, the mailbox statistics over
    non-deleted positions and the building of the session snapshot from the
    metadata files. The commit of deletions is in module Commit. */
module MailAccess {
  import opened Common

  // ---------------------------------------------------------------------
  // getCommand: strings.Trim(line, "\r \n") then strings.Split(line, " ")

  predicate InCutset(c: char) { c == '\r' || c == ' ' || c == '\n' }

  /** The index of the first character at or after k that is not in the cutset. */
  function TrimStart(s: string, k: nat): (i: nat)
    requires k <= |s|
    ensures k <= i <= |s|
    ensures forall j :: k <= j < i ==> InCutset(s[j])
    ensures i < |s| ==> !InCutset(s[i])
    decreases |s| - k
  {
    if k < |s| && InCutset(s[k]) then TrimStart(s, k + 1) else k
  }

  /** The end of s once the cutset characters after position lo are dropped. */
  function TrimEnd(s: string, lo: nat, k: nat): (j: nat)
    requires lo <= k <= |s|
    ensures lo <= j <= k
    ensures forall m :: j <= m < k ==> InCutset(s[m])
    ensures j > lo ==> !InCutset(s[j - 1])
  {
    if k > lo && InCutset(s[k - 1]) then TrimEnd(s, lo, k - 1) else k
  }

  /** `strings.Trim(s, "\r \n")`: s without the CR, space and LF characters at
      either end, as a contiguous piece of s. */
  function Trim(s: string): (r: string)
    ensures |r| > 0 ==> !InCutset(r[0]) && !InCutset(r[|r| - 1])
    ensures TrimStart(s, 0) + |r| <= |s| && r == s[TrimStart(s, 0)..TrimStart(s, 0) + |r|]
    ensures forall k :: 0 <= k < TrimStart(s, 0) ==> InCutset(s[k])
    ensures forall k :: TrimStart(s, 0) + |r| <= k < |s| ==> InCutset(s[k])
  {
    var i := TrimStart(s, 0);
    s[i..TrimEnd(s, i, |s|)]
  }

  /** A line with no blank at either end is left as it is. */
  lemma {:induction false} TrimUnchanged(s: string)
    requires |s| > 0 ==> !InCutset(s[0]) && !InCutset(s[|s| - 1])
    ensures Trim(s) == s
  {
    assert s[0..|s|] == s;
  }

  predicate NoSpace(w: string) { forall k :: 0 <= k < |w| ==> w[k] != ' ' }

  predicate AllNoSpace(words: seq<string>) { forall i :: 0 <= i < |words| ==> NoSpace(words[i]) }

  /** The index of the first space at or after k, or |s| when there is none. */
  function SpaceAt(s: string, k: nat): (i: nat)
    requires k <= |s|
    ensures k <= i <= |s|
    ensures forall j :: k <= j < i ==> s[j] != ' '
    ensures i < |s| ==> s[i] == ' '
    decreases |s| - k
  {
    if k == |s| || s[k] == ' ' then k else SpaceAt(s, k + 1)
  }

  /** `strings.Split(s, " ")`: the pieces between single spaces; two adjacent
      spaces give an empty piece, and the empty string gives [""]. */
  function Split(s: string): (words: seq<string>)
    ensures |words| > 0
    ensures AllNoSpace(words)
    decreases |s|
  {
    var i := SpaceAt(s, 0);
    if i == |s| then [s] else [s[..i]] + Split(s[i + 1..])
  }

  /** Words joined with single spaces: the inverse of `Split`. */
  function JoinWords(words: seq<string>): string
    requires |words| > 0
  {
    if |words| == 1 then words[0] else words[0] + " " + JoinWords(words[1..])
  }

  /** Joining the pieces with single spaces gives back the split string. */
  lemma {:induction false} JoinSplit(s: string)
    ensures JoinWords(Split(s)) == s
    decreases |s|
  {
    var i := SpaceAt(s, 0);
    if i < |s| {
      JoinSplit(s[i + 1..]);
      assert Split(s)[1..] == Split(s[i + 1..]);
      assert s[..i] + " " + s[i + 1..] == s;
    }
  }

  /** Splitting space-free words joined with single spaces gives back the words. */
  lemma {:induction false} SplitJoin(words: seq<string>)
    requires |words| > 0 && AllNoSpace(words)
    ensures Split(JoinWords(words)) == words
  {
    var s := JoinWords(words);
    var w := words[0];
    if |words| == 1 {
      assert SpaceAt(s, 0) == |s| by { SpaceAtNone(s, 0); }
    } else {
      var rest := JoinWords(words[1..]);
      assert s == w + " " + rest;
      assert SpaceAt(s, 0) == |w| by {
        assert forall k :: 0 <= k < |w| ==> s[k] == w[k];
        SpaceAtFirst(s, 0, |w|);
      }
      assert s[..|w|] == w;
      assert s[|w| + 1..] == rest;
      SplitJoin(words[1..]);
      assert [w] + words[1..] == words;
    }
  }

  lemma {:induction false} SpaceAtNone(s: string, k: nat)
    requires k <= |s| && forall j :: k <= j < |s| ==> s[j] != ' '
    ensures SpaceAt(s, k) == |s|
    decreases |s| - k
  {
    if k < |s| {
      SpaceAtNone(s, k + 1);
    }
  }

  lemma {:induction false} SpaceAtFirst(s: string, k: nat, i: nat)
    requires k <= i < |s| && s[i] == ' ' && forall j :: k <= j < i ==> s[j] != ' '
    ensures SpaceAt(s, k) == i
    decreases i - k
  {
    if k < i {
      SpaceAtFirst(s, k + 1, i);
    }
  }

  /** A parsed command line: the command word and its arguments. */
  datatype Command = Command(name: string, args: seq<string>)

  /** `getCommand`: the first space-separated word of the trimmed line and the
      remaining words. Rejoining them gives back the trimmed line. */
  function GetCommand(line: string): (c: Command)
    ensures JoinWords([c.name] + c.args) == Trim(line)
    ensures NoSpace(c.name) && AllNoSpace(c.args)
  {
    var words := Split(Trim(line));
    JoinSplit(Trim(line));
    assert [words[0]] + words[1..] == words;
    Command(words[0], words[1..])
  }

  /** A command word followed by space-free arguments, without surrounding
      blanks, parses back into that command. */
  lemma {:induction false} GetCommandOfWords(name: string, args: seq<string>)
    requires name != [] && !InCutset(name[0])
    requires NoSpace(name) && AllNoSpace(args)
    requires args == [] ==> !InCutset(name[|name| - 1])
    requires args != [] ==> |args[|args| - 1]| > 0 && !InCutset(args[|args| - 1][|args[|args| - 1]| - 1])
    ensures GetCommand(JoinWords([name] + args)) == Command(name, args)
  {
    var words := [name] + args;
    var line := JoinWords(words);
    JoinWordsEnds(words);
    TrimUnchanged(line);
    assert AllNoSpace(words) by {
      forall i | 0 <= i < |words| ensures NoSpace(words[i]) {
        if i > 0 { assert words[i] == args[i - 1]; }
      }
    }
    SplitJoin(words);
    assert words[1..] == args;
  }

  lemma {:induction false} JoinWordsEnds(words: seq<string>)
    requires |words| > 0
    requires words[0] != []
    ensures |JoinWords(words)| > 0
    ensures JoinWords(words)[0] == words[0][0]
    ensures |words[|words| - 1]| > 0 ==>
              JoinWords(words)[|JoinWords(words)| - 1] == words[|words| - 1][|words[|words| - 1]| - 1]
  {
    if |words| > 1 {
      JoinWordsLast(words[1..]);
    }
  }

  lemma {:induction false} JoinWordsLast(words: seq<string>)
    requires |words| > 0
    ensures |words[|words| - 1]| > 0 ==>
              |JoinWords(words)| > 0 &&
              JoinWords(words)[|JoinWords(words)| - 1] == words[|words| - 1][|words[|words| - 1]| - 1]
  {
    if |words| > 1 {
      JoinWordsLast(words[1..]);
    }
  }

  // ---------------------------------------------------------------------
  // getSafeArg

  /** `getSafeArg(args, i)`: the i-th argument, or the "Index out of range"
      error (whose string result is ""). */
  function GetSafeArg(args: seq<string>, i: nat): (r: Option<string>)
    ensures r.Some? <==> i < |args|
    ensures r.Some? ==> r.value == args[i]
  {
    if i < |args| then Some(args[i]) else None
  }

  // ---------------------------------------------------------------------
  // writeOKResponse / writeErrResponse (the line, before its CRLF)

  /** The positive status line `+OK <msg>`. */
  function OkLine(msg: string): (r: string)
    ensures |r| == |msg| + 4 && r[..4] == "+OK " && r[4..] == msg
  {
    "+OK " + msg
  }

  /** The negative status line `-ERR <msg>`. */
  function ErrLine(msg: string): (r: string)
    ensures |r| == |msg| + 5 && r[..5] == "-ERR " && r[5..] == msg
  {
    "-ERR " + msg
  }

  /** A positive and a negative status line never coincide, and each gives back
      its message. */
  lemma {:induction false} StatusLinesDistinct(a: string, b: string)
    ensures OkLine(a) != ErrLine(b)
    ensures OkLine(a)[4..] == a && ErrLine(b)[5..] == b
  {
    assert OkLine(a)[0] == '+' && ErrLine(b)[0] == '-';
  }

  /** What goes on the wire: every line followed by CRLF. */
  function Wire(lines: seq<string>): string
  {
    if lines == [] then [] else lines[0] + CRLF + Wire(lines[1..])
  }

  /** `writeOKResponse(conn, msg)` sends exactly `"+OK " + msg + "\r\n"`. */
  lemma {:induction false} WireOk(msg: string)
    ensures Wire([OkLine(msg)]) == "+OK " + msg + "\r\n"
  {
    assert [OkLine(msg)][1..] == [];
  }

  /** `writeErrResponse(conn, msg)` sends exactly `"-ERR " + msg + "\r\n"`. */
  lemma {:induction false} WireErr(msg: string)
    ensures Wire([ErrLine(msg)]) == "-ERR " + msg + "\r\n"
  {
    assert [ErrLine(msg)][1..] == [];
  }

  // ---------------------------------------------------------------------
  // getStat

  /** The positions in [0, n) that are not marked deleted, in increasing order. */
  function Live(md: seq<MailData>, deleted: set<int>, n: nat): (ps: seq<nat>)
    requires n <= |md|
    ensures forall i :: 0 <= i < |ps| ==> ps[i] < n
    ensures |ps| <= n
  {
    if n == 0 then []
    else Live(md, deleted, n - 1) + (if n - 1 in deleted then [] else [n - 1])
  }

  /** `Live` holds exactly the non-deleted positions below n, each once and in
      increasing order. */
  lemma {:induction false} LiveExactly(md: seq<MailData>, deleted: set<int>, n: nat)
    requires n <= |md|
    ensures forall p: int :: p in Live(md, deleted, n) <==> 0 <= p < n && p !in deleted
    ensures forall i, j :: 0 <= i < j < |Live(md, deleted, n)| ==> Live(md, deleted, n)[i] < Live(md, deleted, n)[j]
  {
    if n > 0 {
      LiveExactly(md, deleted, n - 1);
    }
  }

  /** The non-deleted positions of the snapshot. */
  function LivePositions(md: seq<MailData>, deleted: set<int>): seq<nat>
  {
    Live(md, deleted, |md|)
  }

  /** The sum of `totalSize` over the given positions. */
  function SizeOf(md: seq<MailData>, ps: seq<nat>): int
    requires forall i :: 0 <= i < |ps| ==> ps[i] < |md|
  {
    if ps == [] then 0 else SizeOf(md, ps[..|ps| - 1]) + md[ps[|ps| - 1]].totalSize
  }

  lemma {:induction false} SizeOfSnoc(md: seq<MailData>, ps: seq<nat>, x: nat)
    requires forall i :: 0 <= i < |ps| ==> ps[i] < |md|
    requires x < |md|
    ensures SizeOf(md, ps + [x]) == SizeOf(md, ps) + md[x].totalSize
  {
    assert (ps + [x])[..|ps|] == ps;
  }

  /** The number of positions in [0, n) not marked deleted. */
  function LiveCount(deleted: set<int>, n: nat): nat
  {
    if n == 0 then 0 else LiveCount(deleted, n - 1) + (if n - 1 in deleted then 0 else 1)
  }

  /** The total size of the messages at positions in [0, n) not marked deleted. */
  function LiveSize(md: seq<MailData>, deleted: set<int>, n: nat): int
    requires n <= |md|
  {
    if n == 0 then 0
    else LiveSize(md, deleted, n - 1) + (if n - 1 in deleted then 0 else md[n - 1].totalSize)
  }

  /** One more position: it adds one to the count and its size to the total
      exactly when it is not deleted. */
  lemma {:induction false} LiveStep(md: seq<MailData>, deleted: set<int>, n: nat)
    requires 0 < n <= |md|
    ensures |Live(md, deleted, n)| == |Live(md, deleted, n - 1)| + (if n - 1 in deleted then 0 else 1)
    ensures SizeOf(md, Live(md, deleted, n))
            == SizeOf(md, Live(md, deleted, n - 1)) + (if n - 1 in deleted then 0 else md[n - 1].totalSize)
  {
    var a := Live(md, deleted, n - 1);
    if n - 1 in deleted {
      assert Live(md, deleted, n) == a + [];
      assert a + [] == a;
    } else {
      assert Live(md, deleted, n) == a + [n - 1];
      SizeOfSnoc(md, a, n - 1);
    }
  }

  /** The listed positions number `LiveCount` and their sizes add up to
      `LiveSize`. */
  lemma {:induction false} LiveMeasures(md: seq<MailData>, deleted: set<int>, n: nat)
    requires n <= |md|
    ensures |Live(md, deleted, n)| == LiveCount(deleted, n)
    ensures SizeOf(md, Live(md, deleted, n)) == LiveSize(md, deleted, n)
  {
    if n > 0 {
      LiveMeasures(md, deleted, n - 1);
      LiveStep(md, deleted, n);
    }
  }

  /** `getStat`: the number of non-deleted positions (as many as LIST shows)
      and the sum of their sizes. */
  method GetStat(md: seq<MailData>, deleted: set<int>) returns (count: nat, size: int)
    ensures count == |LivePositions(md, deleted)|
    ensures size == SizeOf(md, LivePositions(md, deleted))
  {
    count, size := 0, 0;
    var id := 0;
    while id < |md|
      invariant 0 <= id <= |md|
      invariant count == LiveCount(deleted, id)
      invariant size == LiveSize(md, deleted, id)
    {
      if id !in deleted {
        count := count + 1;
        size := size + md[id].totalSize;
      }
      id := id + 1;
    }
    LiveMeasures(md, deleted, |md|);
  }

  /** With nothing deleted, every position is live. */
  lemma {:induction false} LiveNoneDeleted(md: seq<MailData>, n: nat)
    requires n <= |md|
    ensures Live(md, {}, n) == seq(n, i => i)
  {
    if n > 0 {
      LiveNoneDeleted(md, n - 1);
    }
  }

  /** STAT with no deletions counts the whole snapshot. */
  lemma {:induction false} StatCountsAll(md: seq<MailData>)
    ensures |LivePositions(md, {})| == |md|
  {
    LiveNoneDeleted(md, |md|);
  }

  /** Marking one more position p deleted lowers the count and the size below
      n by that message, when p is below n. */
  lemma {:induction false} StatDelete(md: seq<MailData>, deleted: set<int>, p: nat, n: nat)
    requires n <= |md| && p !in deleted
    ensures LiveCount(deleted + {p}, n) == LiveCount(deleted, n) - (if p < n then 1 else 0)
    ensures LiveSize(md, deleted + {p}, n)
            == LiveSize(md, deleted, n) - (if p < n then md[p].totalSize else 0)
  {
    if n > 0 {
      StatDelete(md, deleted, p, n - 1);
    }
  }

  /** STAT after marking one live message deleted. */
  lemma {:induction false} StatAfterDelete(md: seq<MailData>, deleted: set<int>, p: nat)
    requires p < |md| && p !in deleted
    ensures |LivePositions(md, deleted + {p})| == |LivePositions(md, deleted)| - 1
    ensures SizeOf(md, LivePositions(md, deleted + {p}))
            == SizeOf(md, LivePositions(md, deleted)) - md[p].totalSize
  {
    StatDelete(md, deleted, p, |md|);
    LiveMeasures(md, deleted, |md|);
    LiveMeasures(md, deleted + {p}, |md|);
  }

  // ---------------------------------------------------------------------
  // getMessageData

  /** One entry visited by the directory walk: its path and whether it is a
      directory. */
  datatype WalkEntry = WalkEntry(path: string, isDir: bool)

  /** The walk callback keeps regular files whose extension is ".json". */
  predicate Selected(e: WalkEntry)
  {
    !e.isDir && Ext(e.path) == ".json"
  }

  /** The base names of the selected entries, in walk order. */
  function MetafileNames(walk: seq<WalkEntry>): seq<string>
  {
    if walk == [] then []
    else
      var e := walk[|walk| - 1];
      MetafileNames(walk[..|walk| - 1]) + (if Selected(e) then [Base(e.path)] else [])
  }

  /** Every selected entry contributes its base name. */
  lemma {:induction false} MetafileNamesComplete(walk: seq<WalkEntry>, i: nat)
    requires i < |walk| && Selected(walk[i])
    ensures Base(walk[i].path) in MetafileNames(walk)
  {
    var init := walk[..|walk| - 1];
    if i < |init| {
      MetafileNamesComplete(init, i);
      assert init[i] == walk[i];
    }
  }

  /** Every name comes from a selected entry. */
  lemma {:induction false} MetafileNamesSound(walk: seq<WalkEntry>, name: string)
    requires name in MetafileNames(walk)
    ensures exists i :: 0 <= i < |walk| && Selected(walk[i]) && Base(walk[i].path) == name
  {
    var init := walk[..|walk| - 1];
    if name in MetafileNames(init) {
      MetafileNamesSound(init, name);
      var i :| 0 <= i < |init| && Selected(init[i]) && Base(init[i].path) == name;
      assert walk[i] == init[i];
    } else {
      var last := |walk| - 1;
      assert Selected(walk[last]) && Base(walk[last].path) == name;
    }
  }

  /** Walk order is kept: the names of two consecutive stretches of the walk
      are the names of the first followed by those of the second. */
  lemma {:induction false} MetafileNamesAppend(a: seq<WalkEntry>, b: seq<WalkEntry>)
    ensures MetafileNames(a + b) == MetafileNames(a) + MetafileNames(b)
  {
    if b != [] {
      var b' := b[..|b| - 1];
      assert (a + b)[..|a + b| - 1] == a + b';
      MetafileNamesAppend(a, b');
    } else {
      assert a + b == a;
    }
  }

  /** A final extension that starts with its only dot is the path's extension. */
  lemma {:induction false} ExtOfSuffix(q: string, s: string)
    requires |s| > 0 && s[0] == '.'
    requires forall k :: 1 <= k < |s| ==> s[k] != '.' && s[k] != '/'
    ensures Ext(q + s) == s
  {
    var p := q + s;
    ExtDotAt(p, |q|, |p|);
    assert p[|q|..] == s;
  }

  /** An entry is selected exactly when it is a regular file whose path ends
      in ".json". */
  lemma {:induction false} SelectedIffJson(e: WalkEntry)
    ensures Selected(e) <==> !e.isDir && |e.path| >= 5 && e.path[|e.path| - 5..] == ".json"
  {
    var p := e.path;
    if |p| >= 5 && p[|p| - 5..] == ".json" {
      assert p == p[..|p| - 5] + ".json";
      ExtOfSuffix(p[..|p| - 5], ".json");
    }
  }

  /** The index file of the synchroniser is never taken for metadata. */
  lemma {:induction false} IndexFileNotSelected(dir: string)
    ensures !Selected(WalkEntry(Join(dir, "_email_index.txt"), false))
  {
    var p := Join(dir, "_email_index.txt");
    SelectedIffJson(WalkEntry(p, false));
    assert p[|p| - 1] == 't';
  }

  /** The metadata file `LoadMailData` reads for a name: ".json" is added
      unless the name already has that extension. */
  function MetadataPath(emailDir: string, name: string): string
  {
    Join(emailDir, if Ext(name) != ".json" then name + ".json" else name)
  }

  /** Loading the metadata of each name in turn; `None` when a file is
      missing or does not parse, which ends the server process. */
  function LoadAll(emailDir: string, names: seq<string>, metadata: map<string, MailData>)
    : (r: Option<seq<MailData>>)
    ensures r.Some? <==> forall i :: 0 <= i < |names| ==> MetadataPath(emailDir, names[i]) in metadata
    ensures r.Some? ==> |r.value| == |names|
    ensures r.Some? ==> forall i :: 0 <= i < |names| ==> r.value[i] == metadata[MetadataPath(emailDir, names[i])]
  {
    if names == [] then Some([])
    else
      var path := MetadataPath(emailDir, names[|names| - 1]);
      var init := LoadAll(emailDir, names[..|names| - 1], metadata);
      if init.None? || path !in metadata then None else Some(init.value + [metadata[path]])
  }

  /** `getMessageData`: collects the base names of the ".json" files met by
      the walk, then loads the record of each, keeping walk order. The
      parsed metadata files are given as a map from path to record. */
  method GetMessageData(emailDir: string, walk: seq<WalkEntry>, metadata: map<string, MailData>)
    returns (r: Option<seq<MailData>>)
    ensures r == LoadAll(emailDir, MetafileNames(walk), metadata)
  {
    var names := CollectMetafiles(walk);
    r := LoadMetadata(emailDir, names, metadata);
  }

  /** The walk callback: appends the base name of each selected entry. */
  method CollectMetafiles(walk: seq<WalkEntry>) returns (names: seq<string>)
    ensures names == MetafileNames(walk)
  {
    names := [];
    var k := 0;
    while k < |walk|
      invariant 0 <= k <= |walk|
      invariant names == MetafileNames(walk[..k])
    {
      assert walk[..k + 1][..k] == walk[..k];
      if Selected(walk[k]) {
        names := names + [Base(walk[k].path)];
      }
      k := k + 1;
    }
    assert walk[..k] == walk;
  }

  /** The loading loop: `LoadMailData` on each name in turn. */
  method LoadMetadata(emailDir: string, names: seq<string>, metadata: map<string, MailData>)
    returns (r: Option<seq<MailData>>)
    ensures r == LoadAll(emailDir, names, metadata)
  {
    var result: seq<MailData> := [];
    var j := 0;
    while j < |names|
      invariant 0 <= j <= |names|
      invariant LoadAll(emailDir, names[..j], metadata) == Some(result)
    {
      var path := MetadataPath(emailDir, names[j]);
      if path !in metadata {
        LoadAllFails(emailDir, names, metadata, j);
        return None;
      }
      LoadAllSnoc(emailDir, names, metadata, j, result);
      result := result + [metadata[path]];
      j := j + 1;
    }
    assert names[..j] == names;
    r := Some(result);
  }

  lemma {:induction false} LoadAllSnoc(emailDir: string, names: seq<string>, metadata: map<string, MailData>, j: nat, result: seq<MailData>)
    requires j < |names| && MetadataPath(emailDir, names[j]) in metadata
    requires LoadAll(emailDir, names[..j], metadata) == Some(result)
    ensures LoadAll(emailDir, names[..j + 1], metadata) == Some(result + [metadata[MetadataPath(emailDir, names[j])]])
  {
    assert names[..j + 1][..j] == names[..j];
  }

  lemma {:induction false} LoadAllFails(emailDir: string, names: seq<string>, metadata: map<string, MailData>, j: nat)
    requires j < |names| && MetadataPath(emailDir, names[j]) !in metadata
    ensures LoadAll(emailDir, names, metadata) == None
  {
  }
}
