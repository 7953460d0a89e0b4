/** What the POP3 session engine promises, stated over one turn (`Dispatch`)
    and over a whole connection (`Run`). */
module SessionProperties {
  import opened Common
  import opened MailAccess
  import opened Commit
  import opened Framing
  import opened Server

  /** The command words the dispatch recognises. */
  const KnownCommands: set<string> :=
    {"USER", "PASS", "STAT", "LIST", "UIDL", "TOP", "RETR", "DELE", "RSET", "NOOP", "QUIT"}

  /** The commands that take a message number as their first argument. */
  const NumberedCommands: set<string> := {"LIST", "UIDL", "TOP", "RETR", "DELE"}

  // ---------------------------------------------------------------------
  // States and the commands they accept

  /** Any other word, or a known word in a state that does not accept it, is
      answered "-ERR Unrecognised Command" and changes nothing. */
  lemma {:induction false} Unrecognised(s: SessionValue, c: Command, env: Env, files: map<string, seq<string>>)
    requires c.name !in KnownCommands
             || (c.name in {"USER", "PASS"} && s.state != StateUnauthorized)
             || (c.name in QueryCommands + {"DELE"} && s.state != StateTransaction)
    ensures Dispatch(s, c, env, files) == Same(s, [ErrLine("Unrecognised Command")])
  {
  }

  /** The session states a connection can be in between turns: not signed in
      (and then nothing is marked) or signed in. */
  predicate Reachable(s: SessionValue)
  {
    (s.state == StateUnauthorized && s.deleted == {}) || s.state == StateTransaction
  }

  /** Every turn that does not commit keeps the session reachable: marks are
      only made once signed in, and a signed-in session never signs out. UPDATE
      is entered only by the committing QUIT. */
  lemma {:induction false} DispatchKeepsReachable(s: SessionValue, c: Command, env: Env, files: map<string, seq<string>>)
    requires Reachable(s)
    ensures var r := Dispatch(s, c, env, files);
            (r.commits || Reachable(r.next))
            && (s.state == StateTransaction ==> r.next.state != StateUnauthorized)
            && (r.next.state == StateUpdate <==> r.commits)
  {
    var r := Dispatch(s, c, env, files);
    if c.name == "DELE" && s.state == StateTransaction {
      assert r == DeleReply(s, c.args);
    } else if c.name == "USER" && s.state == StateUnauthorized {
      assert r == UserReply(s, c.args, env);
    } else if s.state == StateTransaction && c.name in QueryCommands {
      QueryKeeps(s, c, env, files);
    }
  }

  lemma {:induction false} QueryKeeps(s: SessionValue, c: Command, env: Env, files: map<string, seq<string>>)
    requires s.state == StateTransaction && c.name in QueryCommands
    ensures Dispatch(s, c, env, files).next == s && !Dispatch(s, c, env, files).commits
  {
    if c.name == "STAT" {
      RouteStat(s, c, env, files);
    } else if c.name == "LIST" {
      RouteList(s, c, env, files);
    } else if c.name == "UIDL" {
      RouteUidl(s, c, env, files);
    } else if c.name == "TOP" {
      RouteTop(s, c, env, files);
    } else {
      RouteRetr(s, c, env, files);
    }
  }

  // ---------------------------------------------------------------------
  // AUTHORIZATION

  /** USER: without a name it is refused; otherwise the mail directory is set
      first, then a failed download is reported, and a successful one loads
      the snapshot from the metadata files (a missing one ends the process). */
  lemma {:induction false} UserOutcomes(s: SessionValue, c: Command, env: Env, files: map<string, seq<string>>)
    requires s.state == StateUnauthorized && c.name == "USER"
    ensures var r := Dispatch(s, c, env, files);
            && (c.args == [] ==> r == Same(s, [ErrLine("No user name")]))
            && (c.args != [] ==> r.next.emailDir == EmailDir(env.home, c.args[0]) && r.next.state == s.state)
            && (c.args != [] && env.sync(c.args[0]).SyncFailed? ==>
                  r.next.mailData == s.mailData && r.outcome == Continue
                  && r.out == [ErrLine("Could not download emails: " + env.sync(c.args[0]).err)])
            && (c.args != [] && env.sync(c.args[0]).Synced? ==>
                  var sy := env.sync(c.args[0]);
                  match LoadAll(r.next.emailDir, MetafileNames(sy.walk), sy.metadata)
                  case None => r.outcome == Crash && r.out == []
                  case Some(md) => r.next.mailData == md && r.out == [OkLine("")] && r.outcome == Continue)
  {
    assert Dispatch(s, c, env, files) == UserReply(s, c.args, env);
  }

  /** PASS accepts any password: the session signs in with no marks. */
  lemma {:induction false} PassSignsIn(s: SessionValue, c: Command, env: Env, files: map<string, seq<string>>)
    requires s.state == StateUnauthorized && c.name == "PASS"
    ensures Dispatch(s, c, env, files)
            == Same(s.(state := StateTransaction, deleted := {}), [OkLine("User signed in")])
  {
  }

  // ---------------------------------------------------------------------
  // Message numbers

  /** A numbered command whose argument is past the snapshot, or names a
      marked message, is refused and changes nothing. */
  lemma {:induction false} NumberRefused(s: SessionValue, c: Command, env: Env, files: map<string, seq<string>>)
    requires s.state == StateTransaction && c.name in NumberedCommands && c.args != []
    requires |s.mailData| <= MessageIndex(c.args[0]) || MessageIndex(c.args[0]) in s.deleted
    ensures var r := Dispatch(s, c, env, files);
            r.next == s && r.outcome == Continue
            && r.out == [ErrLine(
                 if |s.mailData| <= MessageIndex(c.args[0]) then "no such message"
                 else if c.name == "DELE" then "message already deleted"
                 else "message deleted")]
  {
    Refused(s, c.args, files);
    if c.name == "DELE" {
      assert Dispatch(s, c, env, files) == DeleReply(s, c.args);
    } else if c.name == "LIST" {
      RouteList(s, c, env, files);
    } else if c.name == "UIDL" {
      RouteUidl(s, c, env, files);
    } else if c.name == "TOP" {
      RouteTop(s, c, env, files);
    } else {
      RouteRetr(s, c, env, files);
    }
  }

  /** The refusals of the numbered commands, reply by reply. */
  lemma {:induction false} Refused(s: SessionValue, args: seq<string>, files: map<string, seq<string>>)
    requires args != [] && !CheckArg(s, args[0]).Target?
    ensures var m := if CheckArg(s, args[0]) == NoSuchMessage then "no such message" else "message deleted";
            && ListReply(s, args) == Same(s, [ErrLine(m)])
            && UidlReply(s, args) == Same(s, [ErrLine(m)])
            && TopReply(s, args, files) == Same(s, [ErrLine(m)])
            && RetrReply(s, args, files) == Same(s, [ErrLine(m)])
            && DeleReply(s, args)
               == Same(s, [ErrLine(if CheckArg(s, args[0]) == NoSuchMessage then "no such message" else "message already deleted")])
  {
    assert GetSafeArg(args, 0) == Some(args[0]);
  }

  /** Only the upper bound is checked: a number that is not positive (such as
      "0" or a word, which reads as 0) passes the checks, and indexing the
      snapshot with it makes the process panic. */
  lemma {:induction false} NonPositiveNumberCrashes(s: SessionValue, c: Command, env: Env, files: map<string, seq<string>>)
    requires s.state == StateTransaction && c.name in {"LIST", "UIDL", "RETR", "TOP"}
    requires c.args != [] && MessageIndex(c.args[0]) < 0 && MessageIndex(c.args[0]) !in s.deleted
    requires c.name == "TOP" ==> |c.args| >= 2
    ensures Dispatch(s, c, env, files) == Reply(s, [], Crash, false)
  {
    QueryKeeps(s, c, env, files);
  }

  /** The argument "0" is position -1, and so is a word, unless it starts
      with a digit run past the `uint64` range (see `AtoiOverflowSaturates`). */
  lemma {:induction false} ZeroIsBelowRange(arg: string)
    requires arg == "0" || (!IsDecimal(arg) && !Overflows(arg))
    ensures MessageIndex(arg) == -1
  {
    if arg == "0" {
      assert IsDecimal(arg) && arg[0] != '-' && arg[0] != '+';
      assert Unsigned(arg) == arg && DigitEnd(arg, 0) == 1 && arg[..1] == arg;
      assert DigitsValue(arg) == DigitsValue(arg[..0]) * 10 + DigitValue('0');
    }
  }

  // ---------------------------------------------------------------------
  // DELE, RSET, NOOP

  /** DELE of an unmarked number within the bound marks that position, and
      only it. */
  lemma {:induction false} DeleMarks(s: SessionValue, c: Command, env: Env, files: map<string, seq<string>>)
    requires s.state == StateTransaction && c.name == "DELE" && c.args != []
    requires MessageIndex(c.args[0]) < |s.mailData| && MessageIndex(c.args[0]) !in s.deleted
    ensures Dispatch(s, c, env, files)
            == Same(s.(deleted := s.deleted + {MessageIndex(c.args[0])}), ["+OK"])
  {
    assert Dispatch(s, c, env, files) == DeleReply(s, c.args);
  }

  /** After a successful DELE, every numbered command on the same number is
      refused as deleted. */
  lemma {:induction false} DeleThenRefused(s: SessionValue, c: Command, c2: Command, env: Env, files: map<string, seq<string>>)
    requires s.state == StateTransaction && c.name == "DELE" && c.args != []
    requires MessageIndex(c.args[0]) < |s.mailData| && MessageIndex(c.args[0]) !in s.deleted
    requires c2.name in NumberedCommands && c2.args != [] && c2.args[0] == c.args[0]
    ensures var s' := Dispatch(s, c, env, files).next;
            Dispatch(s', c2, env, files)
            == Same(s', [ErrLine(if c2.name == "DELE" then "message already deleted" else "message deleted")])
  {
    DeleMarks(s, c, env, files);
    var s' := Dispatch(s, c, env, files).next;
    NumberRefused(s', c2, env, files);
  }

  /** After a successful DELE of a message, STAT counts one message fewer
      and its size less. */
  lemma {:induction false} DeleThenStat(s: SessionValue, c: Command, env: Env, files: map<string, seq<string>>)
    requires s.state == StateTransaction && c.name == "DELE" && c.args != []
    requires 0 <= MessageIndex(c.args[0]) < |s.mailData| && MessageIndex(c.args[0]) !in s.deleted
    ensures var s' := Dispatch(s, c, env, files).next;
            var p := MessageIndex(c.args[0]);
            && |LivePositions(s'.mailData, s'.deleted)| == |LivePositions(s.mailData, s.deleted)| - 1
            && SizeOf(s'.mailData, LivePositions(s'.mailData, s'.deleted))
               == SizeOf(s.mailData, LivePositions(s.mailData, s.deleted)) - s.mailData[p].totalSize
  {
    DeleMarks(s, c, env, files);
    StatAfterDelete(s.mailData, s.deleted, MessageIndex(c.args[0]));
  }

  /** RSET clears the marks in any state; NOOP changes nothing. Both answer
      "+OK " with an empty message. */
  lemma {:induction false} RsetAndNoop(s: SessionValue, c: Command, env: Env, files: map<string, seq<string>>)
    requires c.name in {"RSET", "NOOP"}
    ensures Dispatch(s, c, env, files)
            == Same(if c.name == "RSET" then s.(deleted := {}) else s, [OkLine("")])
  {
  }

  /** DELE followed by RSET leaves the session as it was when nothing was
      marked before. */
  lemma {:induction false} DeleThenRset(s: SessionValue, c: Command, r: Command, env: Env, files: map<string, seq<string>>)
    requires s.state == StateTransaction && s.deleted == {} && c.name == "DELE" && r.name == "RSET"
    ensures Dispatch(Dispatch(s, c, env, files).next, r, env, files).next == s
  {
    assert Dispatch(s, c, env, files) == DeleReply(s, c.args);
  }

  // ---------------------------------------------------------------------
  // LIST and UIDL

  /** The listing has one entry per non-deleted position, in the order of
      `Live`. */
  lemma {:induction false} ListingEntries(md: seq<MailData>, deleted: set<int>, n: nat, names: bool)
    requires n <= |md|
    ensures var ps := Live(md, deleted, n);
            |Listing(md, deleted, n, names)| == |ps|
            && forall i :: 0 <= i < |ps| ==> Listing(md, deleted, n, names)[i] == ListEntry(md, ps[i], names)
  {
    if n > 0 {
      ListingEntries(md, deleted, n - 1, names);
    }
  }

  /** A multi-line listing: the status line, one entry per position of ps,
      and the terminator. */
  lemma {:induction false} Framed(out: seq<string>, head: string, md: seq<MailData>, deleted: set<int>, names: bool)
    requires out == [head] + Listing(md, deleted, |md|, names) + [Terminator]
    ensures var ps := LivePositions(md, deleted);
            |out| == |ps| + 2 && out[0] == head && out[|out| - 1] == Terminator
            && forall i :: 0 <= i < |ps| ==> out[i + 1] == ListEntry(md, ps[i], names)
  {
    var entries := Listing(md, deleted, |md|, names);
    ListingEntries(md, deleted, |md|, names);
    Between(head, entries, Terminator);
  }

  lemma {:induction false} Between(head: string, entries: seq<string>, last: string)
    ensures var out := [head] + entries + [last];
            |out| == |entries| + 2 && out[0] == head && out[|out| - 1] == last
            && forall i :: 0 <= i < |entries| ==> out[i + 1] == entries[i]
  {
  }

  /** LIST without an argument: the header counts exactly the entries that
      follow, which are the non-deleted messages by number, with their sizes,
      in increasing order, followed by the terminator. */
  lemma {:induction false} ListAll(s: SessionValue, c: Command, env: Env, files: map<string, seq<string>>)
    requires s.state == StateTransaction && c.name == "LIST" && c.args == []
    ensures var r := Dispatch(s, c, env, files);
            var ps := LivePositions(s.mailData, s.deleted);
            r.next == s && r.outcome == Continue
            && |r.out| == |ps| + 2
            && r.out[0] == OkLine(NatToString(|ps|) + " messages (" + IntToString(SizeOf(s.mailData, ps)) + " octets)")
            && (forall i :: 0 <= i < |ps| ==>
                  r.out[i + 1] == IntToString(ps[i] + 1) + " " + IntToString(s.mailData[ps[i]].totalSize))
            && r.out[|r.out| - 1] == Terminator
  {
    RouteList(s, c, env, files);
    var ps := LivePositions(s.mailData, s.deleted);
    var head := OkLine(NatToString(|ps|) + " messages (" + IntToString(SizeOf(s.mailData, ps)) + " octets)");
    Framed(Dispatch(s, c, env, files).out, head, s.mailData, s.deleted, false);
  }

  /** UIDL without an argument: one entry per non-deleted message, its number
      and its name, in increasing order, between "+OK " and the terminator. */
  lemma {:induction false} UidlAll(s: SessionValue, c: Command, env: Env, files: map<string, seq<string>>)
    requires s.state == StateTransaction && c.name == "UIDL" && c.args == []
    ensures var r := Dispatch(s, c, env, files);
            var ps := LivePositions(s.mailData, s.deleted);
            r.next == s && r.outcome == Continue
            && |r.out| == |ps| + 2 && r.out[0] == OkLine("")
            && (forall i :: 0 <= i < |ps| ==> r.out[i + 1] == IntToString(ps[i] + 1) + " " + s.mailData[ps[i]].name)
            && r.out[|r.out| - 1] == Terminator
  {
    RouteUidl(s, c, env, files);
    Framed(Dispatch(s, c, env, files).out, OkLine(""), s.mailData, s.deleted, true);
  }

  // ---------------------------------------------------------------------
  // RETR and TOP

  /** RETR of a listed message whose file exists: the size line, the stuffed
      lines and the terminator; a reader that drops the empty line before
      each "." gets the file's lines back. */
  lemma {:induction false} RetrRoundTrip(s: SessionValue, c: Command, env: Env, files: map<string, seq<string>>)
    requires s.state == StateTransaction && c.name == "RETR" && c.args != []
    requires 0 <= MessageIndex(c.args[0]) < |s.mailData| && MessageIndex(c.args[0]) !in s.deleted
    requires Join(s.emailDir, s.mailData[MessageIndex(c.args[0])].name) in files
    ensures var r := Dispatch(s, c, env, files);
            var md := s.mailData[MessageIndex(c.args[0])];
            var lines := files[Join(s.emailDir, md.name)];
            r.next == s && r.outcome == Continue && |r.out| >= 2
            && r.out[0] == OkLine(IntToString(md.totalSize) + " octets")
            && r.out[|r.out| - 1] == Terminator
            && Unstuff(r.out[1..|r.out| - 1]) == lines
  {
    RouteRetr(s, c, env, files);
    var md := s.mailData[MessageIndex(c.args[0])];
    var lines := files[Join(s.emailDir, md.name)];
    var out := Dispatch(s, c, env, files).out;
    assert out == [OkLine(IntToString(md.totalSize) + " octets")] + Stuff(lines) + [Terminator];
    assert out[1..|out| - 1] == Stuff(lines);
    UnstuffStuff(lines);
  }

  /** RETR or TOP of a listed message whose file cannot be opened: the error
      line, then the size line and the terminator, since the code goes on
      reading from the file it failed to open. */
  lemma {:induction false} OpenFailure(s: SessionValue, c: Command, env: Env, files: map<string, seq<string>>)
    requires s.state == StateTransaction && (c.name == "RETR" || (c.name == "TOP" && |c.args| >= 2))
    requires c.args != [] && 0 <= MessageIndex(c.args[0]) < |s.mailData| && MessageIndex(c.args[0]) !in s.deleted
    requires Join(s.emailDir, s.mailData[MessageIndex(c.args[0])].name) !in files
    ensures var md := s.mailData[MessageIndex(c.args[0])];
            Dispatch(s, c, env, files)
            == Same(s, [ErrLine("failed to open email " + md.name), OkLine(IntToString(md.totalSize) + " octets"), Terminator])
  {
    if c.name == "RETR" {
      RouteRetr(s, c, env, files);
    } else {
      RouteTop(s, c, env, files);
    }
  }

  /** TOP of a listed message whose file has headers h, an empty line and a
      body b: the body part sent is a prefix of RETR's, and all of RETR's when
      the line count covers every body line. */
  lemma {:induction false} TopAgainstRetr(s: SessionValue, c: Command, c2: Command, env: Env, files: map<string, seq<string>>,
                       h: seq<string>, b: seq<string>)
    requires s.state == StateTransaction && c.name == "TOP" && |c.args| >= 2
    requires c2 == Command("RETR", c.args[..1])
    requires 0 <= MessageIndex(c.args[0]) < |s.mailData| && MessageIndex(c.args[0]) !in s.deleted
    requires Join(s.emailDir, s.mailData[MessageIndex(c.args[0])].name) in files
    requires files[Join(s.emailDir, s.mailData[MessageIndex(c.args[0])].name)] == h + [""] + b
    requires forall i :: 0 <= i < |h| ==> h[i] != ""
    ensures var top := Dispatch(s, c, env, files).out;
            var retr := Dispatch(s, c2, env, files).out;
            |top| <= |retr| && top[..|top| - 1] == retr[..|top| - 1] && top[|top| - 1] == Terminator
            && (Atoi(c.args[1]) >= CountCounted(b) ==> top == retr)
  {
    var id := MessageIndex(c.args[0]);
    var path := Join(s.emailDir, s.mailData[id].name);
    var lines := h + [""] + b;
    RouteTop(s, c, env, files);
    RouteRetr(s, c2, env, files);
    var size := OkLine(IntToString(s.mailData[id].totalSize) + " octets");
    var t := Top(lines, Atoi(c.args[1]));
    assert Dispatch(s, c, env, files).out == [size] + t + [Terminator];
    assert Dispatch(s, c2, env, files).out == [size] + Stuff(lines) + [Terminator];
    TopPrefixOfRetr(h, b, Atoi(c.args[1]));
    if Atoi(c.args[1]) >= CountCounted(b) {
      TopWhole(h, b, Atoi(c.args[1]));
    }
  }

  // ---------------------------------------------------------------------
  // QUIT and whole connections

  /** "DELE 0" passes the checks and marks position -1; the QUIT that follows
      then indexes the snapshot at -1 while committing and the process
      panics. */
  lemma {:induction false} DeleZeroThenQuitCrashes(s: SessionValue, d: Command, q: Command, env: Env, files: map<string, seq<string>>)
    requires s.state == StateTransaction && -1 !in s.deleted
    requires d == Command("DELE", ["0"]) && q.name == "QUIT"
    ensures var s' := Dispatch(s, d, env, files).next;
            -1 in s'.deleted && Dispatch(s', q, env, files).outcome == Crash
  {
    ZeroIsBelowRange("0");
    DeleMarks(s, d, env, files);
  }

  /** A connection commits deletions only if some line it reads is QUIT; a
      connection whose input runs out without one ends without touching the
      mail directory. */
  lemma {:induction false} NoQuitNoCommit(s: SessionValue, inputs: seq<string>, env: Env, files: map<string, seq<string>>)
    requires forall i :: 0 <= i < |inputs| ==> GetCommand(inputs[i]).name != "QUIT"
    ensures !Run(s, inputs, env, files).commits
    decreases |inputs|
  {
    if inputs != [] {
      var r := Respond(s, Some(inputs[0]), env, files);
      if r.outcome == Continue {
        NoQuitNoCommit(r.next, inputs[1..], env, files + Writes(s, Some(inputs[0]), env));
      }
    }
  }

  /** Between turns a connection stays in a reachable state, and the state it
      ends in is UPDATE exactly when it commits. */
  lemma {:induction false} RunKeepsReachable(s: SessionValue, inputs: seq<string>, env: Env, files: map<string, seq<string>>)
    requires Reachable(s)
    ensures var r := Run(s, inputs, env, files);
            (r.commits || Reachable(r.next)) && (r.next.state == StateUpdate <==> r.commits)
    decreases |inputs|
  {
    if inputs != [] {
      var c := GetCommand(inputs[0]);
      DispatchKeepsReachable(s, c, env, files);
      var r := Respond(s, Some(inputs[0]), env, files);
      if r.outcome == Continue {
        RunKeepsReachable(r.next, inputs[1..], env, files + Writes(s, Some(inputs[0]), env));
      }
    }
  }

  /** The turns of a session remove no file: only the commit does. */
  lemma {:induction false} RunFilesKeep(s: SessionValue, inputs: seq<string>, env: Env, files: map<string, seq<string>>)
    ensures var f := RunFiles(s, inputs, env, files);
            files.Keys <= f.Keys
    decreases |inputs|
  {
    if inputs != [] {
      var r := Respond(s, Some(inputs[0]), env, files);
      var f := files + Writes(s, Some(inputs[0]), env);
      if r.outcome == Continue {
        RunFilesKeep(r.next, inputs[1..], env, f);
      }
    }
  }

  /** A connection that sends no USER line leaves the files as they were
      until its commit. */
  lemma {:induction false} NoUserNoWrites(s: SessionValue, inputs: seq<string>, env: Env, files: map<string, seq<string>>)
    requires forall i :: 0 <= i < |inputs| ==> GetCommand(inputs[i]).name != "USER"
    ensures RunFiles(s, inputs, env, files) == files
    decreases |inputs|
  {
    if inputs != [] {
      var r := Respond(s, Some(inputs[0]), env, files);
      assert files + map[] == files;
      if r.outcome == Continue {
        NoUserNoWrites(r.next, inputs[1..], env, files);
      }
    }
  }

  /** USER with a name in UNAUTHORIZED writes the download's files, whatever
      the download's outcome, and they are what the following turns read. */
  lemma {:induction false} UserWritesDownload(s: SessionValue, line: string, rest: seq<string>, env: Env,
                                              files: map<string, seq<string>>)
    requires s.state == StateUnauthorized
    requires GetCommand(line).name == "USER" && GetCommand(line).args != []
    ensures var sync := env.sync(GetCommand(line).args[0]);
            var r := Respond(s, Some(line), env, files);
            r.outcome == Continue ==>
              Run(s, [line] + rest, env, files)
              == Run(r.next, rest, env, files + sync.written).(out := r.out + Run(r.next, rest, env, files + sync.written).out)
  {
    RunTurn(s, [line] + rest, env, files);
    assert ([line] + rest)[1..] == rest;
  }
}
