/** The POP3 session engine (`handleClient` in server.go): one client
    connection, read line by line, answered according to the session state.
    Each sent line is followed by CRLF on the wire; the model lists the sent
    lines. */
module Server {
  import opened Common
  import opened MailAccess
  import opened Commit
  import opened Framing

  const StateUnauthorized: int := 1
  const StateTransaction: int := 2
  const StateUpdate: int := 3

  /** The line sent when a client connects. */
  const Greeting: string := "+OK S3 POP3 server: powered by Go"

  /** The line that ends a multi-line response. */
  const Terminator: string := "."

  /** The session's variables: the protocol state, the user's mail directory,
      the snapshot of message records and the positions marked deleted. */
  datatype SessionValue = SessionValue(state: int, emailDir: string, mailData: seq<MailData>, deleted: set<int>)

  const Initial: SessionValue := SessionValue(StateUnauthorized, "", [], {})

  /** How handling one line ends: the session goes on, the connection is
      closed, or the server process dies (a Go panic or a fatal log call). */
  datatype Outcome = Continue | Close | Crash

  /** The new session value, the lines sent, the outcome and whether the
      marked deletions are committed to the mail directory. */
  datatype Reply = Reply(next: SessionValue, out: seq<string>, outcome: Outcome, commits: bool)

  /** What the synchroniser and the directory walk produce for a user: the
      files the download wrote into the mail directory (raw messages,
      metadata records and the index file, each with its new lines), and
      then either the download error, or the walk of the user's directory
      and its parsed metadata files. */
  datatype SyncResult =
    | SyncFailed(err: string, written: map<string, seq<string>>)
    | Synced(walk: seq<WalkEntry>, metadata: map<string, MailData>, written: map<string, seq<string>>)

  /** The environment USER depends on: the home directory of the server's
      account and, per user name, the outcome of the S3 synchronisation. */
  datatype Env = Env(home: string, sync: string -> SyncResult)

  /** `GetEmailDir(user)`: `filepath.Join` of `~/.email` and the user name.
      Join drops an empty name and cleans "." and "..", so ".." names the
      home directory itself, outside `~/.email`. */
  function EmailDir(home: string, user: string): (r: string)
    ensures user != "" && user != "." && user != ".." && '/' !in user ==> Base(r) == user
    ensures user == "" || user == "." ==> Base(r) == ".email"
    ensures user == ".." ==> r == home
  {
    var dir := Join(home, ".email");
    BaseOfJoin(home, ".email");
    if user == "" || user == "." then dir
    else if user == ".." then home
    else if '/' in user then Join(dir, user)
    else
      BaseOfJoin(dir, user);
      Join(dir, user)
  }

  /** The result of checking a message-number argument. */
  datatype Check = NoSuchMessage | MarkedDeleted | Target(id: int)

  /** The argument is read with `strconv.Atoi` and decremented; only the upper
      bound is checked, then the deletion mark. */
  function CheckArg(s: SessionValue, arg: string): (c: Check)
    ensures c == NoSuchMessage <==> |s.mailData| <= MessageIndex(arg)
    ensures c == MarkedDeleted <==> MessageIndex(arg) < |s.mailData| && MessageIndex(arg) in s.deleted
    ensures c.Target? ==> c.id == MessageIndex(arg) && c.id < |s.mailData| && c.id !in s.deleted
  {
    var id := MessageIndex(arg);
    if |s.mailData| <= id then NoSuchMessage
    else if id in s.deleted then MarkedDeleted
    else Target(id)
  }

  function Same(s: SessionValue, out: seq<string>): Reply
  {
    Reply(s, out, Continue, false)
  }

  /** One listing line per non-deleted position below n, in increasing order:
      the message number and its size (LIST) or its name (UIDL). */
  function Listing(md: seq<MailData>, deleted: set<int>, n: nat, names: bool): seq<string>
    requires n <= |md|
  {
    if n == 0 then []
    else Listing(md, deleted, n - 1, names) + (if n - 1 in deleted then [] else [ListEntry(md, n - 1, names)])
  }

  function ListEntry(md: seq<MailData>, p: nat, names: bool): string
    requires p < |md|
  {
    IntToString(p + 1) + " " + (if names then md[p].name else IntToString(md[p].totalSize))
  }

  /** The STAT line: the count and total size of the non-deleted messages. */
  function StatLine(s: SessionValue): string
  {
    var ps := LivePositions(s.mailData, s.deleted);
    OkLine(NatToString(|ps|) + " " + IntToString(SizeOf(s.mailData, ps)))
  }

  function UserReply(s: SessionValue, args: seq<string>, env: Env): (r: Reply)
    ensures !r.commits && r.next.state == s.state && r.next.deleted == s.deleted
  {
    match GetSafeArg(args, 0)
    case None => Same(s, [ErrLine("No user name")])
    case Some(user) =>
      var s1 := s.(emailDir := EmailDir(env.home, user));
      match env.sync(user)
      case SyncFailed(err, _) => Same(s1, [ErrLine("Could not download emails: " + err)])
      case Synced(walk, metadata, _) =>
        match LoadAll(s1.emailDir, MetafileNames(walk), metadata)
        case None => Reply(s1, [], Crash, false)
        case Some(md) => Same(s1.(mailData := md), [OkLine("")])
  }

  function ListReply(s: SessionValue, args: seq<string>): (r: Reply)
    ensures r.next == s && !r.commits && r.outcome != Close
  {
    match GetSafeArg(args, 0)
    case Some(a) =>
      (match CheckArg(s, a)
       case NoSuchMessage => Same(s, [ErrLine("no such message")])
       case MarkedDeleted => Same(s, [ErrLine("message deleted")])
       case Target(id) =>
         if id < 0 then Reply(s, [], Crash, false)
         else Same(s, [OkLine(IntToString(id + 1) + " " + IntToString(s.mailData[id].totalSize))]))
    case None =>
      var ps := LivePositions(s.mailData, s.deleted);
      Same(s, [OkLine(NatToString(|ps|) + " messages (" + IntToString(SizeOf(s.mailData, ps)) + " octets)")]
              + Listing(s.mailData, s.deleted, |s.mailData|, false) + [Terminator])
  }

  function UidlReply(s: SessionValue, args: seq<string>): (r: Reply)
    ensures r.next == s && !r.commits && r.outcome != Close
  {
    match GetSafeArg(args, 0)
    case Some(a) =>
      (match CheckArg(s, a)
       case NoSuchMessage => Same(s, [ErrLine("no such message")])
       case MarkedDeleted => Same(s, [ErrLine("message deleted")])
       case Target(id) =>
         if id < 0 then Reply(s, [], Crash, false)
         else Same(s, [OkLine(IntToString(id + 1) + " " + s.mailData[id].name)]))
    case None =>
      Same(s, [OkLine("")] + Listing(s.mailData, s.deleted, |s.mailData|, true) + [Terminator])
  }

  /** The lines of the message file, or an open failure. After an open
      failure the code goes on reading the missing file, which yields no
      line, so the reply is the error, the size line and the terminator. */
  function MessageBody(s: SessionValue, id: nat, files: map<string, seq<string>>, body: seq<string> -> seq<string>)
    : seq<string>
    requires id < |s.mailData|
  {
    var md := s.mailData[id];
    var size := OkLine(IntToString(md.totalSize) + " octets");
    var path := Join(s.emailDir, md.name);
    if path in files then [size] + body(files[path]) + [Terminator]
    else [ErrLine("failed to open email " + md.name), size, Terminator]
  }

  function TopReply(s: SessionValue, args: seq<string>, files: map<string, seq<string>>): (r: Reply)
    ensures r.next == s && !r.commits && r.outcome != Close
  {
    match GetSafeArg(args, 0)
    case None => Same(s, [ErrLine("no message selected")])
    case Some(a) =>
      match CheckArg(s, a)
      case NoSuchMessage => Same(s, [ErrLine("no such message")])
      case MarkedDeleted => Same(s, [ErrLine("message deleted")])
      case Target(id) =>
        match GetSafeArg(args, 1)
        case None => Same(s, [ErrLine("no line argument supplied")])
        case Some(la) =>
          if id < 0 then Reply(s, [], Crash, false)
          else Same(s, MessageBody(s, id, files, lines => Top(lines, Atoi(la))))
  }

  function RetrReply(s: SessionValue, args: seq<string>, files: map<string, seq<string>>): (r: Reply)
    ensures r.next == s && !r.commits && r.outcome != Close
  {
    match GetSafeArg(args, 0)
    case None => Same(s, [ErrLine("no message selected")])
    case Some(a) =>
      match CheckArg(s, a)
      case NoSuchMessage => Same(s, [ErrLine("no such message")])
      case MarkedDeleted => Same(s, [ErrLine("message deleted")])
      case Target(id) =>
        if id < 0 then Reply(s, [], Crash, false)
        else Same(s, MessageBody(s, id, files, Stuff))
  }

  /** DELE marks the position; a negative position is marked too, since the
      map insertion does not index the snapshot. */
  function DeleReply(s: SessionValue, args: seq<string>): (r: Reply)
    ensures r.next.(deleted := s.deleted) == s && s.deleted <= r.next.deleted && !r.commits && r.outcome == Continue
  {
    match GetSafeArg(args, 0)
    case None => Same(s, [ErrLine("no message selected")])
    case Some(a) =>
      match CheckArg(s, a)
      case NoSuchMessage => Same(s, [ErrLine("no such message")])
      case MarkedDeleted => Same(s, [ErrLine("message already deleted")])
      case Target(id) => Same(s.(deleted := s.deleted + {id}), ["+OK"])
  }

  /** Whether committing the marks indexes outside the snapshot and panics. */
  predicate CommitPanics(s: SessionValue)
  {
    !(forall id :: id in s.deleted ==> 0 <= id < |s.mailData|)
  }

  /** The command words that only read the snapshot, answered in TRANSACTION. */
  const QueryCommands: set<string> := {"STAT", "LIST", "UIDL", "TOP", "RETR"}

  /** The command dispatch, in the order of the code's if/else chain. */
  function Dispatch(s: SessionValue, c: Command, env: Env, files: map<string, seq<string>>): (r: Reply)
    ensures r.commits <==> c.name == "QUIT" && s.state == StateTransaction
    ensures r.commits ==> r.next == s.(state := StateUpdate) && r.out == [] && r.outcome != Continue
  {
    var t := s.state == StateTransaction;
    if c.name == "USER" && s.state == StateUnauthorized then UserReply(s, c.args, env)
    else if c.name == "PASS" && s.state == StateUnauthorized then
      Same(s.(state := StateTransaction, deleted := {}), [OkLine("User signed in")])
    else if c.name == "STAT" && t then Same(s, [StatLine(s)])
    else if c.name == "LIST" && t then ListReply(s, c.args)
    else if c.name == "UIDL" && t then UidlReply(s, c.args)
    else if c.name == "TOP" && t then TopReply(s, c.args, files)
    else if c.name == "RETR" && t then RetrReply(s, c.args, files)
    else if c.name == "DELE" && t then DeleReply(s, c.args)
    else if c.name == "RSET" then Same(s.(deleted := {}), [OkLine("")])
    else if c.name == "NOOP" then Same(s, [OkLine("")])
    else if c.name == "QUIT" then
      if t then Reply(s.(state := StateUpdate), [], if CommitPanics(s) then Crash else Close, true)
      else Reply(s, [], Close, false)
    else Same(s, [ErrLine("Unrecognised Command")])
  }

  /** The files USER's download writes: none without a user name. */
  function UserWrites(args: seq<string>, env: Env): map<string, seq<string>>
  {
    match GetSafeArg(args, 0)
    case None => map[]
    case Some(user) => env.sync(user).written
  }

  /** The files a command writes before the session answers it: only USER,
      accepted in UNAUTHORIZED, downloads, and so writes to the mail directory. */
  function CommandWrites(s: SessionValue, c: Command, env: Env): map<string, seq<string>>
  {
    if c.name == "USER" && s.state == StateUnauthorized then UserWrites(c.args, env) else map[]
  }

  /** The files one turn of the session loop writes. */
  function Writes(s: SessionValue, line: Option<string>, env: Env): map<string, seq<string>>
  {
    match line
    case None => map[]
    case Some(l) => CommandWrites(s, GetCommand(l), env)
  }

  /** One turn of the session loop: a read error ends the session. */
  function Respond(s: SessionValue, line: Option<string>, env: Env, files: map<string, seq<string>>): Reply
  {
    match line
    case None => Reply(s, [], Close, false)
    case Some(l) => Dispatch(s, GetCommand(l), env, files)
  }

  /** The listing loop shared by LIST and UIDL. */
  method EmitListing(md: seq<MailData>, deleted: set<int>, names: bool) returns (out: seq<string>)
    ensures out == Listing(md, deleted, |md|, names)
  {
    out := [];
    var id := 0;
    while id < |md|
      invariant 0 <= id <= |md|
      invariant out == Listing(md, deleted, id, names)
    {
      if id !in deleted {
        out := out + [ListEntry(md, id, names)];
      }
      id := id + 1;
    }
  }

  /** The session variables of `handleClient`. */
  class Session {
    var state: int
    var emailDir: string
    var mailData: seq<MailData>
    var deleted: set<int>

    function Value(): SessionValue
      reads this
    {
      SessionValue(state, emailDir, mailData, deleted)
    }

    constructor ()
      ensures Value() == Initial
    {
      state := StateUnauthorized;
      emailDir := "";
      mailData := [];
      deleted := {};
    }

    /** USER: sets the mail directory, runs the download, which writes its
        files into the directory, then loads the snapshot. */
    method User(args: seq<string>, env: Env, disk: Disk) returns (out: seq<string>, outcome: Outcome)
      modifies this, disk
      ensures var r := UserReply(old(Value()), args, env);
              Value() == r.next && out == r.out && outcome == r.outcome
      ensures disk.files == old(disk.files) + UserWrites(args, env)
    {
      var user := GetSafeArg(args, 0);
      if user.None? {
        return [ErrLine("No user name")], Continue;
      }
      emailDir := EmailDir(env.home, user.value);
      var sync := env.sync(user.value);
      disk.files := disk.files + sync.written;
      match sync
      case SyncFailed(err, _) =>
        out, outcome := [ErrLine("Could not download emails: " + err)], Continue;
      case Synced(walk, metadata, _) =>
        var md := GetMessageData(emailDir, walk, metadata);
        if md.None? {
          return [], Crash;
        }
        mailData := md.value;
        out, outcome := [OkLine("")], Continue;
    }

    method List(args: seq<string>) returns (out: seq<string>, outcome: Outcome)
      ensures var r := ListReply(Value(), args); out == r.out && outcome == r.outcome
    {
      var arg := GetSafeArg(args, 0);
      if arg.Some? {
        var check := CheckArg(Value(), arg.value);
        match check
        case NoSuchMessage => out, outcome := [ErrLine("no such message")], Continue;
        case MarkedDeleted => out, outcome := [ErrLine("message deleted")], Continue;
        case Target(id) =>
          if id < 0 {
            return [], Crash;
          }
          out := [OkLine(IntToString(id + 1) + " " + IntToString(mailData[id].totalSize))];
          outcome := Continue;
      } else {
        var count, size := GetStat(mailData, deleted);
        var lines := EmitListing(mailData, deleted, false);
        out := [OkLine(NatToString(count) + " messages (" + IntToString(size) + " octets)")] + lines + [Terminator];
        outcome := Continue;
      }
    }

    method Uidl(args: seq<string>) returns (out: seq<string>, outcome: Outcome)
      ensures var r := UidlReply(Value(), args); out == r.out && outcome == r.outcome
    {
      var arg := GetSafeArg(args, 0);
      if arg.Some? {
        var check := CheckArg(Value(), arg.value);
        match check
        case NoSuchMessage => out, outcome := [ErrLine("no such message")], Continue;
        case MarkedDeleted => out, outcome := [ErrLine("message deleted")], Continue;
        case Target(id) =>
          if id < 0 {
            return [], Crash;
          }
          out := [OkLine(IntToString(id + 1) + " " + mailData[id].name)];
          outcome := Continue;
      } else {
        var lines := EmitListing(mailData, deleted, true);
        out := [OkLine("")] + lines + [Terminator];
        outcome := Continue;
      }
    }

    method TopCommand(args: seq<string>, files: map<string, seq<string>>) returns (out: seq<string>, outcome: Outcome)
      ensures var r := TopReply(Value(), args, files); out == r.out && outcome == r.outcome
    {
      var arg := GetSafeArg(args, 0);
      if arg.None? {
        return [ErrLine("no message selected")], Continue;
      }
      var check := CheckArg(Value(), arg.value);
      if check == NoSuchMessage {
        return [ErrLine("no such message")], Continue;
      }
      if check == MarkedDeleted {
        return [ErrLine("message deleted")], Continue;
      }
      var lineArg := GetSafeArg(args, 1);
      if lineArg.None? {
        return [ErrLine("no line argument supplied")], Continue;
      }
      var limit := Atoi(lineArg.value);
      var id := check.id;
      if id < 0 {
        return [], Crash;
      }
      var name := mailData[id].name;
      var path := Join(emailDir, name);
      var size := OkLine(IntToString(mailData[id].totalSize) + " octets");
      if path in files {
        var body := EmitTop(files[path], limit);
        out := [size] + body + [Terminator];
      } else {
        out := [ErrLine("failed to open email " + name), size, Terminator];
      }
      outcome := Continue;
    }

    method Retr(args: seq<string>, files: map<string, seq<string>>) returns (out: seq<string>, outcome: Outcome)
      ensures var r := RetrReply(Value(), args, files); out == r.out && outcome == r.outcome
    {
      var arg := GetSafeArg(args, 0);
      if arg.None? {
        return [ErrLine("no message selected")], Continue;
      }
      var check := CheckArg(Value(), arg.value);
      if check == NoSuchMessage {
        return [ErrLine("no such message")], Continue;
      }
      if check == MarkedDeleted {
        return [ErrLine("message deleted")], Continue;
      }
      var id := check.id;
      if id < 0 {
        return [], Crash;
      }
      var name := mailData[id].name;
      var path := Join(emailDir, name);
      var size := OkLine(IntToString(mailData[id].totalSize) + " octets");
      if path in files {
        var body := EmitRetr(files[path]);
        out := [size] + body + [Terminator];
      } else {
        out := [ErrLine("failed to open email " + name), size, Terminator];
      }
      outcome := Continue;
    }

    method Dele(args: seq<string>) returns (out: seq<string>)
      modifies this
      ensures var r := DeleReply(old(Value()), args); Value() == r.next && out == r.out
    {
      var arg := GetSafeArg(args, 0);
      if arg.None? {
        return [ErrLine("no message selected")];
      }
      var check := CheckArg(Value(), arg.value);
      match check
      case NoSuchMessage => out := [ErrLine("no such message")];
      case MarkedDeleted => out := [ErrLine("message already deleted")];
      case Target(id) =>
        deleted := deleted + {id};
        out := ["+OK"];
    }

    /** Every command but QUIT: answers it, and only USER's download writes files. */
    method Handle(c: Command, env: Env, disk: Disk) returns (out: seq<string>, outcome: Outcome)
      requires c.name != "QUIT"
      modifies this, disk
      ensures var r := Dispatch(old(Value()), c, env, old(disk.files));
              Value() == r.next && out == r.out && outcome == r.outcome && !r.commits
      ensures disk.files == old(disk.files) + CommandWrites(old(Value()), c, env)
    {
      outcome := Continue;
      if state == StateTransaction && c.name in QueryCommands {
        out, outcome := Query(c, env, disk.files);
      } else if c.name == "DELE" && state == StateTransaction {
        out := Dele(c.args);
      } else if c.name == "USER" && state == StateUnauthorized {
        out, outcome := User(c.args, env, disk);
      } else if c.name == "PASS" && state == StateUnauthorized {
        out := [OkLine("User signed in")];
        deleted := {};
        state := StateTransaction;
      } else if c.name == "RSET" {
        deleted := {};
        out := [OkLine("")];
      } else if c.name == "NOOP" {
        out := [OkLine("")];
      } else {
        out := [ErrLine("Unrecognised Command")];
      }
    }

    /** The commands that read the snapshot in TRANSACTION. */
    method Query(c: Command, env: Env, files: map<string, seq<string>>) returns (out: seq<string>, outcome: Outcome)
      requires state == StateTransaction && c.name in QueryCommands
      ensures var r := Dispatch(Value(), c, env, files);
              r.next == Value() && out == r.out && outcome == r.outcome && !r.commits
    {
      outcome := Continue;
      ghost var s := Value();
      if c.name == "STAT" {
        RouteStat(s, c, env, files);
        var count, size := GetStat(mailData, deleted);
        out := [OkLine(NatToString(count) + " " + IntToString(size))];
      } else if c.name == "LIST" {
        RouteList(s, c, env, files);
        out, outcome := List(c.args);
      } else if c.name == "UIDL" {
        RouteUidl(s, c, env, files);
        out, outcome := Uidl(c.args);
      } else if c.name == "TOP" {
        RouteTop(s, c, env, files);
        out, outcome := TopCommand(c.args, files);
      } else {
        RouteRetr(s, c, env, files);
        out, outcome := Retr(c.args, files);
      }
    }

    /** QUIT: in TRANSACTION, enters UPDATE and commits the deletions; in any
        state the connection is then closed. */
    method Quit(disk: Disk) returns (outcome: Outcome)
      modifies this, disk
      ensures var r := Dispatch(old(Value()), Command("QUIT", []), Env("", _ => SyncFailed("", map[])), map[]);
              Value() == r.next && r.out == [] && outcome == r.outcome
      ensures old(state) != StateTransaction ==> disk.files == old(disk.files)
      ensures old(state) == StateTransaction && outcome == Close ==>
                forall p :: p in disk.files <==> p in old(disk.files) && !Committed(old(emailDir), old(mailData), old(deleted), p)
      ensures forall p :: p in disk.files ==> p in old(disk.files) && disk.files[p] == old(disk.files)[p]
    {
      outcome := Close;
      if state == StateTransaction {
        state := StateUpdate;
        var succeeded, failed, panicked, order := DeleteItems(emailDir, mailData, deleted, disk);
        if panicked {
          outcome := Crash;
        }
      }
    }

    /** One turn of the session loop: reads a line (`None` is a read error),
        answers it, and at QUIT in TRANSACTION commits the deletions. The
        files change only by USER's download and by the commit. */
    method Step(line: Option<string>, env: Env, disk: Disk) returns (out: seq<string>, outcome: Outcome)
      modifies this, disk
      ensures var r := Respond(old(Value()), line, env, old(disk.files));
              Value() == r.next && out == r.out && outcome == r.outcome
      ensures var r := Respond(old(Value()), line, env, old(disk.files));
              !r.commits ==> disk.files == old(disk.files) + Writes(old(Value()), line, env)
      ensures var r := Respond(old(Value()), line, env, old(disk.files));
              r.commits ==> Writes(old(Value()), line, env) == map[]
      ensures Respond(old(Value()), line, env, old(disk.files)).commits && outcome == Close ==>
                forall p :: p in disk.files <==> p in old(disk.files) && !Committed(old(emailDir), old(mailData), old(deleted), p)
      ensures Respond(old(Value()), line, env, old(disk.files)).commits ==>
                forall p :: p in disk.files ==> p in old(disk.files) && disk.files[p] == old(disk.files)[p]
    {
      if line.None? {
        assert old(disk.files) + map[] == old(disk.files);
        return [], Close;
      }
      var c := GetCommand(line.value);
      if c.name == "QUIT" {
        QuitReply(Value(), c, env, disk.files);
        assert old(disk.files) + map[] == old(disk.files);
        outcome := Quit(disk);
        out := [];
      } else {
        out, outcome := Handle(c, env, disk);
      }
    }
  }

  /** A whole session from the given value over the remaining input lines: a
      turn that does not continue ends it, and so does the end of the input,
      which the reader reports as a read error. Each turn sees the files as
      the downloads of the earlier turns left them. */
  function Run(s: SessionValue, inputs: seq<string>, env: Env, files: map<string, seq<string>>): Reply
    decreases |inputs|
  {
    if inputs == [] then Respond(s, None, env, files)
    else
      var r := Respond(s, Some(inputs[0]), env, files);
      if r.outcome != Continue then r
      else
        var rest := Run(r.next, inputs[1..], env, files + Writes(s, Some(inputs[0]), env));
        rest.(out := r.out + rest.out)
  }

  /** The files as the turns of a session leave them, before any commit. */
  function RunFiles(s: SessionValue, inputs: seq<string>, env: Env, files: map<string, seq<string>>)
    : map<string, seq<string>>
    decreases |inputs|
  {
    if inputs == [] then files
    else
      var r := Respond(s, Some(inputs[0]), env, files);
      var f := files + Writes(s, Some(inputs[0]), env);
      if r.outcome != Continue then f
      else RunFiles(r.next, inputs[1..], env, f)
  }

  /** `handleClient`: sends the greeting, then answers input lines until a
      turn ends the session or the input runs out. The mail directory ends
      as the USER downloads of the session leave it, less the marked
      messages' files when the session commits. */
  method HandleClient(inputs: seq<string>, env: Env, disk: Disk) returns (out: seq<string>, outcome: Outcome)
    modifies disk
    ensures var r := Run(Initial, inputs, env, old(disk.files));
            out == [Greeting] + r.out && outcome == r.outcome && outcome != Continue
    ensures var r := Run(Initial, inputs, env, old(disk.files));
            !r.commits ==> disk.files == RunFiles(Initial, inputs, env, old(disk.files))
    ensures var r := Run(Initial, inputs, env, old(disk.files));
            var f := RunFiles(Initial, inputs, env, old(disk.files));
            r.commits && outcome == Close ==>
              forall p :: p in disk.files <==> p in f && !Committed(r.next.emailDir, r.next.mailData, r.next.deleted, p)
    ensures var f := RunFiles(Initial, inputs, env, old(disk.files));
            forall p :: p in disk.files ==> p in f && disk.files[p] == f[p]
  {
    var session := new Session();
    ghost var total := Run(Initial, inputs, env, disk.files);
    ghost var totalFiles := RunFiles(Initial, inputs, env, disk.files);
    out := [Greeting];
    var k := 0;
    while true
      invariant 0 <= k <= |inputs|
      invariant var r := Run(session.Value(), inputs[k..], env, disk.files);
                out + r.out == [Greeting] + total.out && r.outcome == total.outcome
                && r.commits == total.commits && r.next == total.next
      invariant RunFiles(session.Value(), inputs[k..], env, disk.files) == totalFiles
      decreases |inputs| - k
    {
      var line := if k < |inputs| then Some(inputs[k]) else None;
      ghost var s := session.Value();
      ghost var f := disk.files;
      RunTurn(s, inputs[k..], env, f);
      var turn;
      turn, outcome := session.Step(line, env, disk);
      if outcome != Continue {
        out := out + turn;
        return;
      }
      assert inputs[k..][1..] == inputs[k + 1..];
      out := out + turn;
      k := k + 1;
    }
  }

  /** How a session's first turn decides its whole run: a turn that ends the
      session is the run, and one that continues is followed by the run of
      the rest over the files it leaves. */
  lemma {:induction false} RunTurn(s: SessionValue, rest: seq<string>, env: Env, files: map<string, seq<string>>)
    ensures var line := if rest == [] then None else Some(rest[0]);
            var r := Respond(s, line, env, files);
            var f := files + Writes(s, line, env);
            && (r.outcome != Continue ==> Run(s, rest, env, files) == r && RunFiles(s, rest, env, files) == f)
            && (r.outcome == Continue ==>
                  && rest != []
                  && Run(s, rest, env, files) == Run(r.next, rest[1..], env, f).(out := r.out + Run(r.next, rest[1..], env, f).out)
                  && RunFiles(s, rest, env, files) == RunFiles(r.next, rest[1..], env, f))
  {
    if rest == [] {
      assert files + map[] == files;
    }
  }

  /** The QUIT reply depends only on the session value. */
  lemma {:induction false} QuitReply(s: SessionValue, c: Command, env: Env, files: map<string, seq<string>>)
    requires c.name == "QUIT"
    ensures Dispatch(s, c, env, files) == Dispatch(s, Command("QUIT", []), Env("", _ => SyncFailed("", map[])), map[])
    ensures Dispatch(s, c, env, files).commits <==> s.state == StateTransaction
  {
  }

  lemma {:induction false} RouteStat(s: SessionValue, c: Command, env: Env, files: map<string, seq<string>>)
    requires s.state == StateTransaction && c.name == "STAT"
    ensures Dispatch(s, c, env, files) == Same(s, [StatLine(s)])
  {
  }

  lemma {:induction false} RouteList(s: SessionValue, c: Command, env: Env, files: map<string, seq<string>>)
    requires s.state == StateTransaction && c.name == "LIST"
    ensures Dispatch(s, c, env, files) == ListReply(s, c.args)
  {
  }

  lemma {:induction false} RouteUidl(s: SessionValue, c: Command, env: Env, files: map<string, seq<string>>)
    requires s.state == StateTransaction && c.name == "UIDL"
    ensures Dispatch(s, c, env, files) == UidlReply(s, c.args)
  {
  }

  lemma {:induction false} RouteTop(s: SessionValue, c: Command, env: Env, files: map<string, seq<string>>)
    requires s.state == StateTransaction && c.name == "TOP"
    ensures Dispatch(s, c, env, files) == TopReply(s, c.args, files)
  {
  }

  lemma {:induction false} RouteRetr(s: SessionValue, c: Command, env: Env, files: map<string, seq<string>>)
    requires s.state == StateTransaction && c.name == "RETR"
    ensures Dispatch(s, c, env, files) == RetrReply(s, c.args, files)
  {
  }
}
