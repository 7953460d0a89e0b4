# s3pop-server core, modelled in Dafny

s3pop-server is a POP3 server whose mailboxes live in an S3 bucket. When a
user signs in, the server syncs that user's folder in the bucket into a
local mail directory. It then serves the messages over POP3. This project
models and proves the three parts of the server that hold its logic:

- **The POP3 session engine** (`handleClient` in server.go). It is the
  `Server.Session` class:
  - the fields `state`, `emailDir`, `mailData` and `deleted`;
  - one method per command;
  - `Step` for one turn of the read loop;
  - `HandleClient` for a whole connection.

  The wire output is a list of lines, each sent followed by CRLF. Every
  method is proved equal to a pure specification: `Dispatch` for one turn,
  `Run` for a connection. Module `SessionProperties` proves what POP3
  clients rely on:
  - which command is accepted in which state;
  - the checks on message numbers;
  - deletion marks, and how they are committed at QUIT;
  - the shape of LIST and UIDL output;
  - the RETR byte-stuffing round trip;
  - TOP against RETR.
- **The session helpers** (mailaccess.go):
  - module `MailAccess`: tokenising a command line, picking arguments, the
    status lines, the STAT loop, and building the message snapshot from a
    directory walk;
  - module `Commit`: the loop that deletes the marked messages at QUIT,
    over a `Disk` class that maps file paths to their lines;
  - module `Framing`: the RETR and TOP emission loops, and their
    specifications `Stuff` and `Top`.
- **The mailbox synchroniser** (backend/backend.go). It is module `Backend`:
  - the `Index` class, with its two maps filled from the index file;
  - the `MailDir` class: index file, raw messages and metadata records;
  - `GetNextID`, `SplitEmail`, `CalcPartSizeBytes` and `ProcessEmail`;
  - `DownloadEmails`, whose loop is proved against the spec functions
    `Plan`, `Downloads`, `Appended`, `Stored` and `Recorded`.

  Module `SyncProperties` proves what the sync promises across its loop
  and across runs. These properties include:
  - which keys are fetched, and that each name is fetched only once;
  - that a failed run can be resumed;
  - that numbers rise within one run.

The model follows the code, including where the code differs from POP3
(RFC 1939) or from what its own comments promise:

- **Command matching.** Command words must match exactly, including case.
- **PASS.** The server accepts PASS without a prior USER.
- **Dot-stuffing.** A message line "." is sent as an empty line followed by
  ".". RFC 1939 instead doubles a leading dot.
- **QUIT.** QUIT sends no reply.
- **DELE.** DELE replies "+OK" with no text.
- **Message numbers.** The argument is read with `strconv.Atoi`, whose error
  is dropped, and only the upper bound is checked. So "0", a negative number
  or a word selects a position below 0 (-1 for "0" or a word, -6 for "-5"):
  - LIST, UIDL, TOP and RETR then crash the process (a Go index panic);
  - DELE marks that position, and the QUIT that follows crashes while
    committing.

  RFC 1939 (section 6) expects the UPDATE state to remove the marked
  messages; here one bad DELE ends the process instead. The model states the
  crash (`NonPositiveNumberCrashes`, `DeleZeroThenQuitCrashes`). A word that
  starts with more digits than fit in 64 bits is the exception: `Atoi`
  saturates it to the largest int64 whatever follows, so it is "no such
  message" (`AtoiOverflowSaturates`).
- **User names.** The user's directory is `filepath.Join(home, ".email",
  user)`. Join drops an empty name and cleans "." and "..", so "USER .."
  points the session at the home directory itself, outside `~/.email`
  (`EmailDir`).
- **Downloads during a session.** USER runs the download before it loads the
  snapshot. The files it writes (raw messages, metadata records, index
  lines) stay even when it fails, and later RETR and TOP read them. The
  commit at QUIT is the only other change to the mail directory
  (`Session.Step`, `HandleClient`).
- **Message IDs.** A comment on `loadIndex` (backend/backend.go:47) says the
  index keeps the IDs of every message ever seen. But the numbering does
  reuse one:
  - `loadIndex` numbers index lines from 0;
  - `getNextID` returns 1 for an empty map;
  - so after a first run from an empty index and a restart, the next new
    message gets the same number as the last message of the first run.

  `SyncProperties.NumberReusedAfterReload` proves this. The number is only
  written to the metadata record, and the session engine never reads it. So
  clients cannot see the reuse.

## Model

| member | source | states |
|---|---|---|
| Common.Atoi | server.go:155 | `strconv.Atoi` with its error dropped: the result is a 64-bit int; a leading digit run past the uint64 range saturates at the bound of its sign whatever follows; otherwise anything that is not an optional sign followed by digits gives 0 |
| Common.DigitEnd | server.go:155 | the end of the digit run `ParseUint` reads before it meets a non-digit |
| Common.AtoiOverflowSaturates | server.go:155-158 | a digit run past the uint64 range followed by junk reads as MaxInt64 (MinInt64 with a minus sign), so its message position is MaxInt64 - 1, past any snapshot |
| Common.Clamp64 | server.go:155 | an out-of-range number saturates at the nearest int64 bound; an in-range one is kept |
| Common.Decrement64 | server.go:156 | `id--` on a Go int: one less, except that the smallest int64 wraps to the largest |
| Common.IntToString | server.go:149 | `strconv.Itoa` gives a non-empty string: digits, or "-" and digits for a negative number |
| Common.NatToStringValue | server.go:149 | the digits printed for a number read back as that number |
| Common.AtoiNatToString | server.go:155 | `Atoi` of a printed int64 number gives back the number |
| Common.MessageIndexNegative | server.go:155-157 | the derived position is negative exactly when the argument reads as a number ≤ 0 (other than the most negative) |
| Common.MessageIndexOfPrinted | server.go:165 | message number k, as the server prints it, selects position k-1 |
| Common.StripTrailingSlashesSpec | backend/backend.go:136 | stripping only removes trailing slashes, and what remains is a prefix that does not end in a slash |
| Common.Base | backend/backend.go:136 | `path.Base` is never empty |
| Common.BaseOfJoin | mailaccess.go:38 | the base of a file path inside a directory is the file's name |
| Common.Ext | mailaccess.go:37 | `filepath.Ext` is empty or starts with a dot, and is a suffix of the path |
| Common.ExtDotAt | mailaccess.go:37 | the extension starts at the last dot that has no dot or slash after it |
| Common.Pick | mailaccess.go:92 | one step of Go's map iteration returns some key of the map |
| MailAccess.TrimStart | mailaccess.go:66 | the first position at or after k that is not CR, space or LF |
| MailAccess.TrimEnd | mailaccess.go:66 | the end after trailing CR, space and LF characters are dropped |
| MailAccess.Trim | mailaccess.go:66 | `strings.Trim(line, "\r \n")` is the contiguous piece of the line between its leading and trailing blanks, and neither of its ends is blank |
| MailAccess.TrimUnchanged | mailaccess.go:66 | a line with no blank at either end is left unchanged |
| MailAccess.SpaceAt | mailaccess.go:67 | the first space at or after k, or the end |
| MailAccess.Split | mailaccess.go:67 | `strings.Split(s, " ")` gives at least one piece, and no piece contains a space |
| MailAccess.JoinSplit | mailaccess.go:67 | joining the pieces with single spaces gives back the string |
| MailAccess.SplitJoin | mailaccess.go:67 | splitting space-free words joined by single spaces gives back the words |
| MailAccess.GetCommand | mailaccess.go:65-69 | the command word and the arguments, joined with single spaces, give back the trimmed line; none of them contains a space |
| MailAccess.GetCommandOfWords | mailaccess.go:65-69 | a command word and space-free arguments, sent as one line, parse back into that command and those arguments |
| MailAccess.GetSafeArg | mailaccess.go:70-75 | the i-th argument exists exactly when i < the number of arguments, and then it is `args[i]` |
| MailAccess.OkLine | mailaccess.go:77-78 | the positive status line is "+OK " followed by the message |
| MailAccess.ErrLine | mailaccess.go:84-85 | the negative status line is "-ERR " followed by the message |
| MailAccess.StatusLinesDistinct | mailaccess.go:77-89 | a positive and a negative status line never coincide, and each gives back its message |
| MailAccess.WireOk | mailaccess.go:78 | `writeOKResponse` sends exactly "+OK " + msg + CRLF |
| MailAccess.WireErr | mailaccess.go:85 | `writeErrResponse` sends exactly "-ERR " + msg + CRLF |
| MailAccess.Live | mailaccess.go:55-58 | the positions it lists lie below n, and there are at most n of them |
| MailAccess.LiveExactly | mailaccess.go:55-58 | a position is listed exactly when it is below n and not marked; the list is strictly increasing |
| MailAccess.LiveMeasures | mailaccess.go:52-63 | the number of listed positions and the sum of their sizes equal the loop's count and size |
| MailAccess.GetStat | mailaccess.go:52-63 | the loop returns the number of non-deleted positions and the sum of their `TotalSize` |
| MailAccess.StatCountsAll | mailaccess.go:52-63 | with nothing marked, the count is the length of the snapshot |
| MailAccess.StatDelete | mailaccess.go:52-63 | marking one more position below n lowers the count by one and the size by that message's size |
| MailAccess.StatAfterDelete | mailaccess.go:52-63 | STAT after marking one more live message shows one message fewer and its size less |
| MailAccess.MetafileNamesComplete | mailaccess.go:35-42 | every walked regular file with extension ".json" contributes its base name |
| MailAccess.MetafileNames | mailaccess.go:35-42 | the names the walk callback collects: the base name of each regular ".json" file, in walk order (pinned by `MetafileNamesComplete`, `MetafileNamesSound` and `MetafileNamesAppend`) |
| MailAccess.MetafileNamesSound | mailaccess.go:35-42 | every collected name is the base name of such a file |
| MailAccess.MetafileNamesAppend | mailaccess.go:35-42 | names are collected in walk order |
| MailAccess.ExtOfSuffix | mailaccess.go:37 | a path ending in a dot-suffix with no other dot or slash has that suffix as its extension |
| MailAccess.SelectedIffJson | mailaccess.go:36-38 | a walked entry is kept exactly when it is a regular file whose path ends in ".json" |
| MailAccess.IndexFileNotSelected | mailaccess.go:36-38 | the synchroniser's `_email_index.txt` is never taken as metadata |
| MailAccess.LoadAll | mailaccess.go:44-48 | loading succeeds exactly when every name's metadata file exists; the result then holds one record per name, in order |
| MailAccess.GetMessageData | mailaccess.go:33-50 | the snapshot is the records of the walked ".json" files, in walk order, or a failure when one is missing |
| MailAccess.CollectMetafiles | mailaccess.go:35-42 | the walk callback collects the base names of the selected entries, in walk order |
| MailAccess.LoadMetadata | mailaccess.go:44-49 | the loading loop gives the records of all names in order, or a failure at the first missing file |
| Commit.RemovedByAnyOrder | mailaccess.go:92-101 | whatever order the marked positions are visited in, the removed files are the two files of each marked message |
| Commit.DeleteItems | mailaccess.go:91-103 | the commit visits each mark once and removes exactly the ".json" and raw files of the marked messages; it leaves every other file as it was; successes plus failures equal the number of marks; it panics exactly when a mark lies outside the snapshot |
| Commit.RemoveMessage | mailaccess.go:93-100 | both files of one message are removed, and success means the ".json" file existed |
| Commit.DistinctCount | mailaccess.go:92 | visiting each mark once visits as many positions as there are marks |
| Framing.StuffAppend | server.go:296-304 | stuffing works line by line, so it distributes over concatenation |
| Framing.Stuff | server.go:296-304 | the body RETR sends: each message line as is, except that a "." line is sent as an empty line and "." (`UnstuffStuff` inverts it) |
| Framing.StuffHead | server.go:298-299 | a stuffed body never starts with a bare "." |
| Framing.UnstuffStuff | server.go:296-304 | a reader that drops the empty line before each "." gets the message lines back |
| Framing.StuffDotPreceded | server.go:296-304 | every "." in the stuffed body directly follows an empty line |
| Framing.StuffKeepsDot | server.go:298-299 | a message line "." puts a "." line into the body, which a client that stops at the first "." line takes as the end |
| Framing.EmitRetr | server.go:295-305 | the RETR loop sends exactly the stuffed message |
| Framing.EmitTop | server.go:244-265 | the TOP loop, with its `inBody` and `bodyLinesRead` counters, sends exactly `Top(lines, limit)` |
| Framing.Top | server.go:244-265 | the body TOP sends: the headers, the empty line, and the stuffed body cut after the given number of body lines (`TopShape`, `CutCounts`, `TopPrefixOfRetr`) |
| Framing.Cut | server.go:255-259 | the body cut lies within the body and never falls just before a "." line |
| Framing.TopBody | server.go:247-262 | past the first empty line, TOP sends the stuffed body lines before the cut |
| Framing.CutCounts | server.go:255-259 | the cut keeps min(limit, number of non-"." body lines) counted lines, and all of the body when the limit covers it |
| Framing.TopHeaders | server.go:249-262 | header lines (before the first empty line) are sent in full whatever the limit |
| Framing.TopShape | server.go:244-265 | TOP sends the headers, the empty line, then the stuffed body up to the cut |
| Framing.TopNoBody | server.go:244-265 | a message with no empty line is sent in full |
| Framing.StuffMessage | server.go:296-304 | stuffing a message is stuffing its headers, the empty line and its body |
| Framing.TopWhole | server.go:244-265 | with a limit at least the number of counted body lines, TOP sends all that RETR sends |
| Framing.TopPrefixOfRetr | server.go:244-265 | what TOP sends is a prefix of what RETR sends |
| Server.CheckArg | server.go:155-164 | a position ≥ the snapshot length is "no such message"; otherwise a marked one is "deleted"; otherwise the position is taken, with no lower bound |
| Server.EmailDir | mailutils/mailutils.go:66-84 | `GetEmailDir`: a plain user name gives a directory named after the user; an empty name or "." gives `~/.email` itself; ".." gives the home directory |
| Server.MessageBody | server.go:237-305 | the reply of TOP and RETR for a target message: the size line, the body and "."; if the file cannot be opened, "-ERR failed to open email", the size line and "." (`OpenFailure`) |
| Server.UserReply | server.go:125-139 | USER keeps the state and the marks and never commits |
| Server.ListReply | server.go:151-178 | LIST changes nothing and never closes the connection |
| Server.UidlReply | server.go:180-208 | UIDL changes nothing and never closes the connection |
| Server.TopReply | server.go:210-266 | TOP changes nothing and never closes the connection |
| Server.RetrReply | server.go:268-306 | RETR changes nothing and never closes the connection |
| Server.DeleReply | server.go:308-327 | DELE can only add marks, changes nothing else and always continues |
| Server.Dispatch | server.go:125-341 | a turn commits exactly on QUIT in TRANSACTION; that turn moves to UPDATE, sends nothing and ends the session |
| Server.EmitListing | server.go:171-177 | the LIST/UIDL loop sends one entry per non-deleted position, in increasing order |
| Server.Listing | server.go:167-177 | the LIST/UIDL entries: "number size" or "number name" per non-deleted position, in increasing order (`ListingEntries`, `ListAll`, `UidlAll`) |
| Server.Writes | server.go:125-139 | the files a turn writes: those of USER's download when USER with a name is accepted in UNAUTHORIZED, none otherwise |
| Server.Respond | server.go:104-111 | one turn of the read loop: a read error closes the connection; a line is tokenised and dispatched |
| Server.Run | server.go:102-342 | a whole connection: turns until one ends the session or the input runs out; each turn sees the files the earlier downloads left (`RunTurn`, `RunKeepsReachable`, `NoQuitNoCommit`) |
| Server.RunFiles | server.go:102-342 | the files as a connection's turns leave them before any commit (`RunFilesKeep`, `NoUserNoWrites`) |
| Server.Session.constructor | server.go:93-97 | a session starts UNAUTHORIZED with no directory, no snapshot and no marks |
| Server.Session.User | server.go:125-139 | the USER branch updates the session and replies as `UserReply` says; the download's files are written into the mail directory whatever its outcome |
| Server.Session.List | server.go:151-178 | the LIST branch, with `getStat` and the listing loop, replies as `ListReply` says |
| Server.Session.Uidl | server.go:180-208 | the UIDL branch replies as `UidlReply` says |
| Server.Session.TopCommand | server.go:210-266 | the TOP branch, with its emission loop, replies as `TopReply` says |
| Server.Session.Retr | server.go:268-306 | the RETR branch, with its emission loop, replies as `RetrReply` says |
| Server.Session.Dele | server.go:308-327 | the DELE branch updates the marks as `DeleReply` says |
| Server.Session.Handle | server.go:125-341 | every command but QUIT updates the session and replies as `Dispatch` says, never commits, and changes files only by USER's download |
| Server.Session.Query | server.go:147-306 | STAT, LIST, UIDL, TOP and RETR in TRANSACTION reply as `Dispatch` says and leave the session unchanged |
| Server.Session.Quit | server.go:333-338 | QUIT in TRANSACTION enters UPDATE and removes exactly the marked messages' files; in any other state no file changes; no file's content changes |
| Server.Session.Step | server.go:104-111 | one turn of the read loop updates the session, replies and ends as `Respond` says; a turn that does not commit changes the files only by its USER download (`Writes`); a committing turn downloads nothing and only removes the marked messages' files |
| Server.HandleClient | server.go:90-343 | the connection sends the greeting and then the output of `Run` on its input lines; it always ends; the mail directory ends as the session's downloads leave it (`RunFiles`), less the marked messages' files when `Run` commits |
| Server.RunTurn | server.go:102-111 | a turn that ends the session is the whole run; a turn that continues is followed by the run of the remaining lines over the files its download left |
| Server.QuitReply | server.go:333-338 | the QUIT reply depends only on the session, and commits exactly in TRANSACTION |
| SessionProperties.Unrecognised | server.go:339-341 | an unknown word, or a known word in a state whose branch does not accept it, gets "-ERR Unrecognised Command" and changes nothing |
| SessionProperties.DispatchKeepsReachable | server.go:125-341 | between turns a session is UNAUTHORIZED with no marks, or TRANSACTION; it never signs out; it reaches UPDATE only by committing |
| SessionProperties.QueryKeeps | server.go:147-306 | the read-only commands leave the session unchanged and never commit |
| SessionProperties.UserOutcomes | server.go:125-139 | USER without a name is refused; otherwise the directory is set first; a failed download is reported and the snapshot kept; a successful one loads the snapshot, or crashes when a metadata file is missing; the state stays UNAUTHORIZED |
| SessionProperties.PassSignsIn | server.go:141-145 | PASS in UNAUTHORIZED always signs in with no marks, with or without a prior USER |
| SessionProperties.NumberRefused | server.go:155-164 | LIST, UIDL, TOP, RETR and DELE refuse a number past the snapshot ("no such message") or a marked one ("message deleted", or "message already deleted" for DELE), and change nothing |
| SessionProperties.NonPositiveNumberCrashes | server.go:155-165 | an unmarked number ≤ 0 passes the checks of LIST, UIDL, TOP and RETR, and indexing the snapshot with it crashes the process |
| SessionProperties.ZeroIsBelowRange | server.go:155-156 | the argument "0", and any word that does not start with a digit run past the uint64 range, select position -1 |
| SessionProperties.DeleMarks | server.go:308-327 | DELE of an unmarked number within the bound marks exactly that position and replies "+OK" |
| SessionProperties.DeleThenRefused | server.go:318-321 | after a successful DELE, every numbered command on the same number is refused as deleted |
| SessionProperties.DeleThenStat | server.go:147-149 | after a successful DELE, STAT counts one message fewer and that message's size less |
| SessionProperties.RsetAndNoop | server.go:328-332 | RSET clears the marks in any state; NOOP changes nothing; both reply "+OK " |
| SessionProperties.DeleThenRset | server.go:328-330 | DELE followed by RSET gives back the session as it was before, when nothing was marked |
| SessionProperties.ListingEntries | server.go:171-176 | the listing has one entry per non-deleted position, in increasing order |
| SessionProperties.Framed | server.go:167-178 | a multi-line listing is the status line, one entry per non-deleted position, then the terminator |
| SessionProperties.Between | server.go:167-178 | the entries of a framed listing sit between its first and last line |
| SessionProperties.ListAll | server.go:167-178 | LIST with no argument: a summary whose count is the number of entries that follow; then "number size" per non-deleted message in increasing order; then "." |
| SessionProperties.UidlAll | server.go:198-208 | UIDL with no argument: "+OK "; then "number name" per non-deleted message in increasing order; then "." |
| SessionProperties.RetrRoundTrip | server.go:268-306 | RETR of a listed message sends the size line, the stuffed lines and "."; un-stuffing the middle gives back the file's lines |
| SessionProperties.OpenFailure | server.go:237-305 | RETR or TOP of a listed message whose file is missing replies "-ERR failed to open email" with the name, then the size line and ".", and changes nothing |
| SessionProperties.TopAgainstRetr | server.go:210-266 | TOP sends a prefix of what RETR sends for the same message, then "."; it sends all of it when the count covers the body |
| SessionProperties.DeleZeroThenQuitCrashes | server.go:308-338 | "DELE 0" marks position -1, and the QUIT that follows crashes while committing |
| SessionProperties.NoQuitNoCommit | server.go:104-107 | a connection that never reads QUIT commits nothing; a read error ends it without committing |
| SessionProperties.RunKeepsReachable | server.go:102-342 | over a whole connection the session stays in a reachable state, and it ends in UPDATE exactly when it commits |
| SessionProperties.RunFilesKeep | server.go:102-342 | the turns of a connection remove no file; only the commit does |
| SessionProperties.NoUserNoWrites | server.go:125-139 | a connection with no USER line leaves the files as they were until the commit |
| SessionProperties.UserWritesDownload | server.go:125-139 | after an accepted USER with a name, the rest of the connection runs over the files plus those the download wrote, even when the download failed |
| Backend.ByIndexOf | backend/backend.go:65-74 | after loading, the keys of `filesByIndex` are exactly the line positions 0 .. count-1 |
| Backend.ByNameOf | backend/backend.go:66-74 | after loading, `filesByName` holds exactly the index's names, each under its last line's position |
| Backend.LoadStep | backend/backend.go:66-74 | loading one more line files its record under its position and under its name |
| Backend.LoadIndex | backend/backend.go:49-77 | a missing index file gives two empty maps; otherwise line i becomes record (i, line) under key i and under the line |
| Backend.Index.constructor | backend/backend.go:50-51 | both maps start empty |
| Backend.Index.Append | backend/backend.go:80-103 | appends exactly the name as a new index line (creating the file when missing); files one record under the next number and under the name; nothing else changes |
| Backend.GetNextID | backend/backend.go:105-113 | the result is ≥ 1 and above every key; it is 1 or one more than an existing key |
| Backend.NextIDUnique | backend/backend.go:105-113 | those properties fix the next number |
| Backend.NextAfterLoad | backend/backend.go:65-73 | after loading `count` lines and giving out j numbers, the next number is j more than the start number (`count`, or 1 for an empty index) |
| Backend.SplitEmail | backend/backend.go:168-193 | headers followed by body is the message; headers hold no empty line; the body is empty or starts with the empty separator line |
| Backend.FirstEmpty | backend/backend.go:180-184 | the position of the first empty line, or the number of lines |
| Backend.SplitUnique | backend/backend.go:168-193 | any split with those properties cuts at the first empty line |
| Backend.CalcPartSizeBytes | backend/backend.go:195-201 | the loop sums each line's length plus 2 |
| Backend.PartSizeAppend | backend/backend.go:195-201 | part sizes add up over concatenation |
| Backend.RecordSizes | backend/backend.go:152-166 | the saved `TotalSize` is `HeaderSize + MessageSize`, the size of the whole message; the record holds the given number and name and is unread |
| Backend.Record | backend/backend.go:152-166 | the record `processEmail` saves: the given number and name, the size of the lines before the first empty line, the size of the rest, their sum, unread (`RecordSizes`) |
| Backend.ProcessEmail | backend/backend.go:152-166 | saves the record of the split message under its name; nothing else changes |
| Backend.Names | backend/backend.go:136 | one name per key: the key's `path.Base` |
| Backend.Plan | backend/backend.go:135-138 | the keys the loop downloads, in listing order: each listed key whose base name is neither in the index nor planned already (`PlanNew`, `PlanDistinct`, `PlanCovers`, `PlanFromListing`) |
| Backend.Downloads | backend/backend.go:141-144 | the leading planned keys whose download succeeds; the next one, if any, fails |
| Backend.DownloadEmails | backend/backend.go:115-150 | a listing error returns it and touches nothing. Otherwise the planned keys are handled in order, up to the first failed download, whose error is returned. Each handled key's name is appended to the index, its message stored, and its record saved under numbers counted up from the start number |
| Backend.SyncKeys | backend/backend.go:133-149 | the listing loop over the loaded index has the effect `DownloadEmails` states |
| Backend.Visit | backend/backend.go:136-147 | one pass skips a known name; otherwise it downloads and takes the key, or stops with the download's error at exactly the plan's first failure |
| Backend.Take | backend/backend.go:145-146 | a new key's message is stored and its record saved under the number that `appendIndex` then files it under |
| Backend.PlanStep | backend/backend.go:136-138 | the plan grows by the next listed key exactly when its name is neither known nor already planned |
| Backend.PlanStops | backend/backend.go:141-143 | a failed download of the next planned key ends the downloads there |
| Backend.PlanPrefix | backend/backend.go:135-148 | the plan of a prefix of the listing is a prefix of the plan |
| SyncProperties.PlanFromListing | backend/backend.go:135 | every planned key comes from the listing |
| SyncProperties.PlanNew | backend/backend.go:137-138 | no planned key has a name the index knows |
| SyncProperties.PlanDistinct | backend/backend.go:137-146 | no two planned keys share a name, so a name repeated in the listing is downloaded once |
| SyncProperties.PlanCovers | backend/backend.go:135-147 | every listed key's name is known beforehand or planned |
| SyncProperties.PlanAllKnown | backend/backend.go:137-138 | nothing is planned when every listed name is known |
| SyncProperties.PlanResumes | backend/backend.go:133-147 | after a run that handled the first n planned keys, a second run with the same listing plans exactly the rest |
| SyncProperties.AppendedLines | backend/backend.go:94 | the index lines after a run are the old lines followed by the downloaded names |
| SyncProperties.RerunDownloadsRest | backend/backend.go:133-147 | rerunning with the same listing after a run that stopped at the n-th planned key downloads exactly the keys it did not reach |
| SyncProperties.RecordedIds | backend/backend.go:139-146 | the j-th handled key's record holds its name, number start + j (so numbers rise in listing order) and its sizes; other records are untouched |
| SyncProperties.IdsStep | backend/backend.go:145-146 | saving one more fresh name's record keeps both facts |
| SyncProperties.NumberAndLine | backend/backend.go:65-73 | the j-th downloaded name lands on index line count + j; its number is that line position, or one more when the index was empty |
| SyncProperties.NumberReusedAfterReload | backend/backend.go:105-113 | after a complete first run of m messages from an empty index, the last one holds number m, and after reloading the next new message is also given m |
| SyncProperties.FailedNotIndexed | backend/backend.go:141-146 | after a failure at the n-th planned key, the index holds the names before it, and neither its name nor any later planned name |
| SyncProperties.RerunAfterSuccess | backend/backend.go:133-138 | after a complete run, a rerun with the same listing plans nothing and leaves the index file as it is |

## Left out

- `main` and `loadConfig` (server.go:53-88) are not modelled. They cover the TCP listener, the JSON config, one goroutine per connection and `log.Fatal`. This is process setup and concurrency.
- Sessions run concurrently on one mail directory, with no lock. The model runs one session at a time.
- S3 is modelled as parameters. `getSession`, `ListObjects` and `downloadFile` become a `Listing` value and a per-key `fetch` function that returns the object's lines or an error. A failed download can leave a partial file on disk; that file is not modelled.
- USER's outside effects are modelled as the `Env` parameter. `GetEmailDir`'s home-directory lookup and `os.Mkdir` calls, and the sync of each user, come from there. A sync result holds the files the download wrote, then the download error or the directory walk and the parsed metadata files. Within a session these are not derived from `Backend.DownloadEmails`; module `Backend` states what that download writes. The walk's error callbacks and the walk's nil-info case are not modelled.
- Server.EmailDir: a user name that contains "/" is joined without cleaning. `filepath.Join` would also resolve the "." and ".." elements inside it, so "USER a/../../bob" leaves `~/.email`. The home directory is taken to be a clean path.
- Server.MessageBody, Commit.DeleteItems and Commit.RemoveMessage build a message's paths as `emailDir + "/" + name` (`Common.Join`) without cleaning. `filepath.Join` (mailaccess.go:93, server.go:237, 287) would clean them, so a record whose name is "", ".." or contains "/" (a hand-edited metadata file) names a different file in Go than in the model.
- MailAccess.LoadAll: the JSON decoding of the metadata files is not modelled. Those files are given already parsed, as a map from path to record; a file that is missing or does not parse makes `checkError` end the process (`Crash`). `MailData.Save` is modelled as an update of the `metadata` map of `MailDir`.
- Logging is not modelled: the command and argument echo (server.go:113-124), the `log` flag of the response writers, and the messages of `checkError`.
- Files are modelled as sequences of lines. `bufio.Scanner`'s token-size limit and its CR stripping are not modelled, and neither are lengths in bytes versus characters. Sizes count characters, which equals bytes for ASCII mail.
- Framing.EmitRetr, Framing.EmitTop, SessionProperties.RetrRoundTrip and SessionProperties.TopAgainstRetr take each message line as sent verbatim. The TOP and RETR loops pass the message lines to `Fprintf` as the format string (server.go:250, 253, 261, 299, 301), so a line containing `%` (for example URL-encoded `%20` in HTML mail) is garbled on the wire. This is not modelled; the LIST and UIDL entries use a fixed format and are exact.
- A name containing a newline, written to the index file, would later read back as two lines. This is not modelled.
- Backend.GetNextID does not model int overflow of `res + 1` at the largest int64 key. An index would need 2^63 lines to reach it.
- MailAccess.GetStat, MailAccess.LiveSize and Backend.CalcPartSizeBytes sum sizes as unbounded integers. Go's `int` sums (mailaccess.go:60, backend/backend.go:198) would wrap past 2^63 - 1 bytes, which no mailbox reaches.
- Backend.MailDir and Backend.DownloadEmails keep the index file, the raw messages and the `<name>.json` records as three separate maps. In Go they share one directory (backend/backend.go:52, 81, 141; mailutils/mailutils.go:44), so names can collide: a listed key whose base name is `x.json` is downloaded over the record of message `x`, and the next session's metadata load then fails and ends the process; a key named `_email_index.txt` overwrites the index, which `appendIndex` then extends. The model does not capture these collisions.
- Server.Session.Quit: the result counts of `deleteItems` are computed but unused, as in the code. The deferred `Close` calls are not modelled.

## Findings

None: the places where the code departs from RFC 1939 or from its own comments are listed above and modelled as the code behaves.
