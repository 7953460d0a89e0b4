/** The multi-line bodies of RETR and TOP (server.go): a message is read as
    its lines, and each line is sent followed by CRLF. A line that is exactly
    "." is sent as an empty line and then ".", so the output is modelled as
    a sequence of sent lines. */
module Framing {

  /** What one message line becomes on the wire. */
  function StuffLine(l: string): seq<string>
  {
    if l == "." then ["", "."] else [l]
  }

  /** The RETR body: every message line, each "." preceded by an empty line. */
  function Stuff(lines: seq<string>): seq<string>
  {
    if lines == [] then [] else StuffLine(lines[0]) + Stuff(lines[1..])
  }

  /** Stuffing works line by line, so it distributes over concatenation. */
  lemma {:induction false} StuffAppend(a: seq<string>, b: seq<string>)
    ensures Stuff(a + b) == Stuff(a) + Stuff(b)
  {
    if a == [] {
      assert a + b == b;
    } else {
      assert (a + b)[1..] == a[1..] + b;
      StuffAppend(a[1..], b);
    }
  }

  /** The reader's side: an empty line directly before "." is dropped. */
  function Unstuff(out: seq<string>): seq<string>
  {
    if out == [] then []
    else if |out| >= 2 && out[0] == "" && out[1] == "." then ["."] + Unstuff(out[2..])
    else [out[0]] + Unstuff(out[1..])
  }

  /** A stuffed body never starts with a bare ".". */
  lemma {:induction false} StuffHead(lines: seq<string>)
    ensures Stuff(lines) != [] ==> Stuff(lines)[0] != "."
  {
  }

  /** Dropping the empty line before each "." gives back the message lines. */
  lemma {:induction false} UnstuffStuff(lines: seq<string>)
    ensures Unstuff(Stuff(lines)) == lines
  {
    if lines != [] {
      var rest := Stuff(lines[1..]);
      UnstuffStuff(lines[1..]);
      if lines[0] == "." {
        assert Stuff(lines) == ["", "."] + rest;
        assert (["", "."] + rest)[2..] == rest;
      } else {
        StuffHead(lines[1..]);
        assert Stuff(lines) == [lines[0]] + rest;
        assert ([lines[0]] + rest)[1..] == rest;
      }
    }
  }

  /** Every "." in a stuffed body comes directly after an empty line. */
  lemma {:induction false} StuffDotPreceded(lines: seq<string>)
    ensures var out := Stuff(lines);
            forall i :: 0 <= i < |out| && out[i] == "." ==> i > 0 && out[i - 1] == ""
  {
    if lines != [] {
      var rest := Stuff(lines[1..]);
      StuffDotPreceded(lines[1..]);
      StuffHead(lines[1..]);
      var head := StuffLine(lines[0]);
      assert Stuff(lines) == head + rest;
      forall i | 0 <= i < |head + rest| && (head + rest)[i] == "."
        ensures i > 0 && (head + rest)[i - 1] == ""
      {
        if i >= |head| {
          assert (head + rest)[i] == rest[i - |head|];
          if i > |head| {
            assert (head + rest)[i - 1] == rest[i - 1 - |head|];
          }
        }
      }
    }
  }

  /** A message line "." makes its stuffed body contain a "." line, which a
      reader that ends the body at the first "." line takes as the end. */
  lemma {:induction false} StuffKeepsDot(lines: seq<string>, k: nat)
    requires k < |lines| && lines[k] == "."
    ensures "." in Stuff(lines)
  {
    StuffAppend(lines[..k], lines[k..]);
    assert lines[..k] + lines[k..] == lines;
    assert Stuff(lines[k..]) == ["", "."] + Stuff(lines[k + 1..]);
  }

  /** The RETR emission loop. */
  method EmitRetr(lines: seq<string>) returns (out: seq<string>)
    ensures out == Stuff(lines)
  {
    out := [];
    var k := 0;
    while k < |lines|
      invariant 0 <= k <= |lines|
      invariant out + Stuff(lines[k..]) == Stuff(lines)
    {
      assert Stuff(lines[k..]) == StuffLine(lines[k]) + Stuff(lines[k + 1..]);
      if lines[k] == "." {
        out := out + ["", lines[k]];
      } else {
        out := out + [lines[k]];
      }
      k := k + 1;
    }
  }

  // ---------------------------------------------------------------------
  // TOP

  /** The TOP loop from some point on: `inBody` says whether the first empty
      line has been seen and `read` counts the body lines read so far. */
  function TopFrom(lines: seq<string>, inBody: bool, read: int, limit: int): seq<string>
  {
    if lines == [] then []
    else
      var l := lines[0];
      if l == "" && !inBody then [""] + TopFrom(lines[1..], true, read, limit)
      else if l == "." then ["", "."] + TopFrom(lines[1..], inBody, read, limit)
      else if inBody && read + 1 > limit then []
      else [l] + TopFrom(lines[1..], inBody, if inBody then read + 1 else read, limit)
  }

  /** The TOP body for a message and the requested number of lines. */
  function Top(lines: seq<string>, limit: int): seq<string>
  {
    TopFrom(lines, false, 0, limit)
  }

  /** The TOP emission loop. */
  method EmitTop(lines: seq<string>, limit: int) returns (out: seq<string>)
    ensures out == Top(lines, limit)
  {
    out := [];
    var bodyLinesRead := 0;
    var inBody := false;
    var k := 0;
    while k < |lines|
      invariant 0 <= k <= |lines|
      invariant out + TopFrom(lines[k..], inBody, bodyLinesRead, limit) == Top(lines, limit)
    {
      var line := lines[k];
      var rest := lines[k + 1..];
      assert lines[k..][1..] == rest;
      ghost var tail := TopFrom(lines[k..], inBody, bodyLinesRead, limit);
      if line == "" && !inBody {
        Regroup(out, [line], TopFrom(rest, true, bodyLinesRead, limit), tail);
        out := out + [line];
        inBody := true;
      } else if line == "." {
        Regroup(out, ["", line], TopFrom(rest, inBody, bodyLinesRead, limit), tail);
        out := out + ["", line];
      } else {
        if inBody {
          bodyLinesRead := bodyLinesRead + 1;
          if bodyLinesRead > limit {
            assert out + [] == out;
            return;
          }
        }
        Regroup(out, [line], TopFrom(rest, inBody, bodyLinesRead, limit), tail);
        out := out + [line];
      }
      k := k + 1;
    }
  }

  lemma {:induction false} Regroup(out: seq<string>, piece: seq<string>, rest: seq<string>, tail: seq<string>)
    requires tail == piece + rest
    ensures out + tail == (out + piece) + rest
  {
  }

  /** The number of lines of `b` that are not ".". */
  function CountCounted(b: seq<string>): nat
  {
    if b == [] then 0 else (if b[0] == "." then 0 else 1) + CountCounted(b[1..])
  }

  /** How many body lines TOP sends when m more lines may be counted: it
      stops at the first counted line beyond m; "." lines are never counted. */
  function Cut(b: seq<string>, m: int): (j: nat)
    ensures j <= |b|
    ensures j < |b| ==> b[j] != "."
  {
    if b == [] then 0
    else if b[0] == "." then 1 + Cut(b[1..], m)
    else if m <= 0 then 0
    else 1 + Cut(b[1..], m - 1)
  }

  /** In the body, TOP sends the stuffed lines before the cut. */
  lemma {:induction false} TopBody(b: seq<string>, read: int, limit: int)
    ensures TopFrom(b, true, read, limit) == Stuff(b[..Cut(b, limit - read)])
  {
    if b != [] {
      var j := Cut(b, limit - read);
      if b[0] == "." || limit - read > 0 {
        var read' := if b[0] == "." then read else read + 1;
        TopBody(b[1..], read', limit);
        assert j == 1 + Cut(b[1..], limit - read');
        assert TopFrom(b, true, read, limit) == StuffLine(b[0]) + TopFrom(b[1..], true, read', limit);
        StuffPrefix(b, j);
      } else {
        assert b[..j] == [];
      }
    }
  }

  /** Stuffing a non-empty prefix starts with its first line. */
  lemma {:induction false} StuffPrefix(b: seq<string>, j: nat)
    requires 1 <= j <= |b|
    ensures Stuff(b[..j]) == StuffLine(b[0]) + Stuff(b[1..][..j - 1])
  {
    var c := b[..j];
    assert c[0] == b[0] && c[1..] == b[1..][..j - 1];
  }

  /** The cut keeps as many counted lines as the limit allows, and all of the
      body when the limit covers it. */
  lemma {:induction false} CutCounts(b: seq<string>, m: int)
    ensures CountCounted(b[..Cut(b, m)]) == if m <= 0 then 0 else if m < CountCounted(b) then m else CountCounted(b)
    ensures m >= CountCounted(b) ==> Cut(b, m) == |b|
  {
    if b != [] {
      var j := Cut(b, m);
      if b[0] == "." {
        CutCounts(b[1..], m);
        assert b[..j][1..] == b[1..][..j - 1];
      } else if m > 0 {
        CutCounts(b[1..], m - 1);
        assert b[..j][1..] == b[1..][..j - 1];
      } else {
        assert b[..j] == [];
      }
    }
  }

  /** TOP sends header lines (those before the first empty line) in full. */
  lemma {:induction false} TopHeaders(h: seq<string>, rest: seq<string>, limit: int)
    requires forall i :: 0 <= i < |h| ==> h[i] != ""
    ensures TopFrom(h + rest, false, 0, limit) == Stuff(h) + TopFrom(rest, false, 0, limit)
  {
    if h == [] {
      assert h + rest == rest;
    } else {
      assert (h + rest)[1..] == h[1..] + rest;
      TopHeaders(h[1..], rest, limit);
    }
  }

  /** TOP on a message with headers h, the separating empty line and body b:
      all of h, the empty line, then the body up to the cut. */
  lemma {:induction false} TopShape(h: seq<string>, b: seq<string>, limit: int)
    requires forall i :: 0 <= i < |h| ==> h[i] != ""
    ensures Top(h + [""] + b, limit) == Stuff(h) + [""] + Stuff(b[..Cut(b, limit)])
  {
    var x := [""] + b;
    assert h + [""] + b == h + x;
    TopHeaders(h, x, limit);
    assert x[1..] == b;
    assert TopFrom(x, false, 0, limit) == [""] + TopFrom(b, true, 0, limit);
    TopBody(b, 0, limit);
    var body := Stuff(b[..Cut(b, limit)]);
    assert TopFrom(b, true, 0, limit) == body;
    assert Top(h + [""] + b, limit) == Stuff(h) + ([""] + body);
  }

  /** A message without an empty line is sent in full by TOP, whatever the
      limit. */
  lemma {:induction false} TopNoBody(h: seq<string>, limit: int)
    requires forall i :: 0 <= i < |h| ==> h[i] != ""
    ensures Top(h, limit) == Stuff(h)
  {
    TopHeaders(h, [], limit);
    assert h + [] == h;
  }

  /** Stuffing a message with headers h and body b. */
  lemma {:induction false} StuffMessage(h: seq<string>, b: seq<string>)
    ensures Stuff(h + [""] + b) == Stuff(h) + [""] + Stuff(b)
  {
    StuffAppend(h + [""], b);
    StuffAppend(h, [""]);
    assert Stuff([""]) == [""];
  }

  /** With a limit at least the number of counted body lines, TOP sends the
      whole message, as RETR does. */
  lemma {:induction false} TopWhole(h: seq<string>, b: seq<string>, limit: int)
    requires forall i :: 0 <= i < |h| ==> h[i] != ""
    requires limit >= CountCounted(b)
    ensures Top(h + [""] + b, limit) == Stuff(h + [""] + b)
  {
    TopShape(h, b, limit);
    CutCounts(b, limit);
    assert b[..|b|] == b;
    StuffMessage(h, b);
  }

  /** What TOP sends is a prefix of what RETR sends. */
  lemma {:induction false} TopPrefixOfRetr(h: seq<string>, b: seq<string>, limit: int)
    requires forall i :: 0 <= i < |h| ==> h[i] != ""
    ensures var t := Top(h + [""] + b, limit);
            |t| <= |Stuff(h + [""] + b)| && t == Stuff(h + [""] + b)[..|t|]
  {
    var j := Cut(b, limit);
    var t := Top(h + [""] + b, limit);
    TopShape(h, b, limit);
    var head := Stuff(h) + [""];
    assert b[..j] + b[j..] == b;
    StuffAppend(b[..j], b[j..]);
    StuffMessage(h, b);
    PrefixOfJoin(head, Stuff(b[..j]), Stuff(b[j..]));
  }

  lemma {:induction false} PrefixOfJoin(head: seq<string>, x: seq<string>, rest: seq<string>)
    ensures var t := head + x;
            |t| <= |head + (x + rest)| && t == (head + (x + rest))[..|t|]
  {
    var t := head + x;
    assert head + (x + rest) == t + rest;
    assert (t + rest)[..|t|] == t;
  }
}
