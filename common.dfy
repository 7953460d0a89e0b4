/** Values shared by the POP3 session engine and the mailbox synchroniser:
    the per-message metadata record, the wire line terminator, and the
    parts of Go's strconv, fmt and path packages that the core relies on. */
module Common {

  datatype Option<T> = None | Some(value: T)

  /** The metadata record persisted as `<name>.json` for every downloaded message. */
  datatype MailData = MailData(
    id: int,
    headerSize: int,
    messageSize: int,
    totalSize: int,
    read: bool,
    name: string)

  /** Every line the server writes ends with this terminator. */
  const CRLF: string := "\r\n"

  /** Bounds of Go's 64-bit `int`. */
  const MaxInt64: int := 0x7FFF_FFFF_FFFF_FFFF
  const MinInt64: int := -0x8000_0000_0000_0000

  // ---------------------------------------------------------------------
  // Decimal digits

  predicate IsDigit(c: char) { '0' <= c <= '9' }

  predicate AllDigits(s: string) { forall i :: 0 <= i < |s| ==> IsDigit(s[i]) }

  function DigitChar(d: nat): (c: char)
    requires d < 10
    ensures IsDigit(c)
  {
    ('0' as int + d) as char
  }

  function DigitValue(c: char): (d: nat)
    requires IsDigit(c)
    ensures d < 10
  {
    c as int - '0' as int
  }

  /** The value of a string of decimal digits, most significant first. */
  function DigitsValue(s: string): nat
    requires AllDigits(s)
  {
    if s == [] then 0 else 10 * DigitsValue(s[..|s| - 1]) + DigitValue(s[|s| - 1])
  }

  /** `strconv.Itoa` / `%d` of a non-negative number. */
  function NatToString(n: nat): (s: string)
    ensures |s| > 0 && AllDigits(s)
  {
    if n < 10 then [DigitChar(n)] else NatToString(n / 10) + [DigitChar(n % 10)]
  }

  /** `strconv.Itoa` / `%d` of any number. */
  function IntToString(n: int): (s: string)
    ensures |s| > 0
    ensures n >= 0 ==> AllDigits(s)
    ensures n < 0 ==> s[0] == '-' && AllDigits(s[1..])
  {
    if n < 0 then "-" + NatToString(-n) else NatToString(n)
  }

  /** Printing a number and reading its digits back gives the number. */
  lemma {:induction false} NatToStringValue(n: nat)
    ensures DigitsValue(NatToString(n)) == n
  {
    if n >= 10 {
      NatToStringValue(n / 10);
      var s := NatToString(n);
      assert s[..|s| - 1] == NatToString(n / 10);
    }
  }

  // ---------------------------------------------------------------------
  // strconv.Atoi on a 64-bit platform, with the error result discarded

  /** `ParseInt` saturates an out-of-range value at the nearest bound. */
  function Clamp64(v: int): (r: int)
    ensures MinInt64 <= r <= MaxInt64
    ensures MinInt64 <= v <= MaxInt64 ==> r == v
  {
    if v > MaxInt64 then MaxInt64 else if v < MinInt64 then MinInt64 else v
  }

  /** Syntax accepted by `strconv.Atoi`: an optional sign and at least one digit. */
  predicate IsDecimal(s: string)
  {
    if |s| > 0 && (s[0] == '+' || s[0] == '-') then |s| > 1 && AllDigits(s[1..])
    else |s| > 0 && AllDigits(s)
  }

  /** The largest value of Go's `uint64`, the range `ParseUint` reads into. */
  const MaxUint64: int := 0xFFFF_FFFF_FFFF_FFFF

  /** The end of the run of digits that starts at position k. */
  function DigitEnd(s: string, k: nat): (r: nat)
    requires k <= |s|
    ensures k <= r <= |s|
    ensures forall i :: k <= i < r ==> IsDigit(s[i])
    ensures r < |s| ==> !IsDigit(s[r])
    decreases |s| - k
  {
    if k < |s| && IsDigit(s[k]) then DigitEnd(s, k + 1) else k
  }

  /** Any position that ends the digit run from k is the one `DigitEnd` finds. */
  lemma {:induction false} DigitEndAt(s: string, k: nat, e: nat)
    requires k <= e <= |s|
    requires forall i :: k <= i < e ==> IsDigit(s[i])
    requires e < |s| ==> !IsDigit(s[e])
    ensures DigitEnd(s, k) == e
  {
  }

  /** The string without its optional leading sign. */
  function Unsigned(s: string): string
  {
    if |s| > 0 && (s[0] == '+' || s[0] == '-') then s[1..] else s
  }

  /** `ParseUint` reads the digits from the left and stops with a range error
      as soon as the value passes the `uint64` range, before it sees any
      later character that is not a digit. */
  predicate Overflows(s: string)
  {
    var u := Unsigned(s);
    var e := DigitEnd(u, 0);
    assert AllDigits(u[..e]);
    DigitsValue(u[..e]) > MaxUint64
  }

  /** `n, _ := strconv.Atoi(s)`: a digit run that passes the `uint64` range
      saturates at the int64 bound of its sign whatever follows it; otherwise
      a syntax error yields 0 and a value out of the int64 range the
      saturated value. */
  function Atoi(s: string): (n: int)
    ensures MinInt64 <= n <= MaxInt64
    ensures !IsDecimal(s) && !Overflows(s) ==> n == 0
    ensures Overflows(s) ==> n == if |s| > 0 && s[0] == '-' then MinInt64 else MaxInt64
  {
    if Overflows(s) then (if |s| > 0 && s[0] == '-' then MinInt64 else MaxInt64)
    else if !IsDecimal(s) then 0
    else if s[0] == '-' then Clamp64(0 - DigitsValue(s[1..]) as int)
    else if s[0] == '+' then Clamp64(DigitsValue(s[1..]))
    else Clamp64(DigitsValue(s))
  }

  /** A number the server prints parses back to itself. */
  lemma {:induction false} AtoiNatToString(n: nat)
    requires n <= MaxInt64
    ensures Atoi(NatToString(n)) == n
  {
    var s := NatToString(n);
    NatToStringValue(n);
    assert Unsigned(s) == s;
    assert DigitEnd(s, 0) == |s|;
    assert s[..|s|] == s;
  }

  /** A run of digits past the `uint64` range reads as the saturated bound
      even when other characters follow it, so the message number derived
      from it is the largest but one. */
  lemma {:induction false} AtoiOverflowSaturates(d: string, rest: string)
    requires AllDigits(d) && DigitsValue(d) > MaxUint64
    requires rest == [] || !IsDigit(rest[0])
    ensures Atoi(d + rest) == MaxInt64 && Atoi("-" + d + rest) == MinInt64
    ensures MessageIndex(d + rest) == MaxInt64 - 1
  {
    assert d != [];
    var s := d + rest;
    assert Unsigned(s) == s;
    assert forall i :: 0 <= i < |d| ==> s[i] == d[i];
    assert |d| < |s| ==> s[|d|] == rest[0];
    DigitEndAt(s, 0, |d|);
    assert s[..|d|] == d;
    var t := "-" + d + rest;
    assert Unsigned(t) == s;
  }

  /** `id--` on a Go `int`: the smallest value wraps around to the largest. */
  function Decrement64(n: int): (r: int)
    requires MinInt64 <= n <= MaxInt64
    ensures MinInt64 <= r <= MaxInt64
    ensures n > MinInt64 ==> r == n - 1
    ensures n == MinInt64 ==> r == MaxInt64
  {
    if n == MinInt64 then MaxInt64 else n - 1
  }

  /** The 0-based position the server derives from a message-number
      argument: `id, _ = strconv.Atoi(arg); id--`. */
  function MessageIndex(arg: string): int
  {
    Decrement64(Atoi(arg))
  }

  /** Positions below zero come exactly from arguments that are not positive
      numbers (the most negative one wraps around instead). */
  lemma {:induction false} MessageIndexNegative(arg: string)
    ensures MessageIndex(arg) < 0 <==> Atoi(arg) <= 0 && Atoi(arg) != MinInt64
  {
  }

  /** Message number k, printed by the server, selects position k - 1. */
  lemma {:induction false} MessageIndexOfPrinted(k: nat)
    requires 1 <= k <= MaxInt64
    ensures MessageIndex(NatToString(k)) == k - 1
  {
    AtoiNatToString(k);
  }

  // ---------------------------------------------------------------------
  // path.Base / filepath.Base on slash-separated paths

  /** `p` without its trailing slashes. */
  function StripTrailingSlashes(p: string): string
  {
    if |p| > 0 && p[|p| - 1] == '/' then StripTrailingSlashes(p[..|p| - 1]) else p
  }

  /** What is left after stripping trailing slashes is a prefix of the path
      that does not end in a slash, and only slashes were removed. */
  lemma {:induction false} StripTrailingSlashesSpec(p: string)
    ensures var r := StripTrailingSlashes(p);
            && |r| <= |p| && r == p[..|r|]
            && (|r| > 0 ==> r[|r| - 1] != '/')
            && forall i :: |r| <= i < |p| ==> p[i] == '/'
  {
    if |p| > 0 && p[|p| - 1] == '/' {
      StripTrailingSlashesSpec(p[..|p| - 1]);
    }
  }

  /** The part of `p` after its last slash. */
  function AfterLastSlash(p: string): string
  {
    if |p| > 0 && p[|p| - 1] != '/' then AfterLastSlash(p[..|p| - 1]) + [p[|p| - 1]] else []
  }

  /** The last element of a path: "." for the empty path, "/" for a path of
      slashes only, and trailing slashes are ignored. */
  function Base(p: string): (r: string)
    ensures |r| > 0
  {
    if p == [] then "."
    else
      var q := StripTrailingSlashes(p);
      StripTrailingSlashesSpec(p);
      if q == [] then "/" else AfterLastSlash(q)
  }

  /** `filepath.Join(dir, name)` for a directory and a plain file name. */
  function Join(dir: string, name: string): string
  {
    dir + "/" + name
  }

  /** The base of a file's path inside a directory is the file's name. */
  lemma {:induction false} BaseOfJoin(dir: string, name: string)
    requires name != [] && '/' !in name
    ensures Base(Join(dir, name)) == name
  {
    var p := Join(dir, name);
    assert p[|p| - 1] == name[|name| - 1];
    assert StripTrailingSlashes(p) == p;
    AfterLastSlashOfJoin(dir, name);
  }

  lemma {:induction false} AfterLastSlashOfJoin(dir: string, name: string)
    requires '/' !in name
    ensures AfterLastSlash(dir + "/" + name) == name
  {
    var p := dir + "/" + name;
    if name == [] {
      assert p[|p| - 1] == '/';
    } else {
      var last := name[|name| - 1];
      assert p[..|p| - 1] == dir + "/" + name[..|name| - 1];
      assert last in name;
      AfterLastSlashOfJoin(dir, name[..|name| - 1]);
      assert name[..|name| - 1] + [last] == name;
    }
  }

  /** The position of the dot that starts the extension of p[..k]: scanning
      back from k, the first '.' met before any '/', or -1. */
  function ExtDot(p: string, k: nat): (i: int)
    requires k <= |p|
    ensures -1 <= i < k
    ensures i >= 0 ==> p[i] == '.' && forall j :: i < j < k ==> p[j] != '.' && p[j] != '/'
  {
    if k == 0 || p[k - 1] == '/' then -1
    else if p[k - 1] == '.' then k - 1
    else ExtDot(p, k - 1)
  }

  /** `filepath.Ext`: the suffix from the last dot of the final path element,
      or "" when that element has no dot. */
  function Ext(p: string): (r: string)
    ensures r == [] || r[0] == '.'
    ensures |r| <= |p| && r == p[|p| - |r|..]
  {
    var i := ExtDot(p, |p|);
    if i < 0 then "" else p[i..]
  }

  /** The dot scan stops at a dot followed only by characters that are
      neither dots nor slashes. */
  lemma {:induction false} ExtDotAt(p: string, i: nat, k: nat)
    requires i < k <= |p| && p[i] == '.'
    requires forall j :: i < j < k ==> p[j] != '.' && p[j] != '/'
    ensures ExtDot(p, k) == i
  {
    if k - 1 > i {
      ExtDotAt(p, i, k - 1);
    }
  }

  // ---------------------------------------------------------------------
  // Go map iteration

  /** Some element of a non-empty set: the next key Go's map iteration yields. */
  method Pick(s: set<int>) returns (x: int)
    requires s != {}
    ensures x in s
  {
    if forall y :: y !in s {
      assert false;
    }
    x :| x in s;
  }
}
