/**
 * The string operations the order composer leans on, written out:
 * `String.prototype.trim`, the rendering of an integer inside a template
 * literal, and `Array.prototype.join("\n")` together with its inverse.
 */
module Text {

  /** The code points `String.prototype.trim` strips: ECMAScript's WhiteSpace
      (tab, vertical tab, form feed, space, no-break space, byte order mark and
      every Unicode "Zs" space) and its LineTerminators (LF, CR, U+2028, U+2029). */
  predicate IsTrimmable(c: char) {
    || c == '\t' || c == '\n' || c == '\U{000B}' || c == '\U{000C}' || c == '\r'
    || c == ' ' || c == '\U{00A0}' || c == '\U{1680}'
    || ('\U{2000}' <= c <= '\U{200A}')
    || c == '\U{2028}' || c == '\U{2029}' || c == '\U{202F}' || c == '\U{205F}'
    || c == '\U{3000}' || c == '\U{FEFF}'
  }

  predicate AllTrimmable(s: string) {
    forall j :: 0 <= j < |s| ==> IsTrimmable(s[j])
  }

  /** How many trimmable characters open `s`. */
  function LeadingTrimmable(s: string): (k: nat)
    ensures k <= |s|
    ensures forall j :: 0 <= j < k ==> IsTrimmable(s[j])
    ensures k < |s| ==> !IsTrimmable(s[k])
  {
    if |s| == 0 || !IsTrimmable(s[0]) then 0
    else
      var k' := LeadingTrimmable(s[1..]);
      assert forall j :: 1 <= j < k' + 1 ==> s[j] == s[1..][j - 1];
      1 + k'
  }

  /** How many trimmable characters close `s`. */
  function TrailingTrimmable(s: string): (k: nat)
    ensures k <= |s|
    ensures forall j :: |s| - k <= j < |s| ==> IsTrimmable(s[j])
    ensures k < |s| ==> !IsTrimmable(s[|s| - 1 - k])
  {
    if |s| == 0 || !IsTrimmable(s[|s| - 1]) then 0
    else 1 + TrailingTrimmable(s[..|s| - 1])
  }

  /** `r` sits in `s` at position `a`, with nothing but trimmable
      characters before it and after it. */
  predicate TrimmedWindow(s: string, r: string, a: nat) {
    a + |r| <= |s| && r == s[a..a + |r|] && AllTrimmable(s[..a]) && AllTrimmable(s[a + |r|..])
  }

  /** `s.trim()`: `s` without its leading and trailing trimmable characters.
      The result is a contiguous piece of `s` with only trimmable characters
      cut on either side; it is empty exactly when `s` is all trimmable, and
      otherwise starts and ends with a character trim keeps. */
  function Trim(s: string): (r: string)
    ensures |r| <= |s|
    ensures r == [] <==> AllTrimmable(s)
    ensures r != [] ==> !IsTrimmable(r[0]) && !IsTrimmable(r[|r| - 1])
    ensures forall c :: c in r ==> c in s
    ensures exists a :: TrimmedWindow(s, r, a)
  {
    var lead := LeadingTrimmable(s);
    var trail := TrailingTrimmable(s[lead..]);
    TrimWindow(s, lead, trail);
    s[lead..][..|s| - lead - trail]
  }

  /** Cutting `lead` trimmable characters from the front and then `trail`
      from the back, each run as long as it goes, leaves a window of `s` at
      position `lead` that is empty exactly when `s` is all trimmable and
      otherwise starts and ends with characters trim keeps. */
  lemma TrimWindow(s: string, lead: nat, trail: nat)
    requires lead + trail <= |s|
    requires forall j :: 0 <= j < lead ==> IsTrimmable(s[j])
    requires lead < |s| ==> !IsTrimmable(s[lead])
    requires forall j :: |s| - lead - trail <= j < |s| - lead ==> IsTrimmable(s[lead..][j])
    requires trail < |s| - lead ==> !IsTrimmable(s[lead..][|s| - lead - 1 - trail])
    ensures var r := s[lead..][..|s| - lead - trail];
            && TrimmedWindow(s, r, lead)
            && (r == [] <==> AllTrimmable(s))
            && (r != [] ==> !IsTrimmable(r[0]) && !IsTrimmable(r[|r| - 1]))
  {
    var r := s[lead..][..|s| - lead - trail];
    var post := s[lead + |r|..];
    assert forall j :: 0 <= j < |post| ==> post[j] == s[lead..][|r| + j];
    assert r != [] ==> r[0] == s[lead];
  }

  /** Trimming a string that neither starts nor ends with a trimmable
      character, or is empty, gives it back. */
  lemma TrimKeepsTrimmed(s: string)
    requires s != [] ==> !IsTrimmable(s[0]) && !IsTrimmable(s[|s| - 1])
    ensures Trim(s) == s
  {
  }

  /** Trimming twice is trimming once. */
  lemma TrimIdempotent(s: string)
    ensures Trim(Trim(s)) == Trim(s)
  {
    TrimKeepsTrimmed(Trim(s));
  }

  function DigitChar(d: nat): (c: char)
    requires d < 10
    ensures '0' <= c <= '9'
  {
    ('0' as int + d) as char
  }

  predicate AllDigits(s: string) {
    forall j :: 0 <= j < |s| ==> '0' <= s[j] <= '9'
  }

  /** Decimal notation of a natural number, most significant digit first,
      without leading zeros: what a template literal prints for it. */
  function Decimal(n: nat): (s: string)
    ensures 1 <= |s|
    ensures AllDigits(s)
    ensures |s| > 1 ==> s[0] != '0'
    decreases n
  {
    if n < 10 then [DigitChar(n)] else Decimal(n / 10) + [DigitChar(n % 10)]
  }

  /** The number a string of decimal digits denotes. */
  function DecimalValue(s: string): nat
    requires AllDigits(s)
  {
    if s == [] then 0
    else DecimalValue(s[..|s| - 1]) * 10 + (s[|s| - 1] as int - '0' as int)
  }

  /** Reading back the digits `Decimal` prints gives the number again. */
  lemma {:induction false} DecimalRoundTrip(n: nat)
    ensures DecimalValue(Decimal(n)) == n
    decreases n
  {
    if n >= 10 {
      var s := Decimal(n);
      assert s[..|s| - 1] == Decimal(n / 10);
      DecimalRoundTrip(n / 10);
    }
  }

  /** Template-literal rendering of an integer: a minus sign before the
      decimal digits of its magnitude when it is negative. */
  function IntToString(n: int): (s: string)
    ensures 1 <= |s|
    ensures s[0] == '-' <==> n < 0
    ensures n >= 0 ==> AllDigits(s) && DecimalValue(s) == n
    ensures n < 0 ==> AllDigits(s[1..]) && DecimalValue(s[1..]) == -n
    ensures var d := if n < 0 then s[1..] else s; |d| > 1 ==> d[0] != '0'
  {
    if n < 0 then
      DecimalRoundTrip(-n);
      assert ("-" + Decimal(-n))[1..] == Decimal(-n);
      "-" + Decimal(-n)
    else
      DecimalRoundTrip(n);
      Decimal(n)
  }

  predicate NoNewline(lines: seq<string>) {
    forall k :: 0 <= k < |lines| ==> '\n' !in lines[k]
  }

  /** `lines.join("\n")`: the lines with one newline between neighbours. */
  function JoinLines(lines: seq<string>): (s: string)
    ensures |lines| == 1 ==> s == lines[0]
  {
    if |lines| == 0 then ""
    else if |lines| == 1 then lines[0]
    else lines[0] + "\n" + JoinLines(lines[1..])
  }

  /** Position of the first newline of `s`, or `|s|` when it has none. */
  function NewlineIndex(s: string): (i: nat)
    ensures i <= |s|
    ensures i < |s| ==> s[i] == '\n'
    ensures '\n' !in s[..i]
  {
    if |s| == 0 || s[0] == '\n' then 0
    else
      var i := 1 + NewlineIndex(s[1..]);
      assert s[..i] == [s[0]] + s[1..][..i - 1];
      i
  }

  /** `s.split("\n")`: the pieces of `s` between its newlines, in order. */
  function SplitLines(s: string): (r: seq<string>)
    ensures 1 <= |r|
    ensures NoNewline(r)
    decreases |s|
  {
    var i := NewlineIndex(s);
    if i == |s| then
      assert s[..i] == s;
      [s]
    else [s[..i]] + SplitLines(s[i + 1..])
  }

  /** Joining lines that hold no newline and splitting the result again gives
      back the same lines. */
  lemma {:induction false} SplitJoin(lines: seq<string>)
    requires 1 <= |lines|
    requires NoNewline(lines)
    ensures SplitLines(JoinLines(lines)) == lines
    decreases |lines|
  {
    var head := lines[0];
    assert '\n' !in head;
    if |lines| == 1 {
      NewlineAbsent(head);
    } else {
      var rest := JoinLines(lines[1..]);
      var s := head + "\n" + rest;
      NewlineAfter(head, rest);
      assert s[..|head|] == head;
      assert s[|head| + 1..] == rest;
      SplitJoin(lines[1..]);
      assert lines == [head] + lines[1..];
    }
  }

  /** Splitting a string and joining the pieces with newlines rebuilds it. */
  lemma {:induction false} JoinSplit(s: string)
    ensures JoinLines(SplitLines(s)) == s
    decreases |s|
  {
    var i := NewlineIndex(s);
    if i < |s| {
      var rest := SplitLines(s[i + 1..]);
      SplitLinesStep(s);
      JoinLinesCons(s[..i], rest);
      JoinSplit(s[i + 1..]);
      SplitAround(s, i);
    } else {
      assert s[..i] == s;
    }
  }

  lemma {:induction false} SplitLinesStep(s: string)
    requires NewlineIndex(s) < |s|
    ensures SplitLines(s) == [s[..NewlineIndex(s)]] + SplitLines(s[NewlineIndex(s) + 1..])
  {
  }

  lemma JoinLinesCons(line: string, rest: seq<string>)
    requires |rest| >= 1
    ensures JoinLines([line] + rest) == line + "\n" + JoinLines(rest)
  {
    assert ([line] + rest)[1..] == rest;
  }

  lemma SplitAround(s: string, i: nat)
    requires i < |s| && s[i] == '\n'
    ensures s == s[..i] + "\n" + s[i + 1..]
  {
  }

  lemma NewlineAbsent(s: string)
    requires '\n' !in s
    ensures NewlineIndex(s) == |s|
  {
    assert s[..|s|] == s;
  }

  lemma NewlineAfter(head: string, rest: string)
    requires '\n' !in head
    ensures NewlineIndex(head + "\n" + rest) == |head|
  {
    var s := head + "\n" + rest;
    assert s[|head|] == '\n';
    assert forall j :: 0 <= j < |head| ==> s[j] == head[j];
  }
}
