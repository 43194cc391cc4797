/**
 * The few string primitives of Python the commands rely on: ASCII case
 * mapping (`str.upper`, `str.lower`), `str(int)`, `str.isdigit` with
 * `int(str)`, and `sep.join(parts)`.
 */
module Text {

  /** str.upper() on one character, ASCII letters only. */
  function UpperChar(c: char): char {
    if 'a' <= c <= 'z' then (c as int - 32) as char else c
  }

  /** str.lower() on one character, ASCII letters only. */
  function LowerChar(c: char): char {
    if 'A' <= c <= 'Z' then (c as int + 32) as char else c
  }

  function Upper(s: string): string {
    seq(|s|, i requires 0 <= i < |s| => UpperChar(s[i]))
  }

  function Lower(s: string): string {
    seq(|s|, i requires 0 <= i < |s| => LowerChar(s[i]))
  }

  predicate IsDigit(c: char) {
    '0' <= c <= '9'
  }

  /** str.isdigit(): non-empty and every character a digit. */
  predicate IsDigits(s: string) {
    |s| > 0 && forall i :: 0 <= i < |s| ==> IsDigit(s[i])
  }

  /** int(s) for a string of digits. */
  function DigitsValue(s: string): nat
    requires forall i :: 0 <= i < |s| ==> IsDigit(s[i])
  {
    if |s| == 0 then 0
    else
      assert IsDigit(s[|s| - 1]);
      DigitsValue(s[..|s| - 1]) * 10 + (s[|s| - 1] as int - '0' as int)
  }

  function DigitChar(d: nat): (c: char)
    requires d < 10
    ensures IsDigit(c) && c as int - '0' as int == d
  {
    ('0' as int + d) as char
  }

  /** str(n) for a natural number: its shortest decimal numeral. */
  function ShowNat(n: nat): string
    decreases n
  {
    if n < 10 then [DigitChar(n)] else ShowNat(n / 10) + [DigitChar(n % 10)]
  }

  /** str(i) for any integer. */
  function Show(i: int): string {
    if i < 0 then "-" + ShowNat(-i) else ShowNat(i)
  }

  /** sep.join(parts) */
  function Join(parts: seq<string>, sep: string): string {
    if |parts| == 0 then ""
    else if |parts| == 1 then parts[0]
    else parts[0] + sep + Join(parts[1..], sep)
  }

  /** int(str(n)) == n: a numeral read back gives the number. */
  lemma {:induction false} ShowNatRoundTrip(n: nat)
    ensures IsDigits(ShowNat(n))
    ensures DigitsValue(ShowNat(n)) == n
    decreases n
  {
    if n >= 10 {
      ShowNatRoundTrip(n / 10);
      var s := ShowNat(n);
      assert s[..|s| - 1] == ShowNat(n / 10);
    }
  }

  /** A numeral is digits with an optional leading minus sign: no letters. */
  lemma {:induction false} ShowHasNoLetters(i: int)
    ensures |Show(i)| > 0
    ensures forall k :: 0 <= k < |Show(i)| ==> IsDigit(Show(i)[k]) || Show(i)[k] == '-'
  {
    ShowNatRoundTrip(if i < 0 then -i else i);
  }

  /** Joining two or more parts: the first two with the separator between, then the rest. */
  lemma JoinFirstTwo(parts: seq<string>, sep: string)
    requires |parts| >= 2
    ensures Join(parts, sep) ==
            parts[0] + sep + parts[1] + (if |parts| == 2 then "" else sep + Join(parts[2..], sep))
  {
    assert parts[1..][0] == parts[1];
    assert parts[1..][1..] == parts[2..];
  }

  /** The joined string starts with the first two parts and the separator between them. */
  lemma JoinStartsWithFirstTwo(parts: seq<string>, sep: string)
    requires |parts| >= 2
    ensures var head := parts[0] + sep + parts[1]; var line := Join(parts, sep);
      |head| <= |line| && line[..|head|] == head
  {
    JoinFirstTwo(parts, sep);
  }

  /** The joined string ends with the last part. */
  lemma {:induction false} JoinEndsWithLast(parts: seq<string>, sep: string)
    requires |parts| > 0
    ensures var line := Join(parts, sep); var last := parts[|parts| - 1];
      |last| <= |line| && line[|line| - |last|..] == last
  {
    if |parts| > 1 {
      JoinEndsWithLast(parts[1..], sep);
      var rest := Join(parts[1..], sep);
      var last := parts[|parts| - 1];
      assert parts[1..][|parts[1..]| - 1] == last;
      var line := parts[0] + sep + rest;
      assert line[|line| - |last|..] == rest[|rest| - |last|..];
    }
  }
}
