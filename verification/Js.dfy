/** The string operations of the JavaScript runtime that the modelled code relies on. */
module Js {
  import opened Base

  // ---- trimming ----------------------------------------------------------

  /** White space and line terminators, as removed by String.prototype.trim. */
  predicate IsSpace(c: char) {
    var n := c as int;
    || 9 <= n <= 13 || n == 32 || n == 0xA0 || n == 0x1680 || 0x2000 <= n <= 0x200A
    || n == 0x2028 || n == 0x2029 || n == 0x202F || n == 0x205F || n == 0x3000 || n == 0xFEFF
  }

  function StripStart(space: char -> bool, s: string): (r: string)
    ensures r == [] || !space(r[0])
  {
    if s != [] && space(s[0]) then StripStart(space, s[1..]) else s
  }

  function StripEnd(space: char -> bool, s: string): (r: string)
    ensures r <= s
    ensures r == [] || !space(r[|r| - 1])
  {
    if s != [] && space(s[|s| - 1]) then StripEnd(space, s[..|s| - 1]) else s
  }

  /** Removes the longest prefix and suffix of characters that count as space. */
  function Strip(space: char -> bool, s: string): string {
    StripEnd(space, StripStart(space, s))
  }

  function Trim(s: string): string {
    Strip(IsSpace, s)
  }

  predicate Stripped(space: char -> bool, s: string) {
    s == [] || (!space(s[0]) && !space(s[|s| - 1]))
  }

  lemma {:induction false} StripStartIsSuffix(space: char -> bool, s: string)
    ensures |StripStart(space, s)| <= |s| && StripStart(space, s) == s[|s| - |StripStart(space, s)|..]
  {
    if s != [] && space(s[0]) {
      StripStartIsSuffix(space, s[1..]);
      var t := StripStart(space, s[1..]);
      assert t == s[1..][|s| - 1 - |t|..] == s[|s| - |t|..];
    } else {
      assert s == s[0..];
    }
  }

  /** What is left is a piece of the string; if it is all of it, the string was stripped. */
  lemma StripIsSlice(space: char -> bool, s: string) returns (lo: nat, hi: nat)
    ensures lo <= hi <= |s| && Strip(space, s) == s[lo..hi]
  {
    var t := StripStart(space, s);
    StripStartIsSuffix(space, s);
    lo := |s| - |t|;
    hi := lo + |StripEnd(space, t)|;
  }

  /** Stripping leaves exactly the stripped strings alone, always yields one, and only drops characters. */
  lemma StripFixpoint(space: char -> bool, s: string)
    ensures Stripped(space, Strip(space, s))
    ensures Strip(space, s) == s <==> Stripped(space, s)
    ensures forall c :: c in Strip(space, s) ==> c in s
  {
    var lo, hi := StripIsSlice(space, s);
  }

  lemma StripLeadingSpace(space: char -> bool, s: string)
    requires space(' ')
    ensures Strip(space, " " + s) == Strip(space, s)
  {
  }

  // ---- case --------------------------------------------------------------

  function LowerChar(c: char): char {
    if 'A' <= c <= 'Z' then (c as int + 32) as char else c
  }

  function Lower(s: string): (r: string)
    ensures |r| == |s|
  {
    seq(|s|, i requires 0 <= i < |s| => LowerChar(s[i]))
  }

  // ---- searching, splitting and joining ----------------------------------

  function IndexOf(s: string, sep: string): (i: int)
    requires sep != []
    ensures -1 <= i <= |s| - |sep| || i == -1
  {
    if |s| < |sep| then -1
    else if s[..|sep|] == sep then 0
    else var r := IndexOf(s[1..], sep); if r < 0 then -1 else r + 1
  }

  function Split(s: string, sep: string): (parts: seq<string>)
    requires sep != []
    ensures parts != []
  {
    var i := IndexOf(s, sep);
    if i < 0 then [s] else [s[..i]] + Split(s[i + |sep|..], sep)
  }

  function Join(parts: seq<string>, sep: string): string {
    if parts == [] then [] else if |parts| == 1 then parts[0] else parts[0] + sep + Join(parts[1..], sep)
  }

  /** The first separator after a part that cannot contain it is the one that follows the part. */
  lemma {:induction false} IndexOfAfter(part: string, sep: string, rest: string)
    requires sep != [] && sep[0] !in part
    ensures IndexOf(part + sep + rest, sep) == |part|
  {
    var s := part + sep + rest;
    if part == [] {
      assert s[..|sep|] == sep;
    } else {
      assert s[0] == part[0];
      assert s[..|sep|][0] != sep[0];
      assert s[1..] == part[1..] + sep + rest;
      IndexOfAfter(part[1..], sep, rest);
    }
  }

  lemma {:induction false} IndexOfAbsent(part: string, sep: string)
    requires sep != [] && sep[0] !in part
    ensures IndexOf(part, sep) == -1
  {
    if |part| >= |sep| {
      assert part[..|sep|][0] == part[0];
      IndexOfAbsent(part[1..], sep);
    }
  }

  lemma SplitStep(part: string, sep: string, rest: string)
    requires sep != [] && sep[0] !in part
    ensures Split(part + sep + rest, sep) == [part] + Split(rest, sep)
  {
    IndexOfAfter(part, sep, rest);
    var s := part + sep + rest;
    assert s[..|part|] == part;
    assert s[|part| + |sep|..] == rest;
  }

  /** Splitting undoes joining when no part holds the first character of the separator. */
  lemma {:induction false} SplitJoin(parts: seq<string>, sep: string)
    requires sep != [] && parts != []
    requires forall p :: p in parts ==> sep[0] !in p
    ensures Split(Join(parts, sep), sep) == parts
  {
    if |parts| == 1 {
      IndexOfAbsent(parts[0], sep);
    } else {
      SplitJoin(parts[1..], sep);
      SplitStep(parts[0], sep, Join(parts[1..], sep));
    }
  }

  // ---- numbers -----------------------------------------------------------

  predicate IsDigit(c: char) { '0' <= c <= '9' }

  function DigitValue(c: char): nat
    requires IsDigit(c)
  {
    c as int - '0' as int
  }

  function DigitChar(d: nat): (c: char)
    requires d < 10
    ensures IsDigit(c) && DigitValue(c) == d
  {
    ('0' as int + d) as char
  }

  /** Number.prototype.toString(10) of a natural number. */
  function NatToString(n: nat): (s: string)
    ensures s != [] && forall c :: c in s ==> IsDigit(c)
  {
    if n < 10 then [DigitChar(n)] else NatToString(n / 10) + [DigitChar(n % 10)]
  }

  /** The value of the longest run of leading digits, read after the digits of `acc`. */
  function LeadingDigits(s: string, acc: nat): nat {
    if s != [] && IsDigit(s[0]) then LeadingDigits(s[1..], 10 * acc + DigitValue(s[0])) else acc
  }

  /** parseInt(s, 10); None stands for NaN. */
  function ParseInt(s: string): Option<int> {
    var t := StripStart(IsSpace, s);
    var sign := if t != [] && t[0] == '-' then -1 else 1;
    var u := if t != [] && (t[0] == '-' || t[0] == '+') then t[1..] else t;
    if u == [] || !IsDigit(u[0]) then None else Some(sign * LeadingDigits(u, 0))
  }

  lemma {:induction false} LeadingDigitsSnoc(s: string, c: char, acc: nat)
    requires IsDigit(c) && forall d :: d in s ==> IsDigit(d)
    ensures LeadingDigits(s + [c], acc) == 10 * LeadingDigits(s, acc) + DigitValue(c)
  {
    if s == [] {
      assert s + [c] == [c];
      assert [c][1..] == [];
    } else {
      assert (s + [c])[1..] == s[1..] + [c];
      LeadingDigitsSnoc(s[1..], c, 10 * acc + DigitValue(s[0]));
    }
  }

  lemma {:induction false} LeadingDigitsOfNat(n: nat)
    ensures LeadingDigits(NatToString(n), 0) == n
  {
    if n < 10 {
      assert [DigitChar(n)][1..] == [];
    } else {
      LeadingDigitsOfNat(n / 10);
      LeadingDigitsSnoc(NatToString(n / 10), DigitChar(n % 10), 0);
    }
  }

  /** parseInt undoes toString on every natural number. */
  lemma ParseIntNat(n: nat)
    ensures ParseInt(NatToString(n)) == Some(n)
  {
    var s := NatToString(n);
    assert s[0] in s;
    LeadingDigitsOfNat(n);
  }

  lemma {:induction false} DigitsStop(s: string, rest: string, acc: nat)
    requires (forall c :: c in s ==> IsDigit(c)) && (rest == [] || !IsDigit(rest[0]))
    ensures LeadingDigits(s + rest, acc) == LeadingDigits(s, acc)
  {
    if s == [] {
      assert s + rest == rest;
    } else {
      assert (s + rest)[0] == s[0] && (s + rest)[1..] == s[1..] + rest;
      DigitsStop(s[1..], rest, 10 * acc + DigitValue(s[0]));
    }
  }

  /** A sign counts, and what follows the digits does not. */
  lemma ParseIntOf(sign: string, n: nat, rest: string)
    requires sign in ["", "-", "+"] && (rest == [] || !IsDigit(rest[0]))
    ensures
      var value: int := if sign == "-" then -(n as int) else n;
      ParseInt(sign + NatToString(n) + rest) == Some(value)
  {
    var digits := NatToString(n);
    assert digits[0] in digits;
    DigitsStop(digits, rest, 0);
    LeadingDigitsOfNat(n);
    var s := sign + digits + rest;
    if sign == "" {
      assert s == digits + rest && s[0] == digits[0];
    } else {
      assert s[0] == sign[0] && s[1..] == digits + rest && s[1..][0] == digits[0];
    }
  }
}
