/** Splitting and reversing, as the standard library does them. */
module Strings {
  import opened Wrappers

  // `str::split` on one character: always at least one part.
  function Split(s: string, c: char): (parts: seq<string>)
    ensures |parts| > 0
  {
    if s == "" then [""]
    else
      var rest := Split(s[1..], c);
      if s[0] == c then [""] + rest else [[s[0]] + rest[0]] + rest[1..]
  }

  function Join(parts: seq<string>, c: char): string
    requires |parts| > 0
  {
    if |parts| == 1 then parts[0] else parts[0] + [c] + Join(parts[1..], c)
  }

  // Splitting loses nothing, and no part holds the separator: it is the only such split.
  lemma {:induction false} JoinSplit(s: string, c: char)
    ensures Join(Split(s, c), c) == s
    ensures forall i :: 0 <= i < |Split(s, c)| ==> c !in Split(s, c)[i]
  {
    if s == "" {
    } else {
      var rest := Split(s[1..], c);
      JoinSplit(s[1..], c);
      var parts := Split(s, c);
      if s[0] == c {
        assert parts[1..] == rest;
        assert Join(parts, c) == "" + [c] + Join(rest, c);
      } else {
        assert parts[1..] == rest[1..];
        assert forall i :: 1 <= i < |parts| ==> parts[i] == rest[i];
        assert Join(parts, c) == [s[0]] + Join(rest, c);
      }
    }
  }

  lemma {:induction false} SplitConcat(s: string, t: string, c: char)
    ensures Split(s + [c] + t, c) == Split(s, c) + Split(t, c)
  {
    var u := s + [c] + t;
    if s == "" {
      assert u[1..] == t;
    } else {
      assert u[1..] == s[1..] + [c] + t && u[0] == s[0];
      SplitConcat(s[1..], t, c);
      SplitOnce(u, c);
      SplitOnce(s, c);
      PutInFront(s[0], Split(s[1..], c), Split(t, c), c);
    }
  }

  // One more character, in front of the first part or as a separator.
  function InFront(x: char, parts: seq<string>, c: char): seq<string>
    requires |parts| > 0
  {
    if x == c then [""] + parts else [[x] + parts[0]] + parts[1..]
  }

  lemma {:induction false} SplitOnce(s: string, c: char)
    requires s != ""
    ensures Split(s, c) == InFront(s[0], Split(s[1..], c), c)
  {}

  lemma {:induction false} PutInFront(x: char, p: seq<string>, q: seq<string>, c: char)
    requires |p| > 0
    ensures InFront(x, p + q, c) == InFront(x, p, c) + q
  {}

  lemma {:induction false} SplitPlain(s: string, c: char)
    requires c !in s
    ensures Split(s, c) == [s]
  {
    if s == "" {
    } else {
      assert c !in s[1..] by {
        assert s == [s[0]] + s[1..];
      }
      SplitPlain(s[1..], c);
    }
  }

  function Reversed<T>(s: seq<T>): (r: seq<T>)
    ensures |r| == |s|
    ensures forall i :: 0 <= i < |s| ==> r[i] == s[|s| - 1 - i]
  {
    if s == [] then [] else Reversed(s[1..]) + [s[0]]
  }

  lemma {:induction false} ReversedTwice<T>(s: seq<T>)
    ensures Reversed(Reversed(s)) == s
  {}

  // ---- `str::parse::<u64>` ----

  predicate IsDigit(c: char) {
    '0' <= c <= '9'
  }

  predicate AllDigits(s: string) {
    forall i :: 0 <= i < |s| ==> IsDigit(s[i])
  }

  function Decimal(s: string): nat
    requires AllDigits(s)
  {
    if s == "" then 0 else 10 * Decimal(s[..|s| - 1]) + (s[|s| - 1] as int - '0' as int)
  }

  // An optional plus sign, at least one digit, and a value below 2^64.
  function ParseU64(s: string): Option<U64> {
    var digits := if s != "" && s[0] == '+' then s[1..] else s;
    if digits == "" || !AllDigits(digits) || Decimal(digits) >= TWO_64 then None
    else Some(Decimal(digits))
  }

  // What parses is digits, perhaps behind a plus sign, that denote a number below 2^64.
  lemma {:induction false} ParseIff(s: string, n: nat)
    ensures ParseU64(s) == Some(n) <==>
      n < 0x1_0000_0000_0000_0000 && exists digits :: Denotes(digits, n) && (s == digits || s == "+" + digits)
  {
    if ParseU64(s) == Some(n) {
      if s[0] == '+' {
        assert s == "+" + s[1..];
        assert Denotes(s[1..], n);
      } else {
        assert Denotes(s, n);
      }
    }
    if digits :| Denotes(digits, n) && (s == digits || s == "+" + digits) {
      if s == "+" + digits {
        assert s[1..] == digits;
      } else {
        assert IsDigit(s[0]);
      }
    }
  }

  predicate Denotes(digits: string, n: nat) {
    digits != "" && AllDigits(digits) && Decimal(digits) == n
  }

  function Printed(n: nat): string {
    var last := [('0' as int + n % 10) as char];
    if n < 10 then last else Printed(n / 10) + last
  }

  lemma {:induction false} PrintedIsDecimal(n: nat)
    ensures Printed(n) != "" && AllDigits(Printed(n)) && Decimal(Printed(n)) == n
  {
    var s := Printed(n);
    if n >= 10 {
      PrintedIsDecimal(n / 10);
      assert s[..|s| - 1] == Printed(n / 10);
    } else {
      assert s[..0] == "";
    }
  }

  // Every number survives printing and parsing; a sign in front of it, only as a plus.
  lemma {:induction false} ParsePrinted(n: nat)
    ensures ParseU64(Printed(n)) == if n < TWO_64 then Some(n) else None
    ensures ParseU64("+" + Printed(n)) == ParseU64(Printed(n))
    ensures ParseU64("-" + Printed(n)) == None
  {
    PrintedIsDecimal(n);
    assert ("+" + Printed(n))[1..] == Printed(n);
    assert ("-" + Printed(n))[0] == '-';
  }
}
