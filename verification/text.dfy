/** Strings and integers as the Rust program handles them.

    A Rust `str` is modelled by its UTF-8 code units, one `char` each: every operation used
    here (ASCII case, trimming dots, suffixes, lengths, ordering) acts on code units.
 */
module Wrappers {
  datatype Option<+T> = None | Some(value: T)
}

module Text {
  import opened Wrappers

  function Min(a: nat, b: nat): nat { if a < b then a else b }

  function Max(a: nat, b: nat): nat { if a < b then b else a }

  ghost function Elements(s: seq<string>): set<string> {
    set x | x in s
  }

  // ---------- ASCII case ----------

  function LowerChar(c: char): char {
    if 'A' <= c <= 'Z' then (c as int + 32) as char else c
  }

  function Lower(s: string): (r: string)
    ensures |r| == |s|
    ensures forall i :: 0 <= i < |s| ==> r[i] == LowerChar(s[i])
  {
    seq(|s|, i requires 0 <= i < |s| => LowerChar(s[i]))
  }

  predicate EqIgnoreCase(a: string, b: string) {
    Lower(a) == Lower(b)
  }

  predicate NoLowerCase(s: string) {
    forall i :: 0 <= i < |s| ==> !('a' <= s[i] <= 'z')
  }

  /** On text without lower-case letters, ignoring case is plain equality. */
  lemma EqIgnoreCaseExact(a: string, b: string)
    requires NoLowerCase(a) && NoLowerCase(b)
    ensures EqIgnoreCase(a, b) <==> a == b
  {
    if EqIgnoreCase(a, b) {
      forall i | 0 <= i < |a| ensures a[i] == b[i] {
        assert Lower(a)[i] == Lower(b)[i];
      }
      assert |a| == |Lower(a)| == |Lower(b)| == |b|;
    }
  }

  // ---------- suffixes ----------

  predicate EndsWith(s: string, t: string) {
    |t| <= |s| && s[|s| - |t|..] == t
  }

  predicate StartsWith(s: string, t: string) {
    |t| <= |s| && s[..|t|] == t
  }

  // ---------- byte-wise ordering ----------

  predicate Less(a: string, b: string) {
    if b == "" then false
    else if a == "" then true
    else if a[0] != b[0] then a[0] < b[0]
    else Less(a[1..], b[1..])
  }

  lemma {:induction false} LessIrreflexive(a: string)
    ensures !Less(a, a)
  {
    if a != "" { LessIrreflexive(a[1..]); }
  }

  lemma {:induction false} LessTotal(a: string, b: string)
    ensures Less(a, b) || a == b || Less(b, a)
  {
    if a != "" && b != "" && a[0] == b[0] {
      LessTotal(a[1..], b[1..]);
      assert a == [a[0]] + a[1..] && b == [b[0]] + b[1..];
    }
  }

  lemma {:induction false} LessTransitive(a: string, b: string, c: string)
    requires Less(a, b) && Less(b, c)
    ensures Less(a, c)
  {
    if a != "" && a[0] == b[0] == c[0] { LessTransitive(a[1..], b[1..], c[1..]); }
  }

  // ---------- decimal i64 ----------

  const I64_MIN: int := -0x8000_0000_0000_0000
  const I64_MAX: int := 0x7FFF_FFFF_FFFF_FFFF

  predicate IsI64(n: int) { I64_MIN <= n <= I64_MAX }

  predicate IsDigit(c: char) { '0' <= c <= '9' }

  function DigitOf(n: nat): (c: char)
    requires n < 10
    ensures IsDigit(c) && c as int - '0' as int == n
  {
    ('0' as int + n) as char
  }

  /** Decimal digits of a natural number, no leading zeros. */
  function PrintNat(n: nat): (s: string)
    ensures s != "" && forall i :: 0 <= i < |s| ==> IsDigit(s[i])
    ensures if n == 0 then s == "0" else s[0] != '0'
  {
    if n < 10 then [DigitOf(n)] else PrintNat(n / 10) + [DigitOf(n % 10)]
  }

  /** `i64::to_string` */
  function PrintInt(n: int): string {
    if n < 0 then "-" + PrintNat(-n) else PrintNat(n)
  }

  predicate AllDigits(s: string) {
    s != "" && forall i :: 0 <= i < |s| ==> IsDigit(s[i])
  }

  function DigitsValue(s: string): nat
    requires forall i :: 0 <= i < |s| ==> IsDigit(s[i])
  {
    if s == "" then 0
    else
      assert IsDigit(s[|s| - 1]);
      10 * DigitsValue(s[..|s| - 1]) + (s[|s| - 1] as int - '0' as int)
  }

  /** `str::parse::<i64>`: an optional sign, at least one digit, nothing else, within range. */
  function ParseI64(s: string): (r: Option<int>)
    ensures r.Some? ==> IsI64(r.value)
  {
    var digits := if s != "" && (s[0] == '-' || s[0] == '+') then s[1..] else s;
    if !AllDigits(digits) then None
    else
      var magnitude: int := DigitsValue(digits);
      var n := if s[0] == '-' then -magnitude else magnitude;
      if IsI64(n) then Some(n) else None
  }

  lemma {:induction false} DigitsOfPrint(n: nat)
    ensures DigitsValue(PrintNat(n)) == n
  {
    if n >= 10 {
      DigitsOfPrint(n / 10);
      var s := PrintNat(n);
      assert s[..|s| - 1] == PrintNat(n / 10);
    }
  }

  /** Printing then parsing gives every i64 back. */
  lemma ParsePrint(n: int)
    ensures ParseI64(PrintInt(n)) == if IsI64(n) then Some(n) else None
  {
    DigitsOfPrint(if n < 0 then -n else n);
    if n < 0 {
      assert PrintInt(n)[1..] == PrintNat(-n);
    } else {
      assert IsDigit(PrintNat(n)[0]);
    }
  }

  lemma PrintNatInjective(a: nat, b: nat)
    requires PrintNat(a) == PrintNat(b)
    ensures a == b
  {
    DigitsOfPrint(a);
    DigitsOfPrint(b);
  }

  function Zeros(k: nat): (z: string)
    ensures |z| == k && forall i :: 0 <= i < k ==> z[i] == '0'
  {
    seq(k, i => '0')
  }

  /** Digits mean a number exactly if they are its printed form after some zeros. */
  ghost predicate MeansNat(s: string, n: nat) {
    exists k: nat :: s == Zeros(k) + PrintNat(n)
  }

  lemma DigitMore(k: nat, m: nat, d: nat)
    requires d < 10
    ensures MeansNat(Zeros(k) + PrintNat(m) + [DigitOf(d)], 10 * m + d)
  {
    var s := Zeros(k) + PrintNat(m) + [DigitOf(d)];
    if m == 0 {
      assert s == Zeros(k + 1) + PrintNat(d);
    } else {
      assert (10 * m + d) / 10 == m && (10 * m + d) % 10 == d;
      assert PrintNat(10 * m + d) == PrintNat(m) + [DigitOf(d)];
      assert s == Zeros(k) + PrintNat(10 * m + d);
    }
  }

  lemma {:induction false} DigitsMean(s: string)
    requires AllDigits(s)
    ensures MeansNat(s, DigitsValue(s))
  {
    var last := |s| - 1;
    assert IsDigit(s[last]);
    var d: nat := s[last] as int - '0' as int;
    assert s == s[..last] + [DigitOf(d)];
    if last == 0 {
      assert s == Zeros(0) + PrintNat(d);
    } else {
      DigitsMean(s[..last]);
      var m := DigitsValue(s[..last]);
      var k: nat :| s[..last] == Zeros(k) + PrintNat(m);
      DigitMore(k, m, d);
    }
  }

  lemma {:induction false} ZerosMean(k: nat, n: nat)
    ensures AllDigits(Zeros(k) + PrintNat(n)) && DigitsValue(Zeros(k) + PrintNat(n)) == n
    decreases k, n
  {
    var s := Zeros(k) + PrintNat(n);
    var last := |s| - 1;
    if n >= 10 {
      assert s[..last] == Zeros(k) + PrintNat(n / 10);
      ZerosMean(k, n / 10);
    } else if k > 0 {
      assert s[..last] == Zeros(k - 1) + PrintNat(0);
      ZerosMean(k - 1, 0);
    } else {
      assert s[..last] == "";
    }
  }

  /** Text parses to a number exactly if it is the number's printed form, with leading zeros or a plus sign at will,
      and the number is an i64; zero may have a minus sign. */
  lemma ParseExact(s: string, n: int)
    ensures ParseI64(s) == Some(n) <==>
      && IsI64(n)
      && s != ""
      && if s[0] == '-' then n <= 0 && MeansNat(s[1..], -n)
         else n >= 0 && MeansNat(if s[0] == '+' then s[1..] else s, n)
  {
    var digits := if s != "" && (s[0] == '-' || s[0] == '+') then s[1..] else s;
    if AllDigits(digits) {
      DigitsMean(digits);
    }
    forall m: nat | MeansNat(digits, m) ensures AllDigits(digits) && DigitsValue(digits) == m {
      var k: nat :| digits == Zeros(k) + PrintNat(m);
      ZerosMean(k, m);
    }
  }
}
