/**
 * The small pieces of JavaScript semantics the rental scripts rely on:
 * nullable values, truthiness of numbers, Math.round / Math.ceil on a
 * quotient, String(n) for a non-negative integer, padStart(2, '0'), and
 * the three ways a localStorage key can read back.
 */
module JsBasics {

  /** A JavaScript value that may be `null`. */
  datatype Option<+T> = None | Some(value: T)

  /** What `localStorage.getItem(key)` followed by `JSON.parse` yields:
      no item at all (or the empty string, which is falsy), a parsed value,
      or text that JSON.parse rejects. */
  datatype Slot<+T> = Absent | Stored(value: T) | Corrupt

  /** JavaScript truthiness of a nullable number: `null` and `0` are falsy. */
  predicate Truthy(o: Option<int>)
  {
    o.Some? && o.value != 0
  }

  /** `null` used in arithmetic or in a comparison coerces to 0. */
  function NumOf(o: Option<int>): int
  {
    if o.Some? then o.value else 0
  }

  /** `Math.round(n / d)` for a positive divisor: the integer nearest to
      n / d, halves rounded up (towards +infinity, as JavaScript does). */
  function RoundDiv(n: int, d: int): (r: int)
    requires d > 0
    ensures 2 * d * r <= 2 * n + d < 2 * d * (r + 1)
  {
    (2 * n + d) / (2 * d)
  }

  /** `Math.ceil(n / d)` for a positive divisor. */
  function CeilDiv(n: int, d: int): (r: int)
    requires d > 0
    ensures (r - 1) * d < n <= r * d
  {
    (n + d - 1) / d
  }

  /** `Math.max(a, b)`. */
  function Max(a: int, b: int): (r: int)
    ensures r >= a && r >= b && (r == a || r == b)
  {
    if a >= b then a else b
  }

  function Min(a: int, b: int): (r: int)
    ensures r <= a && r <= b && (r == a || r == b)
  {
    if a <= b then a else b
  }

  predicate IsDigit(c: char)
  {
    '0' <= c <= '9'
  }

  predicate AllDigits(s: string)
  {
    forall i :: 0 <= i < |s| ==> IsDigit(s[i])
  }

  function DigitChar(d: nat): (c: char)
    requires d < 10
    ensures IsDigit(c) && c as int - '0' as int == d
  {
    ['0', '1', '2', '3', '4', '5', '6', '7', '8', '9'][d]
  }

  /** The decimal value of a digit string, as `parseInt(s, 10)` reads it. */
  function DigitsValue(s: string): nat
    requires AllDigits(s)
  {
    if s == [] then 0
    else DigitsValue(s[..|s| - 1]) * 10 + (s[|s| - 1] as int - '0' as int)
  }

  /** `String(n)` for a non-negative integer: its shortest decimal form. */
  function NatToString(n: nat): (s: string)
    ensures |s| >= 1 && AllDigits(s)
    ensures |s| > 1 ==> s[0] != '0'
  {
    if n < 10 then [DigitChar(n)] else NatToString(n / 10) + [DigitChar(n % 10)]
  }

  /** Reading back what `String(n)` wrote gives n. */
  lemma {:induction false} NatToStringValue(n: nat)
    ensures DigitsValue(NatToString(n)) == n
  {
    var s := NatToString(n);
    if n >= 10 {
      assert s[..|s| - 1] == NatToString(n / 10);
      NatToStringValue(n / 10);
    }
  }

  /** `String(n)` is injective, so distinct numbers give distinct keys. */
  lemma NatToStringInjective(m: nat, n: nat)
    ensures NatToString(m) == NatToString(n) ==> m == n
  {
    NatToStringValue(m);
    NatToStringValue(n);
  }

  /** `String(s).padStart(2, '0')`. */
  function PadStart2(s: string): (r: string)
    ensures |r| == if |s| >= 2 then |s| else 2
    ensures r[|r| - |s|..] == s
    ensures forall i :: 0 <= i < |r| - |s| ==> r[i] == '0'
  {
    if |s| >= 2 then s else seq(2 - |s|, _ => '0') + s
  }

  /** Leading zeros do not change a digit string's value. */
  lemma {:induction false} LeadingZerosValue(z: string, s: string)
    requires forall i :: 0 <= i < |z| ==> z[i] == '0'
    requires AllDigits(s)
    ensures AllDigits(z + s) && DigitsValue(z + s) == DigitsValue(s)
  {
    if s == [] {
      assert z + s == z;
      ZerosValue(z);
    } else {
      var t := z + s;
      assert t[..|t| - 1] == z + s[..|s| - 1];
      LeadingZerosValue(z, s[..|s| - 1]);
    }
  }

  lemma {:induction false} ZerosValue(z: string)
    requires forall i :: 0 <= i < |z| ==> z[i] == '0'
    ensures AllDigits(z) && DigitsValue(z) == 0
  {
    if z != [] {
      ZerosValue(z[..|z| - 1]);
    }
  }

  /** A zero-padded `String(n)`: at least two digits, and its value is n. */
  lemma PaddedValue(n: nat)
    ensures |PadStart2(NatToString(n))| >= 2
    ensures AllDigits(PadStart2(NatToString(n)))
    ensures DigitsValue(PadStart2(NatToString(n))) == n
  {
    var s := NatToString(n);
    var r := PadStart2(s);
    NatToStringValue(n);
    if |s| < 2 {
      LeadingZerosValue(r[..|r| - |s|], s);
      assert r == r[..|r| - |s|] + s;
    }
  }

  /** n < 100 pads to exactly two digits. */
  lemma PaddedWidth(n: nat)
    requires n < 100
    ensures |PadStart2(NatToString(n))| == 2
  {
    if n >= 10 {
      var q := n / 10;
      assert q < 10;
      assert |NatToString(q)| == 1;
      assert NatToString(n) == NatToString(q) + [DigitChar(n % 10)];
    }
  }

  /** Two zero-padded fields joined with ':' read back field by field. */
  lemma MinutesReadBack(mm: string, ss: string, m: nat, sec: nat)
    requires |mm| >= 2 && |ss| == 2
    requires AllDigits(mm) && AllDigits(ss)
    requires DigitsValue(mm) == m && DigitsValue(ss) == sec
    ensures var r := mm + ":" + ss;
      && |r| >= 5 && r[|r| - 3] == ':'
      && AllDigits(r[..|r| - 3]) && AllDigits(r[|r| - 2..])
      && DigitsValue(r[..|r| - 3]) == m && DigitsValue(r[|r| - 2..]) == sec
  {
    Join2(mm, ss);
  }

  lemma Join2(a: string, b: string)
    requires |b| == 2
    ensures var r := a + ":" + b;
      && |r| == |a| + 3 && r[|r| - 3] == ':' && r[..|r| - 3] == a && r[|r| - 2..] == b
  {
  }

  lemma SplitMinutes(s: nat)
    ensures s % 60 < 60 && s == (s / 60) * 60 + s % 60
  {
  }
}
