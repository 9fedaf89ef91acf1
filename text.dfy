/**
 * The few Python string built-ins the modelled code relies on, restricted to
 * ASCII: `str.lower`, `str(n)` for a non-negative integer, `str.split(c)`,
 * `str.strip(c)` and `str.rfind(c)`.
 */
module Text {

  /** `c.lower()` for ASCII; every other character is left alone. */
  function LowerChar(c: char): char {
    if 'A' <= c <= 'Z' then (c as int + 32) as char else c
  }

  predicate IsLower(s: string) {
    forall i :: 0 <= i < |s| ==> !('A' <= s[i] <= 'Z')
  }

  /** `s.lower()`, character by character. */
  function Lower(s: string): (r: string)
    ensures |r| == |s| && IsLower(r)
    ensures forall i :: 0 <= i < |s| && !('A' <= s[i] <= 'Z') ==> r[i] == s[i]
    ensures forall i :: 0 <= i < |s| && 'A' <= s[i] <= 'Z' ==> r[i] as int == s[i] as int + 32
  {
    seq(|s|, i requires 0 <= i < |s| => LowerChar(s[i]))
  }

  lemma LowerConcat(a: string, b: string)
    ensures Lower(a + b) == Lower(a) + Lower(b)
  {
  }

  /** Lower-casing a string that is already lower case changes nothing. */
  lemma LowerOfLower(s: string)
    requires IsLower(s)
    ensures Lower(s) == s
  {
  }

  /** Lower-casing never introduces a character that is not a letter. */
  lemma LowerKeepsAbsent(s: string, c: char)
    requires c !in s && !('a' <= c <= 'z')
    ensures c !in Lower(s)
  {
    var r := Lower(s);
    forall i | 0 <= i < |r| ensures r[i] != c {
      assert s[i] != c;
    }
  }

  /** Different middles give different strings. */
  lemma DifferentMiddles(a: string, x: string, y: string, b: string)
    requires x != y
    ensures a + x + b != a + y + b
  {
    if |x| == |y| {
      var k :| 0 <= k < |x| && x[k] != y[k];
      assert (a + x + b)[|a| + k] == x[k];
      assert (a + y + b)[|a| + k] == y[k];
    }
  }

  /** Different strings stay different when the same tail is appended. */
  lemma DifferentHeads(x: string, y: string, b: string)
    requires x != y
    ensures x + b != y + b
  {
    DifferentMiddles([], x, y, b);
    assert [] + x + b == x + b && [] + y + b == y + b;
  }

  predicate IsDigits(s: string) {
    forall i :: 0 <= i < |s| ==> '0' <= s[i] <= '9'
  }

  function DigitChar(d: nat): char
    requires d < 10
  {
    ('0' as int + d) as char
  }

  /** `str(n)`: the shortest decimal numeral of `n`, most significant digit first. */
  function Decimal(n: nat): (s: string)
    ensures |s| > 0 && IsDigits(s)
    ensures |s| > 1 ==> s[0] != '0'
    decreases n
  {
    if n < 10 then [DigitChar(n)] else Decimal(n / 10) + [DigitChar(n % 10)]
  }

  /** Reads a decimal numeral back; the partner of `Decimal`. */
  function ParseDecimal(s: string): nat
    requires IsDigits(s)
  {
    if s == [] then 0
    else ParseDecimal(s[..|s| - 1]) * 10 + (s[|s| - 1] as int - '0' as int)
  }

  lemma {:induction false} ParseDecimalOfDecimal(n: nat)
    ensures ParseDecimal(Decimal(n)) == n
    decreases n
  {
    if n >= 10 {
      var s := Decimal(n);
      assert s[..|s| - 1] == Decimal(n / 10);
      ParseDecimalOfDecimal(n / 10);
    }
  }

  /** Different numbers print differently, so `str(i)` names never collide. */
  lemma DecimalInjective(m: nat, n: nat)
    requires m != n
    ensures Decimal(m) != Decimal(n)
  {
    ParseDecimalOfDecimal(m);
    ParseDecimalOfDecimal(n);
  }

  lemma LowerOfDecimal(n: nat)
    ensures Lower(Decimal(n)) == Decimal(n)
  {
    LowerOfLower(Decimal(n));
  }

  /** `s.rfind(c)`: the index of the last `c` in `s`, or -1 when there is none. */
  function RFind(s: string, c: char): (i: int)
    ensures -1 <= i < |s|
    ensures i >= 0 ==> s[i] == c && c !in s[i + 1..]
    ensures i == -1 <==> c !in s
  {
    if |s| == 0 then -1
    else if s[|s| - 1] == c then |s| - 1
    else
      assert s == s[..|s| - 1] + [s[|s| - 1]];
      RFind(s[..|s| - 1], c)
  }

  /** `s.split(c)` for a single separator character. */
  function SplitOn(s: string, c: char): (parts: seq<string>)
    ensures |parts| >= 1
    ensures forall k :: 0 <= k < |parts| ==> c !in parts[k]
  {
    if |s| == 0 then [""]
    else if s[0] == c then [""] + SplitOn(s[1..], c)
    else
      var rest := SplitOn(s[1..], c);
      [[s[0]] + rest[0]] + rest[1..]
  }

  /** `c.join(parts)`, the inverse of `SplitOn`. */
  function JoinWith(parts: seq<string>, c: char): string
    requires |parts| >= 1
  {
    if |parts| == 1 then parts[0] else parts[0] + [c] + JoinWith(parts[1..], c)
  }

  lemma {:induction false} SplitOfCFree(a: string, c: char)
    requires c !in a
    ensures SplitOn(a, c) == [a]
  {
    if |a| > 0 {
      SplitOfCFree(a[1..], c);
      assert [a[0]] + a[1..] == a;
    }
  }

  lemma {:induction false} SplitAtFirst(a: string, b: string, c: char)
    requires c !in a
    ensures SplitOn(a + [c] + b, c) == [a] + SplitOn(b, c)
  {
    if |a| == 0 {
      assert a + [c] + b == [c] + b;
      assert ([c] + b)[1..] == b;
    } else {
      SplitAtFirst(a[1..], b, c);
      assert (a + [c] + b)[1..] == a[1..] + [c] + b;
      assert [a[0]] + a[1..] == a;
    }
  }

  lemma {:induction false} SplitOfJoin(parts: seq<string>, c: char)
    requires |parts| >= 1
    requires forall k :: 0 <= k < |parts| ==> c !in parts[k]
    ensures SplitOn(JoinWith(parts, c), c) == parts
  {
    if |parts| == 1 {
      SplitOfCFree(parts[0], c);
    } else {
      SplitOfJoin(parts[1..], c);
      SplitAtFirst(parts[0], JoinWith(parts[1..], c), c);
      assert parts == [parts[0]] + parts[1..];
    }
  }

  /** `s.lstrip(c)`: drops every leading `c`. */
  function TrimStart(s: string, c: char): (r: string)
    ensures |r| <= |s| && r == s[|s| - |r|..]
    ensures |r| == 0 || r[0] != c
    ensures forall i :: 0 <= i < |s| - |r| ==> s[i] == c
  {
    if |s| > 0 && s[0] == c then TrimStart(s[1..], c) else s
  }

  /** `s.rstrip(c)`: drops every trailing `c`. */
  function TrimEnd(s: string, c: char): (r: string)
    ensures |r| <= |s| && r == s[..|r|]
    ensures |r| == 0 || r[|r| - 1] != c
    ensures forall i :: |r| <= i < |s| ==> s[i] == c
  {
    if |s| > 0 && s[|s| - 1] == c then TrimEnd(s[..|s| - 1], c) else s
  }

  /** `s.strip(c)`. */
  function Strip(s: string, c: char): string {
    TrimEnd(TrimStart(s, c), c)
  }

  /** Removing one leading `c` from a string that has no other `c` is the strip. */
  lemma StripLeading(s: string, c: char)
    requires |s| > 0 && s[0] == c && c !in s[1..]
    ensures Strip(s, c) == s[1..]
  {
    assert TrimStart(s[1..], c) == s[1..];
    assert |s[1..]| == 0 || s[|s| - 1] in s[1..];
  }
}
