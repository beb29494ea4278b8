/** String operations of Python that several components use. */
module Text {

  /** The characters that str.strip removes. */
  predicate IsSpace(c: char) {
    var n := c as int;
    || 9 <= n <= 13 || 0x1C <= n <= 0x20 || n == 0x85 || n == 0xA0 || n == 0x1680 || 0x2000 <= n <= 0x200A
    || n == 0x2028 || n == 0x2029 || n == 0x202F || n == 0x205F || n == 0x3000
  }

  /** Of the ASCII characters these are tab, the line breaks, the four separators and the blank. */
  lemma AsciiSpaces(c: char)
    requires (c as int) < 128
    ensures IsSpace(c) <==> c in "\t\n\U{000B}\U{000C}\r\U{001C}\U{001D}\U{001E}\U{001F} "
  {}

  predicate Blank(s: string) { forall c <- s :: IsSpace(c) }

  function Strip(s: string): string {
    if s == [] then s
    else if IsSpace(s[0]) then Strip(s[1..])
    else if IsSpace(s[|s| - 1]) then Strip(s[..|s| - 1])
    else s
  }

  lemma {:induction false} StripLeft(a: string, s: string)
    requires Blank(a)
    ensures Strip(a + s) == Strip(s)
  {
    if a == "" {
      assert a + s == s;
    } else {
      assert a[0] in a && forall c <- a[1..] :: c in a;
      assert (a + s)[0] == a[0] && (a + s)[1..] == a[1..] + s;
      StripLeft(a[1..], s);
    }
    hide IsSpace;
  }

  lemma {:induction false} StripRight(t: string, b: string)
    requires Blank(b) && t != "" && !IsSpace(t[0]) && !IsSpace(t[|t| - 1])
    ensures Strip(t + b) == t
  {
    if b == "" {
      assert t + b == t;
    } else {
      assert b[|b| - 1] in b && forall c <- b[..|b| - 1] :: c in b;
      assert (t + b)[..|t + b| - 1] == t + b[..|b| - 1];
      StripRight(t, b[..|b| - 1]);
    }
    hide IsSpace;
  }

  /** Only the white space around the ink goes. */
  lemma StripMeans(a: string, t: string, b: string)
    requires Blank(a) && Blank(b) && (t == "" || (!IsSpace(t[0]) && !IsSpace(t[|t| - 1])))
    ensures Strip(a + t + b) == t
  {
    hide IsSpace;
    assert a + t + b == a + (t + b);
    StripLeft(a, t + b);
    if t == "" {
      assert t + b == b + "";
      StripLeft(b, "");
    } else {
      StripRight(t, b);
    }
  }

  /** The slice s[:n]; a negative bound counts from the end. */
  function Take(s: string, n: int): string {
    if n >= |s| then s else if n >= 0 then s[..n] else if |s| + n >= 0 then s[..|s| + n] else []
  }

  lemma TakeMeans(s: string, n: int)
    ensures n >= 0 ==> Take(s, n) <= s && |Take(s, n)| == if n < |s| then n else |s|
    ensures n < 0 ==> Take(s, n) <= s && |Take(s, n)| == if |s| + n > 0 then |s| + n else 0
  {}

  predicate Occurs(part: string, s: string) { exists i | 0 <= i <= |s| :: part <= s[i..] }

  lemma OccursMeans(part: string, s: string)
    ensures Occurs(part, s) <==> exists a: string, b: string :: s == a + part + b
  {
    if Occurs(part, s) {
      var i :| 0 <= i <= |s| && part <= s[i..];
      assert s == s[..i] + part + s[i + |part|..];
    }
    if a: string, b: string :| s == a + part + b {
      assert s[|a|..] == part + b;
    }
  }

  const DIGITS := "0123456789"

  function Decimal(n: nat): (d: string)
    ensures d != []
    ensures forall c <- d :: c in DIGITS
  {
    if n < 10 then [DIGITS[n]] else Decimal(n / 10) + [DIGITS[n % 10]]
  }

  function DigitValue(c: char): int { c as int - '0' as int }

  /** A text read as a number in base ten. */
  function Value(d: string): int { if d == "" then 0 else 10 * Value(d[..|d| - 1]) + DigitValue(d[|d| - 1]) }

  /** A decimal reads as its number and has no leading zero. */
  lemma {:induction false} DecimalReads(n: nat)
    ensures Value(Decimal(n)) == n && (n > 0 ==> Decimal(n)[0] != '0')
  {
    if n < 10 {
      DigitReads(n);
      assert Decimal(n)[..0] == "" && Value("") == 0;
    } else {
      DecimalReads(n / 10);
      DigitReads(n % 10);
      assert Decimal(n)[..|Decimal(n)| - 1] == Decimal(n / 10);
    }
  }

  lemma DigitReads(i: nat)
    requires i < 10
    ensures DigitValue(DIGITS[i]) == i
  {}

  lemma DigitsDiffer(i: nat, j: nat)
    requires i < 10 && j < 10 && DIGITS[i] == DIGITS[j]
    ensures i == j
  {}

  /** Different numbers have different decimals. */
  lemma {:induction false} DecimalInjective(m: nat, n: nat)
    requires Decimal(m) == Decimal(n)
    ensures m == n
  {
    var a, b := Decimal(m), Decimal(n);
    assert a[|a| - 1] == DIGITS[m % 10] && b[|b| - 1] == DIGITS[n % 10];
    DigitsDiffer(m % 10, n % 10);
    if m >= 10 && n >= 10 {
      assert a[..|a| - 1] == Decimal(m / 10) && b[..|b| - 1] == Decimal(n / 10);
      DecimalInjective(m / 10, n / 10);
    }
  }
}
