/** UTF-8 as a text file uses it: encoding, strict decoding, and what a cut at some byte leaves.

    The characters of the model are Unicode scalar values, so there are no lone surrogates.
 */
module Utf8 {
  import opened Wrappers

  type Byte = x: int | 0 <= x < 256

  /** A byte that continues a character. */
  predicate IsRest(b: Byte) { 0x80 <= b < 0xC0 }

  function Width(c: char): (w: nat)
    ensures 1 <= w <= 4
  {
    var n := c as int;
    if n < 0x80 then 1 else if n < 0x800 then 2 else if n < 0x10000 then 3 else 4
  }

  /** The number of the character in base 64, marked. */
  function EncodeChar(c: char): (b: seq<Byte>)
    ensures |b| == Width(c)
  {
    var n := c as int;
    var q := n / 64;
    var r := q / 64;
    if n < 0x80 then [n]
    else if n < 0x800 then [0xC0 + q, 0x80 + n % 64]
    else if n < 0x10000 then [0xE0 + r, 0x80 + q % 64, 0x80 + n % 64]
    else [0xF0 + r / 64, 0x80 + r % 64, 0x80 + q % 64, 0x80 + n % 64]
  }

  function Encode(s: string): seq<Byte> { if s == [] then [] else EncodeChar(s[0]) + Encode(s[1..]) }

  // ---- Decoding ----

  /** How many bytes a character takes, by its first byte. */
  function LeadWidth(b: Byte): nat { if b < 0x80 then 1 else if b < 0xE0 then 2 else if b < 0xF0 then 3 else 4 }

  /** The number written in the first bytes, whether or not it is a character. */
  function Number(b: seq<Byte>): int
    requires b != [] && LeadWidth(b[0]) <= |b|
  {
    var x: int := b[0];
    match LeadWidth(b[0])
    case 1 => x
    case 2 => (x - 0xC0) * 64 + Rest(b[1])
    case 3 => ((x - 0xE0) * 64 + Rest(b[1])) * 64 + Rest(b[2])
    case _ => (((x - 0xF0) * 64 + Rest(b[1])) * 64 + Rest(b[2])) * 64 + Rest(b[3])
  }

  function Rest(b: Byte): int { b as int - 0x80 }

  predicate IsScalar(n: int) { 0 <= n < 0xD800 || 0xE000 <= n < 0x110000 }

  /** The first character, if it is there in full and in its only valid form. */
  function FirstChar(b: seq<Byte>): (c: Option<char>)
    ensures c.Some? ==> Width(c.value) <= |b| && b[..Width(c.value)] == EncodeChar(c.value)
  {
    if b == [] || LeadWidth(b[0]) > |b| || !IsScalar(Number(b)) then None
    else
      var c := Number(b) as char;
      if Width(c) <= |b| && EncodeChar(c) == b[..Width(c)] then Some(c) else None
  }

  /** Strict decoding: one bad spot, or a character that breaks off at the end, and there is no text. */
  function Decode(b: seq<Byte>): Option<string> {
    if b == [] then Some([])
    else
      var c := FirstChar(b);
      if c.None? then None
      else
        var rest := Decode(b[Width(c.value)..]);
        if rest.None? then None else Some([c.value] + rest.value)
  }

  lemma LeadOf(c: char)
    ensures !IsRest(EncodeChar(c)[0]) && LeadWidth(EncodeChar(c)[0]) == Width(c)
    ensures forall i | 0 < i < Width(c) :: IsRest(EncodeChar(c)[i])
  {}

  lemma NumberOf(c: char, rest: seq<Byte>)
    ensures LeadWidth(EncodeChar(c)[0]) == Width(c) && Number(EncodeChar(c) + rest) == c as int
  {
    LeadOf(c);
    var n := c as int;
    var b, e := EncodeChar(c) + rest, EncodeChar(c);
    assert n == n / 64 * 64 + n % 64;
    assert n / 64 == n / 64 / 64 * 64 + n / 64 % 64;
    assert n / 64 / 64 == n / 64 / 64 / 64 * 64 + n / 64 / 64 % 64;
    assert forall i | 0 <= i < Width(c) :: b[i] == e[i];
    if n < 0x80 {
    } else if n < 0x800 {
      assert e == [0xC0 + n / 64, 0x80 + n % 64];
    } else if n < 0x10000 {
      assert e == [0xE0 + n / 64 / 64, 0x80 + n / 64 % 64, 0x80 + n % 64];
    } else {
      assert e == [0xF0 + n / 64 / 64 / 64, 0x80 + n / 64 / 64 % 64, 0x80 + n / 64 % 64, 0x80 + n % 64];
    }
  }

  lemma FirstOf(c: char, rest: seq<Byte>)
    ensures FirstChar(EncodeChar(c) + rest) == Some(c)
  {
    hide EncodeChar, Number, LeadWidth, Width;
    NumberOf(c, rest);
    var b := EncodeChar(c) + rest;
    assert b[..Width(c)] == EncodeChar(c) && b[0] == EncodeChar(c)[0];
    assert IsScalar(c as int);
  }

  /** A first character is there only with all its continuation bytes. */
  lemma FirstHas(b: seq<Byte>)
    requires FirstChar(b).Some?
    ensures b != [] && LeadWidth(b[0]) <= |b| && forall i | 0 < i < LeadWidth(b[0]) :: IsRest(b[i])
  {
    hide EncodeChar, Number, LeadWidth, Width;
    var c := FirstChar(b).value;
    LeadOf(c);
    assert forall i | 0 <= i < Width(c) :: b[i] == b[..Width(c)][i];
  }

  lemma FirstNeeds(b: seq<Byte>, k: nat)
    requires b != [] && 0 < k < LeadWidth(b[0]) && (k >= |b| || !IsRest(b[k]))
    ensures FirstChar(b) == None
  {
    hide FirstChar, LeadWidth, IsRest;
    if FirstChar(b).Some? { FirstHas(b); }
  }

  lemma {:induction false} EncodeAppend(s: string, t: string)
    ensures Encode(s + t) == Encode(s) + Encode(t)
  {
    hide EncodeChar;
    if s == [] {
      assert s + t == t;
    } else {
      EncodeAppend(s[1..], t);
      assert (s + t)[1..] == s[1..] + t;
    }
  }

  lemma DecodeNext(c: char, rest: seq<Byte>)
    ensures Decode(EncodeChar(c) + rest) == if Decode(rest).None? then None else Some([c] + Decode(rest).value)
  {
    hide EncodeChar, FirstChar, Width;
    FirstOf(c, rest);
    assert (EncodeChar(c) + rest)[Width(c)..] == rest;
  }

  /** Text in front decodes to itself and leaves the rest to decide. */
  lemma {:induction false} DecodeAppend(s: string, rest: seq<Byte>)
    ensures Decode(Encode(s) + rest) == if Decode(rest).None? then None else Some(s + Decode(rest).value)
  {
    hide Decode, EncodeChar;
    if s == [] {
      assert Encode(s) + rest == rest;
      assert Decode(rest).Some? ==> s + Decode(rest).value == Decode(rest).value;
    } else {
      DecodeAppend(s[1..], rest);
      DecodeNext(s[0], Encode(s[1..]) + rest);
      assert EncodeChar(s[0]) + (Encode(s[1..]) + rest) == Encode(s) + rest;
      if Decode(rest).Some? { assert [s[0]] + (s[1..] + Decode(rest).value) == s + Decode(rest).value; }
    }
  }

  /** Decoding undoes encoding. */
  lemma DecodeEncode(s: string)
    ensures Decode(Encode(s)) == Some(s)
  {
    DecodeAppend(s, []);
    assert Decode([]) == Some([]);
    hide Decode, Encode;
    assert Encode(s) + [] == Encode(s) && s + [] == s;
  }

  /** Nothing but an encoded text decodes. */
  lemma {:induction false} DecodeIsEncoded(b: seq<Byte>)
    requires Decode(b).Some?
    ensures Encode(Decode(b).value) == b
  {
    hide FirstChar, EncodeChar;
    if b != [] {
      var c := FirstChar(b).value;
      DecodeIsEncoded(b[Width(c)..]);
      var rest := Decode(b[Width(c)..]).value;
      assert ([c] + rest)[1..] == rest;
      assert b == b[..Width(c)] + b[Width(c)..];
    }
  }

  // ---- Cuts ----

  /** How many characters fit into the first k bytes. */
  function Chars(s: string, k: nat): (n: nat)
    ensures n <= |s|
  {
    if s == [] || k < Width(s[0]) then 0 else 1 + Chars(s[1..], k - Width(s[0]))
  }

  /** The first k bytes end in the middle of a character. */
  predicate Inside(s: string, k: nat) { |Encode(s[..Chars(s, k)])| != k }

  lemma EncodeNext(c: char, s: string)
    ensures Encode([c] + s) == EncodeChar(c) + Encode(s)
  {
    assert ([c] + s)[1..] == s;
  }

  /** The first k bytes are the whole characters that fit, and `torn` bytes of the next one. */
  predicate IsCut(s: string, k: nat, n: nat, torn: nat) {
    && k <= |Encode(s)| && n <= |s| && |Encode(s[..n])| + torn == k
    && (torn > 0 ==> n < |s| && torn < Width(s[n]))
    && Encode(s)[..k] == Encode(s[..n]) + if torn > 0 then EncodeChar(s[n])[..torn] else []
  }

  lemma CutNone(s: string, k: nat)
    requires k <= |Encode(s)| && (s == [] || k < Width(s[0]))
    ensures Chars(s, k) == 0 && IsCut(s, k, 0, k) && (Inside(s, k) <==> k > 0)
  {
    hide EncodeChar, Width;
    assert s[..0] == [];
    if s != [] { assert Encode(s)[..k] == [] + EncodeChar(s[0])[..k]; }
  }

  lemma CharsNext(c: char, s: string, k: nat)
    ensures Chars([c] + s, k + Width(c)) == Chars(s, k) + 1
    ensures Inside([c] + s, k + Width(c)) <==> Inside(s, k)
  {
    hide EncodeChar, Width;
    var t, n := [c] + s, Chars(s, k);
    assert t[1..] == s && t[..n + 1] == [c] + s[..n];
    EncodeNext(c, s[..n]);
  }

  /** What a cut leaves: whole characters, and a torn one exactly if the cut falls inside. */
  lemma {:induction false} CutText(s: string, k: nat) returns (torn: nat)
    requires k <= |Encode(s)|
    ensures IsCut(s, k, Chars(s, k), torn) && (Inside(s, k) <==> torn > 0)
  {
    hide EncodeChar, Width, IsCut, Inside, Chars;
    if s == [] || k < Width(s[0]) {
      torn := k;
      CutNone(s, k);
    } else {
      var w, rest := Width(s[0]), s[1..];
      assert |Encode(s)| == w + |Encode(rest)| && s == [s[0]] + rest;
      torn := CutText(rest, k - w);
      CutNext(s[0], rest, k - w, Chars(rest, k - w), torn);
      CharsNext(s[0], rest, k - w);
    }
  }

  lemma CutNext(c: char, s: string, k: nat, n: nat, torn: nat)
    requires IsCut(s, k, n, torn)
    ensures IsCut([c] + s, k + Width(c), n + 1, torn)
  {
    hide EncodeChar, Width, Encode;
    var t := [c] + s;
    EncodeNext(c, s);
    EncodeNext(c, s[..n]);
    assert t[..n + 1] == [c] + s[..n];
    var tail := if torn > 0 then EncodeChar(s[n])[..torn] else [];
    assert Encode(t)[..k + Width(c)] == EncodeChar(c) + Encode(s)[..k];
    assert EncodeChar(c) + (Encode(s[..n]) + tail) == (EncodeChar(c) + Encode(s[..n])) + tail;
  }

  /** Behind a torn character nothing helps: whatever follows begins a new one. */
  lemma TornNeverDecodes(s: string, c: char, k: nat, more: seq<Byte>)
    requires 0 < k < Width(c) && (more == [] || !IsRest(more[0]))
    ensures Decode(Encode(s) + EncodeChar(c)[..k] + more) == None
  {
    hide EncodeChar, Width, Encode, LeadWidth, FirstChar;
    var b := EncodeChar(c)[..k] + more;
    assert Encode(s) + EncodeChar(c)[..k] + more == Encode(s) + b;
    DecodeAppend(s, b);
    LeadOf(c);
    assert b[0] == EncodeChar(c)[0] && (more != [] ==> b[k] == more[0]);
    FirstNeeds(b, k);
  }

  predicate IsAscii(s: string) { forall c <- s :: (c as int) < 0x80 }

  lemma AsciiParts(a: string, b: string, n: nat)
    requires IsAscii(a) && IsAscii(b) && n <= |b|
    ensures IsAscii(a + b) && IsAscii(b[..n]) && IsAscii(a + b[..n])
  {
    assert forall c <- b[..n] :: c in b;
  }

  /** No cut falls inside a character of an ASCII text. */
  lemma {:induction false} AsciiIsNeverTorn(s: string, k: nat)
    requires IsAscii(s) && k <= |Encode(s)|
    ensures !Inside(s, k) && |Encode(s)| == |s|
  {
    if s != [] {
      assert s[0] in s && forall c <- s[1..] :: c in s;
      if k == 0 {
        AsciiIsNeverTorn(s[1..], 0);
        assert s[..0] == [];
      } else {
        AsciiIsNeverTorn(s[1..], k - 1);
        var n := Chars(s[1..], k - 1);
        assert s[..n + 1][1..] == s[1..][..n];
      }
    }
  }

  /** In any other text some cut does. */
  lemma {:induction false} OthersCanBeTorn(s: string) returns (k: nat)
    requires !IsAscii(s)
    ensures k < |Encode(s)| && Inside(s, k)
  {
    if (s[0] as int) >= 0x80 {
      k := 1;
      assert s[..0] == [];
    } else {
      assert s == [s[0]] + s[1..];
      var m := OthersCanBeTorn(s[1..]);
      k := m + 1;
      var n := Chars(s[1..], m);
      assert Chars(s, k) == n + 1 && s[..n + 1][1..] == s[1..][..n];
    }
  }

  /** What a reader sees of the first k bytes of a text: the whole characters, or nothing at all. */
  lemma DecodeCut(s: string, k: nat)
    requires k <= |Encode(s)|
    ensures Decode(Encode(s)[..k]) == if Inside(s, k) then None else Some(s[..Chars(s, k)])
  {
    hide EncodeChar, Width, Decode, Encode;
    var n := Chars(s, k);
    var torn := CutText(s, k);
    if torn > 0 {
      TornNeverDecodes(s[..n], s[n], torn, []);
      assert Encode(s[..n]) + EncodeChar(s[n])[..torn] + [] == Encode(s)[..k];
    } else {
      DecodeEncode(s[..n]);
      assert Encode(s[..n]) + [] == Encode(s[..n]);
    }
  }

  /** Part of a character behind any text is a cut inside. */
  lemma {:induction false} InsideAt(a: string, c: char, b: string, k: nat)
    requires 0 < k < Width(c)
    ensures Inside(a + [c] + b, |Encode(a)| + k) && |Encode(a)| + k < |Encode(a + [c] + b)|
    ensures Chars(a + [c] + b, |Encode(a)| + k) == |a|
  {
    var s := a + [c] + b;
    if a == [] {
      assert s == [c] + b;
      assert s[..0] == [];
    } else {
      InsideAt(a[1..], c, b, k);
      assert s[1..] == a[1..] + [c] + b;
      assert s[..|a|] == a && s[1..][..|a| - 1] == a[1..];
    }
  }
}
