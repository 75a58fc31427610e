/** Base 32 as defined by section 6 of RFC 4648: every five bytes become eight digits of five bits, and a
    last group of one to four bytes is filled up with the padding character. */
module Base32 {
  import opened Options
  import opened Strings

  type Byte = x: int | 0 <= x < 256
  type Digit = x: int | 0 <= x < 32

  const PAD := '='

  function ToChar(d: Digit): char {
    if d < 26 then (d + 'A' as int) as char else (d - 26 + '2' as int) as char
  }

  function FromChar(c: char): Option<Digit> {
    if 'A' <= c <= 'Z' then Some(c as int - 'A' as int)
    else if '2' <= c <= '7' then Some(c as int - '2' as int + 26)
    else None
  }

  /** The eight digits of a full group. */
  function GroupDigits(a: Byte, b: Byte, c: Byte, d: Byte, e: Byte): seq<Digit> {
    [a / 8, (a % 8) * 4 + b / 64, (b / 2) % 32, (b % 2) * 16 + c / 16,
     (c % 16) * 2 + d / 128, (d / 4) % 32, (d % 4) * 8 + e / 32, e % 32]
  }

  /** How many digits carry the bits of n bytes. */
  function DigitCount(n: nat): nat {
    (8 * n + 4) / 5
  }

  /** Five bytes of `s` starting at `i`, zero beyond its end. */
  function At(s: seq<Byte>, i: nat): Byte {
    if i < |s| then s[i] else 0
  }

  /** The digits of a group filled up with zero bytes. */
  function FilledDigits(s: seq<Byte>): (g: seq<Digit>)
    ensures |g| == 8
  {
    GroupDigits(At(s, 0), At(s, 1), At(s, 2), At(s, 3), At(s, 4))
  }

  /** The digits of one group of one to five bytes, without padding. */
  function EncodeGroup(s: seq<Byte>): (r: string)
    requires 1 <= |s| <= 5
    ensures |r| == DigitCount(|s|)
  {
    seq(DigitCount(|s|), i requires 0 <= i < DigitCount(|s|) => ToChar(FilledDigits(s)[i]))
  }

  function Encode(s: seq<Byte>): string {
    if s == [] then []
    else if |s| < 5 then EncodeGroup(s) + Repeat(PAD, 8 - DigitCount(|s|))
    else EncodeGroup(s[..5]) + Encode(s[5..])
  }

  function LeadingDigits(s: string): nat
    ensures LeadingDigits(s) <= |s|
  {
    if s == [] || s[0] == PAD then 0 else 1 + LeadingDigits(s[1..])
  }

  /** Decodes a group of eight characters; only the `last` one may be padded. */
  function DecodeGroup(s: string, last: bool): Option<seq<Byte>>
    requires |s| == 8
  {
    var n := LeadingDigits(s);
    if (exists i | n <= i < 8 :: s[i] != PAD) || (exists i | 0 <= i < n :: FromChar(s[i]).None?) then None
    else if (n < 8 && !last) || WholeBytes(n).None? then None
    else Some(GroupBytes(s, n)[..WholeBytes(n).value])
  }

  /** How many bytes n digits spell; one, three or six digits are not a possible ending. */
  function WholeBytes(n: nat): (r: Option<nat>)
    ensures r.Some? ==> 1 <= r.value <= 5 && DigitCount(r.value) == n
  {
    match n
    case 8 => Some(5)
    case 7 => Some(4)
    case 5 => Some(3)
    case 4 => Some(2)
    case 2 => Some(1)
    case _ => None
  }

  /** The value of character `i`, zero from position `n` on. */
  function DigitAt(s: string, n: nat, i: nat): Digit
    requires |s| == 8 && i < 8
    requires forall k | 0 <= k < n && k < 8 :: FromChar(s[k]).Some?
  {
    if i < n then FromChar(s[i]).value else 0
  }

  /** The five bytes that eight digits spell. */
  function GroupBytes(s: string, n: nat): (r: seq<Byte>)
    requires |s| == 8
    requires forall k | 0 <= k < n && k < 8 :: FromChar(s[k]).Some?
    ensures |r| == 5
  {
    BytesOf(DigitAt(s, n, 0), DigitAt(s, n, 1), DigitAt(s, n, 2), DigitAt(s, n, 3),
            DigitAt(s, n, 4), DigitAt(s, n, 5), DigitAt(s, n, 6), DigitAt(s, n, 7))
  }

  function BytesOf(a: Digit, b: Digit, c: Digit, d: Digit, e: Digit, f: Digit, g: Digit, h: Digit): (r: seq<Byte>)
    ensures |r| == 5
  {
    [a * 8 + b / 4, (b % 4) * 64 + c * 2 + d / 16, (d % 16) * 16 + e / 2,
     (e % 2) * 128 + f * 4 + g / 8, (g % 8) * 32 + h]
  }

  function Decode(s: string): Option<seq<Byte>> {
    if s == [] then Some([])
    else if |s| < 8 then None
    else
      match DecodeGroup(s[..8], |s| == 8)
      case None => None
      case Some(head) =>
        match Decode(s[8..])
        case None => None
        case Some(tail) => Some(head + tail)
  }

  // ---- Groups ----

  /** Table 3 of RFC 4648. */
  lemma Alphabet(d: Digit)
    ensures ToChar(d) == "ABCDEFGHIJKLMNOPQRSTUVWXYZ234567"[d]
    ensures FromChar("ABCDEFGHIJKLMNOPQRSTUVWXYZ234567"[d]) == Some(d)
  {
    if d < 8 {
      assert d == 0 || d == 1 || d == 2 || d == 3 || d == 4 || d == 5 || d == 6 || d == 7;
    } else if d < 16 {
      assert d == 8 || d == 9 || d == 10 || d == 11 || d == 12 || d == 13 || d == 14 || d == 15;
    } else if d < 24 {
      assert d == 16 || d == 17 || d == 18 || d == 19 || d == 20 || d == 21 || d == 22 || d == 23;
    } else {
      assert d == 24 || d == 25 || d == 26 || d == 27 || d == 28 || d == 29 || d == 30 || d == 31;
    }
  }

  lemma CharRoundTrip(d: Digit)
    ensures FromChar(ToChar(d)) == Some(d) && ToChar(d) != PAD
  {}

  lemma Join(hi: nat, lo: nat, k: nat)
    requires k in {2, 4, 8, 16} && lo < k
    ensures (hi * k + lo) / k == hi && (hi * k + lo) % k == lo
  {
    if k == 2 {
    } else if k == 4 {
    } else if k == 8 {
    } else {
      assert k == 16;
    }
  }

  lemma FirstByte(a: Byte, b: Byte, g: Digit)
    requires g == (a % 8) * 4 + b / 64
    ensures (a / 8) * 8 + g / 4 == a && g % 4 == b / 64
  {
    Join(a % 8, b / 64, 4);
  }

  lemma SecondByte(b: Byte, c: Byte, g: Digit)
    requires g == (b % 2) * 16 + c / 16
    ensures (b / 64) * 64 + ((b / 2) % 32) * 2 + g / 16 == b && g % 16 == c / 16
  {
    Join(b % 2, c / 16, 16);
  }

  lemma ThirdByte(c: Byte, d: Byte, g: Digit)
    requires g == (c % 16) * 2 + d / 128
    ensures (c / 16) * 16 + g / 2 == c && g % 2 == d / 128
  {
    Join(c % 16, d / 128, 2);
  }

  lemma FourthByte(d: Byte, e: Byte, g: Digit)
    requires g == (d % 4) * 8 + e / 32
    ensures (d / 128) * 128 + ((d / 4) % 32) * 4 + g / 8 == d && g % 8 == e / 32
  {
    Join(d % 4, e / 32, 8);
  }

  lemma Assemble(g: seq<int>, a: Byte, b: Byte, c: Byte, d: Byte, e: Byte)
    requires |g| == 8 && forall i | 0 <= i < 8 :: 0 <= g[i] < 32
    requires g[0] * 8 + g[1] / 4 == a
    requires (g[1] % 4) * 64 + g[2] * 2 + g[3] / 16 == b
    requires (g[3] % 16) * 16 + g[4] / 2 == c
    requires (g[4] % 2) * 128 + g[5] * 4 + g[6] / 8 == d
    requires (g[6] % 8) * 32 + g[7] == e
    ensures BytesOf(g[0], g[1], g[2], g[3], g[4], g[5], g[6], g[7]) == [a, b, c, d, e]
  {}

  lemma DigitsRoundTrip(a: Byte, b: Byte, c: Byte, d: Byte, e: Byte)
    ensures var g := GroupDigits(a, b, c, d, e);
            BytesOf(g[0], g[1], g[2], g[3], g[4], g[5], g[6], g[7]) == [a, b, c, d, e]
  {
    var g := GroupDigits(a, b, c, d, e);
    FirstByte(a, b, g[1]);
    SecondByte(b, c, g[3]);
    ThirdByte(c, d, g[4]);
    FourthByte(d, e, g[6]);
    Assemble(g, a, b, c, d, e);
  }

  lemma SplitBytes(b: Byte, c: Byte, d: Byte, e: Byte)
    ensures b == (b / 64) * 64 + ((b / 2) % 32) * 2 + b % 2
    ensures c == (c / 16) * 16 + c % 16
    ensures d == (d / 128) * 128 + ((d / 4) % 32) * 4 + d % 4
    ensures e == (e / 32) * 32 + e % 32
  {}

  /** Eight digits of five bits, read as one number of forty bits. */
  function DigitsValue(g: seq<int>): int
    requires |g| == 8
  {
    g[0] * 0x8_0000_0000 + g[1] * 0x4000_0000 + g[2] * 0x200_0000 + g[3] * 0x10_0000
    + g[4] * 0x8000 + g[5] * 0x400 + g[6] * 0x20 + g[7]
  }

  /** Five bytes, read as one number of forty bits. */
  function BytesValue(s: seq<int>): int
    requires |s| == 5
  {
    s[0] * 0x1_0000_0000 + s[1] * 0x100_0000 + s[2] * 0x1_0000 + s[3] * 0x100 + s[4]
  }

  /** The digits of a group spell the same forty bits as its bytes. */
  lemma GroupIsFortyBits(a: Byte, b: Byte, c: Byte, d: Byte, e: Byte)
    ensures DigitsValue(GroupDigits(a, b, c, d, e)) == BytesValue([a, b, c, d, e])
  {
    SplitBytes(b, c, d, e);
  }

  lemma {:induction false} CountDigits(digits: string, rest: string)
    requires forall i | 0 <= i < |digits| :: digits[i] != PAD
    requires rest == [] || rest[0] == PAD
    ensures LeadingDigits(digits + rest) == |digits|
  {
    if digits == [] {
      assert digits + rest == rest;
    } else {
      CountDigits(digits[1..], rest);
      assert (digits + rest)[1..] == digits[1..] + rest;
    }
  }

  lemma NoBits(x: int, y: int)
    requires x == 0 && y == 0
    ensures (x / 2) % 32 == 0 && (x / 4) % 32 == 0 && x % 32 == 0
    ensures (x % 2) * 16 + y / 16 == 0 && (x % 16) * 2 + y / 128 == 0 && (x % 4) * 8 + y / 32 == 0
  {}

  /** Beyond the last byte there are no bits. */
  lemma TrailingDigits(s: seq<Byte>)
    requires 1 <= |s| <= 5
    ensures forall i | DigitCount(|s|) <= i < 8 :: FilledDigits(s)[i] == 0
  {
    var b, c, d, e := At(s, 1), At(s, 2), At(s, 3), At(s, 4);
    if |s| == 1 {
      NoBits(b, c);
      NoBits(c, d);
      NoBits(d, e);
      NoBits(e, e);
    } else if |s| == 2 {
      NoBits(c, d);
      NoBits(d, e);
      NoBits(e, e);
    } else if |s| == 3 {
      NoBits(d, e);
      NoBits(e, e);
    } else if |s| == 4 {
      NoBits(e, e);
    }
  }

  lemma GroupChar(s: seq<Byte>, i: nat)
    requires 1 <= |s| <= 5 && i < DigitCount(|s|)
    ensures EncodeGroup(s)[i] != PAD && FromChar(EncodeGroup(s)[i]) == Some(FilledDigits(s)[i])
  {
    CharRoundTrip(FilledDigits(s)[i]);
  }

  /** What one padded group looks like to the decoder. */
  lemma GroupDigitsSurvive(s: seq<Byte>, t: string)
    requires 1 <= |s| <= 5 && t == EncodeGroup(s) + Repeat(PAD, 8 - DigitCount(|s|))
    ensures |t| == 8 && LeadingDigits(t) == DigitCount(|s|)
    ensures forall i | DigitCount(|s|) <= i < 8 :: t[i] == PAD
    ensures forall i | 0 <= i < DigitCount(|s|) :: FromChar(t[i]).Some?
    ensures GroupBytes(t, DigitCount(|s|)) == [At(s, 0), At(s, 1), At(s, 2), At(s, 3), At(s, 4)]
  {
    var n := DigitCount(|s|);
    var g := FilledDigits(s);
    forall i | 0 <= i < n ensures EncodeGroup(s)[i] != PAD && FromChar(EncodeGroup(s)[i]) == Some(g[i]) {
      GroupChar(s, i);
    }
    CountDigits(EncodeGroup(s), Repeat(PAD, 8 - n));
    assert forall i | 0 <= i < n :: FromChar(t[i]) == Some(g[i]);
    TrailingDigits(s);
    GroupReads(t, n, g);
    DigitsRoundTrip(At(s, 0), At(s, 1), At(s, 2), At(s, 3), At(s, 4));
  }

  lemma GroupReads(t: string, n: nat, g: seq<Digit>)
    requires |t| == |g| == 8 && n <= 8
    requires forall i | 0 <= i < n :: FromChar(t[i]) == Some(g[i])
    requires forall i | n <= i < 8 :: g[i] == 0
    ensures GroupBytes(t, n) == BytesOf(g[0], g[1], g[2], g[3], g[4], g[5], g[6], g[7])
  {
    assert forall i | 0 <= i < 8 :: DigitAt(t, n, i) == g[i];
  }

  lemma PaddedPrefix(s: seq<Byte>)
    requires 1 <= |s| <= 5
    ensures [At(s, 0), At(s, 1), At(s, 2), At(s, 3), At(s, 4)][..|s|] == s
  {}

  lemma DigitsOfBytes(k: nat)
    requires 1 <= k <= 5
    ensures WholeBytes(DigitCount(k)) == Some(k)
  {
    assert k == 1 || k == 2 || k == 3 || k == 4 || k == 5;
  }

  lemma GroupRoundTrip(s: seq<Byte>, t: string)
    requires 1 <= |s| <= 5 && t == EncodeGroup(s) + Repeat(PAD, 8 - DigitCount(|s|))
    ensures |t| == 8 && DecodeGroup(t, true) == Some(s)
    ensures |s| == 5 ==> DecodeGroup(t, false) == Some(s)
  {
    var n := DigitCount(|s|);
    GroupDigitsSurvive(s, t);
    DigitsOfBytes(|s|);
    assert GroupBytes(t, n)[..|s|] == s by {
      PaddedPrefix(s);
    }
  }

  // ---- Whole strings ----

  /** Decoding is the inverse of encoding, for every byte string. */
  lemma {:induction false} RoundTrip(s: seq<Byte>)
    ensures Decode(Encode(s)) == Some(s)
  {
    hide EncodeGroup, DecodeGroup;
    if s == [] {
    } else if |s| < 5 {
      var t := Encode(s);
      GroupRoundTrip(s, t);
      assert t[..8] == t && t[8..] == [];
      assert s + [] == s;
    } else {
      var head, tail := EncodeGroup(s[..5]), Encode(s[5..]);
      assert head + Repeat(PAD, 0) == head;
      GroupRoundTrip(s[..5], head);
      RoundTrip(s[5..]);
      var t := Encode(s);
      assert t[..8] == head && t[8..] == tail;
      assert s == s[..5] + s[5..];
    }
  }

  /** The test vector "foob" of section 10 of RFC 4648, in ASCII codes. */
  lemma TestVector(a: Byte, b: Byte, c: Byte, d: Byte)
    requires a == 102 && b == 111 && c == 111 && d == 98
    ensures Encode([a, b, c, d]) == "MZXW6YQ="
  {
    var s := [a, b, c, d];
    var g := FilledDigits(s);
    assert g[0] == 12 && g[1] == 25 && g[2] == 23 && g[3] == 22 && g[4] == 30 && g[5] == 24 && g[6] == 16;
    var r := EncodeGroup(s);
    assert r == [ToChar(g[0]), ToChar(g[1]), ToChar(g[2]), ToChar(g[3]), ToChar(g[4]), ToChar(g[5]), ToChar(g[6])];
    assert r == "MZXW6YQ";
    assert Encode(s) == r + "=";
  }

  /** The encoding without its padding. */
  function Unpadded(s: seq<Byte>): string {
    if s == [] then []
    else if |s| < 5 then EncodeGroup(s)
    else EncodeGroup(s[..5]) + Unpadded(s[5..])
  }

  function PadCount(n: nat): nat {
    (8 - DigitCount(n) % 8) % 8
  }

  lemma PadCounts(n: nat)
    ensures 0 < n < 5 ==> PadCount(n) == 8 - DigitCount(n)
    ensures n >= 5 ==> DigitCount(n) == DigitCount(n - 5) + 8 && PadCount(n) == PadCount(n - 5)
  {
    if n == 0 || n == 1 || n == 2 || n == 3 || n == 4 {
    } else {
      AddToQuotient(8 * (n - 5) + 4);
      AddToRemainder(DigitCount(n - 5));
    }
  }

  lemma AddToQuotient(x: nat)
    ensures (x + 40) / 5 == x / 5 + 8
  {}

  lemma AddToRemainder(x: nat)
    ensures (x + 8) % 8 == x % 8
  {}

  lemma GroupChars(s: seq<Byte>)
    requires 1 <= |s| <= 5
    ensures forall c | c in EncodeGroup(s) :: FromChar(c).Some?
  {
    forall i | 0 <= i < DigitCount(|s|) ensures FromChar(EncodeGroup(s)[i]).Some? {
      GroupChar(s, i);
    }
  }

  lemma {:induction false} UnpaddedDigits(s: seq<Byte>)
    ensures |Unpadded(s)| == DigitCount(|s|)
    ensures forall c | c in Unpadded(s) :: FromChar(c).Some?
  {
    PadCounts(|s|);
    if s == [] {
    } else if |s| < 5 {
      GroupChars(s);
    } else {
      UnpaddedDigits(s[5..]);
      GroupChars(s[..5]);
    }
  }

  /** n bytes take ceil(8n/5) digits, filled up to a multiple of eight. */
  lemma {:induction false} EncodePads(s: seq<Byte>)
    ensures Encode(s) == Unpadded(s) + Repeat(PAD, PadCount(|s|))
  {
    var n := PadCount(|s|);
    PadCounts(|s|);
    if s == [] {
    } else if |s| < 5 {
      assert Unpadded(s) == EncodeGroup(s);
    } else {
      EncodePads(s[5..]);
      assert PadCount(|s[5..]|) == n;
      Regroup(EncodeGroup(s[..5]), Unpadded(s[5..]), Repeat(PAD, n));
    }
  }

  lemma Regroup(a: string, b: string, c: string)
    ensures a + (b + c) == (a + b) + c
  {}

  lemma {:induction false} LeadingOfGroups(s: string, k: nat)
    requires k <= |s|
    ensures LeadingDigits(s)
         == if LeadingDigits(s[..k]) == k then k + LeadingDigits(s[k..]) else LeadingDigits(s[..k])
  {
    if k > 0 {
      assert s[..k][1..] == s[1..][..k - 1] && s[k..] == s[1..][k - 1..];
      LeadingOfGroups(s[1..], k - 1);
    }
  }

  /** n digits of the alphabet, and padding. */
  ghost predicate IsPadded(s: string, n: nat) {
    && n <= |s|
    && (forall i | 0 <= i < n :: FromChar(s[i]).Some?)
    && (forall i | n <= i < |s| :: s[i] == '=')
  }

  lemma GroupDecodesExactly(g: string, last: bool)
    requires |g| == 8
    ensures DecodeGroup(g, last).Some?
      <==> IsPadded(g, LeadingDigits(g)) && (LeadingDigits(g) == 8 || (last && LeadingDigits(g) in {2, 4, 5, 7}))
  {}

  lemma FirstGroup(s: string, n: nat)
    requires 8 <= n <= |s|
    ensures IsPadded(s, n) <==> IsPadded(s[..8], 8) && IsPadded(s[8..], n - 8)
  {
    forall i | 8 <= i < n ensures s[i] == s[8..][i - 8] {}
    if IsPadded(s[..8], 8) && IsPadded(s[8..], n - 8) {
      forall i | 0 <= i < n ensures FromChar(s[i]).Some? {
        assert i < 8 ==> s[i] == s[..8][i];
      }
      forall i | n <= i < |s| ensures s[i] == '=' {
        assert s[i] == s[8..][i - 8];
      }
    }
  }

  lemma DecodeFirst(s: string)
    requires |s| >= 8
    ensures Decode(s).Some? <==> DecodeGroup(s[..8], |s| == 8).Some? && Decode(s[8..]).Some?
  {}

  /** How a text can end: with less than a group of padding, after two, four, five, seven or eight digits. */
  predicate IsEnding(size: nat, digits: nat) {
    size % 8 == 0 && size - digits < 8 && digits % 8 in {0, 2, 4, 5, 7}
  }

  lemma EndingCases(size: nat, digits: nat)
    requires digits <= size
    ensures size < 8 ==> (IsEnding(size, digits) <==> size == 0)
    ensures size == 8 && digits < 8 ==> (IsEnding(size, digits) <==> digits in {2, 4, 5, 7})
    ensures size > 8 && digits < 8 ==> !IsEnding(size, digits)
    ensures digits >= 8 ==> (IsEnding(size, digits) <==> IsEnding(size - 8, digits - 8))
  {}

  lemma ShortText(s: string)
    requires |s| < 8
    ensures Decode(s).Some? <==> s == ""
    ensures s == "" ==> IsPadded(s, LeadingDigits(s))
  {}

  /** Whole groups of eight, a number of digits that bytes can have, and padding: exactly these texts decode. */
  lemma {:induction false} DecodesExactly(s: string)
    ensures Decode(s).Some? <==> IsEnding(|s|, LeadingDigits(s)) && IsPadded(s, LeadingDigits(s))
  {
    hide *;
    EndingCases(|s|, LeadingDigits(s));
    if |s| < 8 {
      ShortText(s);
    } else {
      LeadingOfGroups(s, 8);
      DecodeFirst(s);
      GroupDecodesExactly(s[..8], |s| == 8);
      DecodesExactly(s[8..]);
      if LeadingDigits(s[..8]) == 8 {
        FirstGroup(s, LeadingDigits(s));
        EndingCases(8, 8);
      } else if |s| == 8 {
        assert s[..8] == s && s[8..] == [];
        ShortText(s[8..]);
      }
    }
  }
}

/** References that carry an image spec in their repository name
    (components/registry-facade-api/go/imagespec.go). */
module ImageSpecs {
  import opened Base32
  import opened Options
  import opened Strings

  datatype Error = EmptyHost | HasContentLayer | MarshalFailed | TooLong | EmptyRef | DecodeFailed | UnmarshalFailed

  datatype Result<+T> = Ok(value: T) | Err(error: Error)

  /** The JSON codec for specs; a missing spec is marshalled too. */
  datatype Codec<!Spec> = Codec(
    marshal: Option<Spec> -> Option<seq<Byte>>,
    unmarshal: seq<Byte> -> Option<Spec>,
    hasContentLayer: Spec -> bool)

  const LATEST := ":latest"

  /** The repository name for a JSON text. */
  function RepositoryName(text: seq<Byte>): string {
    TrimRight(ReplaceAll(ToLower(Encode(text)), '=', '-'), '-')
  }

  function ToRef<Spec>(codec: Codec<Spec>, spec: Option<Spec>, host: string): Result<string> {
    if host == "" then Err(EmptyHost)
    else if spec.Some? && codec.hasContentLayer(spec.value) then Err(HasContentLayer)
    else
      match codec.marshal(spec)
      case None => Err(MarshalFailed)
      case Some(text) =>
        var name := RepositoryName(text);
        if |name| > 255 - 2 then Err(TooLong)
        else Ok(TrimPrefix(host, "/") + "/c/" + name + LATEST)
  }

  /** The next multiple of eight. */
  function PaddedSize(n: nat): nat {
    if n % 8 != 0 then (n / 8 + 1) * 8 else n
  }

  /** The base-32 text that a repository name stands for. */
  function Restored(name: string): string {
    ToUpper(ReplaceAll(name + Repeat(' ', PaddedSize(|name|) - |name|), ' ', '='))
  }

  /** The last segment of a reference, without its tag. */
  function NameOf(ref: string): string {
    var segments := Split(ref, '/');
    TrimSuffix(if |segments| > 1 then segments[|segments| - 1] else ref, LATEST)
  }

  function ReadText<Spec>(codec: Codec<Spec>, text: seq<Byte>): Result<Spec> {
    match codec.unmarshal(text)
    case None => Err(UnmarshalFailed)
    case Some(spec) => Ok(spec)
  }

  function FromRef<Spec>(codec: Codec<Spec>, ref: string): Result<Spec> {
    if NameOf(ref) == "" then Err(EmptyRef)
    else
      match Decode(Restored(NameOf(ref)))
      case None => Err(DecodeFailed)
      case Some(text) => ReadText(codec, text)
  }

  predicate NameChar(c: char) {
    'a' <= c <= 'z' || '2' <= c <= '7'
  }

  lemma DigitCase(c: char)
    requires FromChar(c).Some?
    ensures NameChar(LowerChar(c)) && UpperChar(LowerChar(c)) == c && LowerChar(c) !in {' ', '-', '=', '/', ':'}
  {}

  /** Lowering, replacing and trimming leave exactly the digits, in lower case. */
  lemma NameIsDigits(text: seq<Byte>)
    ensures RepositoryName(text) == ToLower(Unpadded(text))
    ensures |RepositoryName(text)| == DigitCount(|text|)
    ensures forall c | c in RepositoryName(text) :: NameChar(c)
  {
    EncodePads(text);
    UnpaddedDigits(text);
    var digits, pads := Unpadded(text), PadCount(|text|);
    var lower := ToLower(digits);
    forall i | 0 <= i < |digits| ensures NameChar(lower[i]) && lower[i] != '-' && lower[i] != '=' {
      assert digits[i] in digits;
      DigitCase(digits[i]);
    }
    assert ReplaceAll(ToLower(Encode(text)), '=', '-') == lower + Repeat('-', pads);
    TrimRightRun(lower, '-', pads);
  }

  lemma PaddedCount(n: nat)
    ensures PaddedSize(DigitCount(n)) - DigitCount(n) == PadCount(n)
  {
    hide DigitCount;
    NextMultiple(DigitCount(n));
  }

  lemma NextMultiple(m: nat)
    ensures PaddedSize(m) - m == (8 - m % 8) % 8
  {
    var q, r := m / 8, m % 8;
    assert m == 8 * q + r;
    if r == 0 {
      assert PaddedSize(m) == m;
    } else {
      assert PaddedSize(m) == 8 * q + 8;
      SmallRemainder(8 - r);
    }
  }

  lemma SmallRemainder(x: nat)
    requires x < 8
    ensures x % 8 == x
  {}

  lemma RestoreDigits(digits: string, pads: nat)
    requires forall c | c in digits :: FromChar(c).Some?
    ensures ToUpper(ReplaceAll(ToLower(digits) + Repeat(' ', pads), ' ', '=')) == digits + Repeat('=', pads)
  {
    var padded := ToLower(digits) + Repeat(' ', pads);
    var raised := ToUpper(ReplaceAll(padded, ' ', '='));
    forall i | 0 <= i < |digits| ensures raised[i] == digits[i] {
      assert padded[i] == LowerChar(digits[i]);
      assert digits[i] in digits;
      DigitCase(digits[i]);
    }
    forall i | |digits| <= i < |padded| ensures raised[i] == '=' {
      assert padded[i] == ' ';
    }
  }

  lemma RestoreLower(digits: string, pads: nat)
    requires forall c | c in digits :: FromChar(c).Some?
    requires PaddedSize(|digits|) - |digits| == pads
    ensures Restored(ToLower(digits)) == digits + Repeat(PAD, pads)
  {
    RestoreDigits(digits, pads);
  }

  /** Padding the name again and raising its case gives back the encoded text. */
  lemma RestoreName(text: seq<Byte>)
    ensures Restored(RepositoryName(text)) == Encode(text)
  {
    hide *;
    EncodePads(text);
    NameIsDigits(text);
    UnpaddedDigits(text);
    PaddedCount(|text|);
    RestoreLower(Unpadded(text), PadCount(|text|));
  }

  /** The last segment of a reference, without its tag, is the repository name. */
  lemma LastSegment(host: string, name: string)
    requires forall c | c in name :: NameChar(c)
    ensures NameOf(host + "/c/" + name + LATEST) == name
  {
    var last := name + LATEST;
    assert host + "/c/" + name + LATEST == (host + "/c") + ['/'] + last;
    SplitConcat(host + "/c", '/', last);
    SplitWithout(last, '/');
    assert last[..|last| - |LATEST|] == name && last[|last| - |LATEST|..] == LATEST;
  }

  /** Reading a reference back gives what the JSON codec makes of its own text; only an empty text, which
      JSON does not have, would be lost. */
  lemma RefCarriesText<Spec>(codec: Codec<Spec>, spec: Option<Spec>, host: string)
    requires ToRef(codec, spec, host).Ok?
    ensures codec.marshal(spec).Some?
    ensures FromRef(codec, ToRef(codec, spec, host).value)
         == var text := codec.marshal(spec).value; if text == [] then Err(EmptyRef) else ReadText(codec, text)
  {
    var text := codec.marshal(spec).value;
    var name := RepositoryName(text);
    NameIsDigits(text);
    LastSegment(TrimPrefix(host, "/"), name);
    assert Decode(Restored(name)) == Some(text) by {
      RestoreName(text);
      RoundTrip(text);
    }
  }

  /** A spec that the JSON codec gives back survives the round trip through its reference, for every host. */
  lemma RefRoundTrip<Spec>(codec: Codec<Spec>, spec: Spec, host: string)
    requires ToRef(codec, Some(spec), host).Ok?
    requires forall text | codec.marshal(Some(spec)) == Some(text) :: text != [] && codec.unmarshal(text) == Some(spec)
    ensures FromRef(codec, ToRef(codec, Some(spec), host).value) == Ok(spec)
  {
    RefCarriesText(codec, Some(spec), host);
  }

  /** Which error comes first. */
  lemma ErrorsExactly<Spec>(codec: Codec<Spec>, spec: Option<Spec>, host: string)
    ensures ToRef(codec, spec, host) == Err(EmptyHost) <==> host == ""
    ensures ToRef(codec, spec, host) == Err(HasContentLayer) <==>
      host != "" && spec.Some? && codec.hasContentLayer(spec.value)
    ensures ToRef(codec, spec, host) == Err(MarshalFailed) <==>
      host != "" && !(spec.Some? && codec.hasContentLayer(spec.value)) && codec.marshal(spec).None?
  {}

  /** One leading slash of the host is dropped, and no more. */
  lemma HostIsKept<Spec>(codec: Codec<Spec>, spec: Option<Spec>, host: string)
    requires ToRef(codec, spec, host).Ok?
    ensures host != "" && (if host[0] == '/' then host[1..] else host) + "/c/" <= ToRef(codec, spec, host).value
  {
    var kept := if host[0] == '/' then host[1..] else host;
    assert TrimPrefix(host, "/") == kept;
    var name := RepositoryName(codec.marshal(spec).value);
    assert (kept + "/c/" + name + LATEST)[..|kept + "/c/"|] == kept + "/c/";
  }

  /** Neither the path before the last slash nor the tag matters to the reader. */
  lemma PathAndTagIgnored<Spec>(codec: Codec<Spec>, path: string, name: string)
    requires forall c | c in name :: NameChar(c)
    ensures FromRef(codec, name) == FromRef(codec, path + "/" + name) == FromRef(codec, path + "/" + name + ":latest")
  {
    BareName(name);
    PathName(path, name);
    PathName(path, name + LATEST);
    assert path + "/" + name + ":latest" == path + "/" + (name + LATEST);
    BareTag(name);
  }

  lemma BareName(name: string)
    requires forall c | c in name :: NameChar(c)
    ensures NameOf(name) == name == TrimSuffix(name, LATEST)
  {
    SplitWithout(name, '/');
    if |LATEST| <= |name| {
      var colon := name[|name| - |LATEST|];
      assert colon in name;
      assert name[|name| - |LATEST|..][0] == colon != LATEST[0];
    }
  }

  lemma BareTag(name: string)
    ensures TrimSuffix(name + LATEST, LATEST) == name
  {
    var last := name + LATEST;
    assert last[..|last| - |LATEST|] == name && last[|last| - |LATEST|..] == LATEST;
  }

  lemma PathName(path: string, last: string)
    requires '/' !in last
    ensures NameOf(path + "/" + last) == TrimSuffix(last, LATEST)
  {
    assert path + "/" + last == path + ['/'] + last;
    SplitConcat(path, '/', last);
    SplitWithout(last, '/');
  }

  lemma RestoredIsPadded(name: string)
    requires forall c | c in name :: NameChar(c)
    ensures LeadingDigits(Restored(name)) == |name| && IsPadded(Restored(name), |name|)
    ensures |Restored(name)| == PaddedSize(|name|)
  {
    var digits, pads := ToUpper(name), PaddedSize(|name|) - |name|;
    forall i | 0 <= i < |name| ensures FromChar(digits[i]).Some? && LowerChar(digits[i]) == name[i] {
      assert name[i] in name;
    }
    assert ToLower(digits) == name;
    RestoreLower(digits, pads);
    CountDigits(digits, Repeat('=', pads));
  }

  /** What reading a bare name can end in: names of some lengths spell no bytes, and the JSON codec has the last
      word on those that do. */
  lemma ReadsExactly<Spec>(codec: Codec<Spec>, name: string)
    requires forall c | c in name :: NameChar(c)
    ensures FromRef(codec, name) == Err(EmptyRef) <==> name == ""
    ensures FromRef(codec, name) == Err(DecodeFailed) <==> |name| % 8 in {1, 3, 6}
    ensures FromRef(codec, name) == Err(UnmarshalFailed) <==>
      && name != "" && Decode(Restored(name)).Some? && codec.unmarshal(Decode(Restored(name)).value).None?
  {
    hide Restored, Decode;
    BareName(name);
    RestoredIsPadded(name);
    DecodesExactly(Restored(name));
  }

  /** The name limit of 253 characters is a limit of 158 bytes of JSON. */
  lemma AcceptedExactly<Spec>(codec: Codec<Spec>, spec: Option<Spec>, host: string)
    ensures ToRef(codec, spec, host).Ok? <==>
      && host != ""
      && !(spec.Some? && codec.hasContentLayer(spec.value))
      && codec.marshal(spec).Some?
      && |codec.marshal(spec).value| <= 158
    ensures ToRef(codec, spec, host) == Err(TooLong) <==>
      && host != ""
      && !(spec.Some? && codec.hasContentLayer(spec.value))
      && codec.marshal(spec).Some?
      && |codec.marshal(spec).value| > 158
  {
    if codec.marshal(spec).Some? {
      NameIsDigits(codec.marshal(spec).value);
    }
  }

  /** What a Docker registry asks of the reference: a repository name of at most 255 characters over
      lower-case letters and digits, which never ends in a separator. */
  lemma RefIsPullable<Spec>(codec: Codec<Spec>, spec: Option<Spec>, host: string) returns (name: string)
    requires ToRef(codec, spec, host).Ok?
    ensures codec.marshal(spec).Some?
    ensures ToRef(codec, spec, host).value == TrimPrefix(host, "/") + "/" + ("c/" + name) + ":latest"
    ensures |"c/" + name| <= 255 && |name| == (8 * |codec.marshal(spec).value| + 4) / 5
    ensures forall c | c in name :: NameChar(c)
  {
    var text := codec.marshal(spec).value;
    NameIsDigits(text);
    name := RepositoryName(text);
    PathIsPrefixed(TrimPrefix(host, "/"), name);
  }

  lemma PathIsPrefixed(host: string, name: string)
    ensures host + "/c/" + name + LATEST == host + "/" + ("c/" + name) + ":latest"
  {
    assert host + "/c/" + name == host + "/" + ("c/" + name);
  }

  /** Different JSON texts never share a repository name. */
  lemma NamesAreDistinct(a: seq<Byte>, b: seq<Byte>)
    requires RepositoryName(a) == RepositoryName(b)
    ensures a == b
  {
    RestoreName(a);
    RestoreName(b);
    RoundTrip(a);
    RoundTrip(b);
  }
}
