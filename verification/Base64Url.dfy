/**
  The WebAuthn byte codec: base64url without padding (section 5 of RFC 4648) on top of the browser's
  btoa and atob, which are defined here by section 4 of RFC 4648 and the forgiving decode of atob.
*/
module Base64Url {
  import opened Prelude

  type Byte = x: int | 0 <= x < 256
  type Sextet = x: int | 0 <= x < 64

  function Digit(i: Sextet): char {
    if i < 26 then ('A' as int + i) as char
    else if i < 52 then ('a' as int + (i - 26)) as char
    else if i < 62 then ('0' as int + (i - 52)) as char
    else if i == 62 then '+' else '/'
  }

  predicate IsDigit(c: char) {
    'A' <= c <= 'Z' || 'a' <= c <= 'z' || '0' <= c <= '9' || c == '+' || c == '/'
  }

  function Value(c: char): (i: Sextet)
    requires IsDigit(c)
    ensures Digit(i) == c
  {
    if 'A' <= c <= 'Z' then c as int - 'A' as int
    else if 'a' <= c <= 'z' then c as int - 'a' as int + 26
    else if '0' <= c <= '9' then c as int - '0' as int + 52
    else if c == '+' then 62 else 63
  }

  lemma ValueOfDigit(i: Sextet)
    ensures IsDigit(Digit(i)) && Value(Digit(i)) == i
  {}

  // ------------------------------------------------------------ base64 of bytes

  /** Six bits at a time: four sextets for three bytes, three for two, two for one. */
  function Sextets(b: seq<Byte>): seq<Sextet> {
    if b == [] then []
    else if |b| == 1 then [b[0] / 4, b[0] % 4 * 16]
    else if |b| == 2 then [b[0] / 4, b[0] % 4 * 16 + b[1] / 16, b[1] % 16 * 4]
    else FourSextets(b[0], b[1], b[2]) + Sextets(b[3..])
  }

  function FourSextets(x: Byte, y: Byte, z: Byte): (s: seq<Sextet>)
    ensures |s| == 4
  {
    [x / 4, x % 4 * 16 + y / 16, y % 16 * 4 + z / 64, z % 64]
  }

  /** Eight bits at a time; bits left over at the end are discarded. */
  function Octets(s: seq<Sextet>): seq<Byte>
    requires |s| % 4 != 1
  {
    if s == [] then []
    else if |s| == 2 then [Octet1(s[0], s[1])]
    else if |s| == 3 then [Octet1(s[0], s[1]), Octet2(s[1], s[2])]
    else ThreeOctets(s[0], s[1], s[2], s[3]) + Octets(s[4..])
  }

  function ThreeOctets(u: Sextet, v: Sextet, w: Sextet, x: Sextet): (b: seq<Byte>)
    ensures |b| == 3
  {
    [Octet1(u, v), Octet2(v, w), Octet3(w, x)]
  }

  function Octet1(u: Sextet, v: Sextet): Byte { u * 4 + v / 16 }

  function Octet2(v: Sextet, w: Sextet): Byte { v % 16 * 16 + w / 4 }

  function Octet3(w: Sextet, x: Sextet): Byte { w % 4 * 64 + x }

  function ToDigits(s: seq<Sextet>): (r: string)
    ensures |r| == |s| && forall i :: 0 <= i < |s| ==> r[i] == Digit(s[i])
  {
    seq(|s|, i requires 0 <= i < |s| => Digit(s[i]))
  }

  predicate AllDigits(s: string) { forall i :: 0 <= i < |s| ==> IsDigit(s[i]) }

  function ToValues(s: string): (r: seq<Sextet>)
    requires AllDigits(s)
    ensures |r| == |s| && forall i :: 0 <= i < |s| ==> r[i] == Value(s[i])
  {
    seq(|s|, i requires 0 <= i < |s| => Value(s[i]))
  }

  function Repeat(c: char, n: nat): string { seq(n, _ => c) }

  function Base64(b: seq<Byte>): string { ToDigits(Sextets(b)) + Repeat('=', (3 - |b| % 3) % 3) }

  predicate IsSpace(c: char) { c in {'\t', '\n', 12 as char, '\r', ' '} }

  function DropSpaces(s: string): string {
    if s == "" then "" else (if IsSpace(s[0]) then "" else [s[0]]) + DropSpaces(s[1..])
  }

  function DropPadding(s: string): string {
    if |s| % 4 == 0 && |s| >= 2 && s[|s| - 1] == '=' then
      if s[|s| - 2] == '=' then s[..|s| - 2] else s[..|s| - 1]
    else s
  }

  /** Forgiving: white space and padding are dropped first. None is a text that encodes nothing. */
  function FromBase64(s: string): Option<seq<Byte>> {
    var digits := DropPadding(DropSpaces(s));
    if |digits| % 4 == 1 || !AllDigits(digits) then None else Some(Octets(ToValues(digits)))
  }

  // ------------------------------------------------------------ btoa and atob

  /** `charCodeAt` stored into a byte array, which keeps the low eight bits. */
  function Codes(binary: string): (r: seq<Byte>)
    ensures |r| == |binary| && forall i :: 0 <= i < |r| ==> r[i] == binary[i] as int % 256
  {
    seq(|binary|, i requires 0 <= i < |binary| => binary[i] as int % 256)
  }

  function Chars(b: seq<Byte>): (r: string)
    ensures |r| == |b| && forall i :: 0 <= i < |r| ==> r[i] as int == b[i]
  {
    seq(|b|, i requires 0 <= i < |b| => b[i] as char)
  }

  predicate IsBinary(s: string) { forall i :: 0 <= i < |s| ==> s[i] as int < 256 }

  /** Both work on binary strings; None stands for the exception thrown on any other character or text. */
  function Btoa(binary: string): Option<string> {
    if IsBinary(binary) then Some(Base64(Codes(binary))) else None
  }

  function Atob(text: string): Option<string> {
    match FromBase64(text)
    case Some(b) => Some(Chars(b))
    case None => None
  }

  // ------------------------------------------------------------ the codec

  function ToUrl(c: char): char { if c == '+' then '-' else if c == '/' then '_' else c }

  function FromUrl(c: char): char { if c == '-' then '+' else if c == '_' then '/' else c }

  function MapChars(s: string, f: char -> char): (r: string)
    ensures |r| == |s| && forall i :: 0 <= i < |s| ==> r[i] == f(s[i])
  {
    seq(|s|, i requires 0 <= i < |s| => f(s[i]))
  }

  /** Removing every '=' at the end. */
  function StripEquals(s: string): string {
    if s != "" && s[|s| - 1] == '=' then StripEquals(s[..|s| - 1]) else s
  }

  function Encoded(b: seq<Byte>): string { StripEquals(MapChars(Base64(b), ToUrl)) }

  function PadEnd(s: string, n: nat): string {
    if |s| < n then s + Repeat('=', n - |s|) else s
  }

  function Padded(value: string): string {
    var normalized := MapChars(value, FromUrl);
    PadEnd(normalized, (|normalized| + 3) / 4 * 4)
  }

  /** `decodeBase64Url`. */
  function Decoded(value: string): Option<seq<Byte>> {
    match Atob(Padded(value))
    case Some(binary) => Some(Codes(binary))
    case None => None
  }

  lemma DecodedBytes(value: string)
    ensures Decoded(value) == FromBase64(Padded(value))
  {
    var b := FromBase64(Padded(value));
    if b.Some? { assert Codes(Chars(b.value)) == b.value; }
  }

  // ------------------------------------------------------------ properties

  lemma {:induction false} SextetCount(b: seq<Byte>)
    ensures |Sextets(b)| == (|b| * 4 + 2) / 3
    decreases |b|
  {
    if |b| >= 3 { SextetCount(b[3..]); }
  }

  lemma OctetsOfBlock(x: Byte, y: Byte, z: Byte)
    ensures x / 4 * 4 + (x % 4 * 16 + y / 16) / 16 == x
    ensures (x % 4 * 16 + y / 16) % 16 * 16 + (y % 16 * 4 + z / 64) / 4 == y
    ensures (y % 16 * 4 + z / 64) % 4 * 64 + z % 64 == z
  {}

  lemma BlockRoundTrip(x: Byte, y: Byte, z: Byte)
    ensures var s := FourSextets(x, y, z); ThreeOctets(s[0], s[1], s[2], s[3]) == [x, y, z]
  {
    OctetsOfBlock(x, y, z);
  }

  lemma OctetsStep(s: seq<Sextet>, rest: seq<Sextet>)
    requires |s| == 4 && |rest| % 4 != 1
    ensures Octets(s + rest) == ThreeOctets(s[0], s[1], s[2], s[3]) + Octets(rest)
  {
    assert (s + rest)[4..] == rest;
  }

  lemma ShortRoundTrip(b: seq<Byte>)
    requires |b| < 3
    ensures |Sextets(b)| % 4 != 1 && Octets(Sextets(b)) == b
  {
    if |b| == 1 {
      OctetsOfBlock(b[0], 0, 0);
    } else if |b| == 2 {
      OctetsOfBlock(b[0], b[1], 0);
    }
  }

  lemma BlockAhead(x: Byte, y: Byte, z: Byte, rest: seq<Byte>)
    requires |Sextets(rest)| % 4 != 1 && Octets(Sextets(rest)) == rest
    ensures Octets(FourSextets(x, y, z) + Sextets(rest)) == [x, y, z] + rest
  {
    OctetsStep(FourSextets(x, y, z), Sextets(rest));
    BlockRoundTrip(x, y, z);
  }

  lemma {:induction false} OctetsOfSextets(b: seq<Byte>)
    ensures |Sextets(b)| % 4 != 1 && Octets(Sextets(b)) == b
    decreases |b|
  {
    if |b| < 3 {
      ShortRoundTrip(b);
    } else {
      OctetsOfSextets(b[3..]);
      BlockAhead(b[0], b[1], b[2], b[3..]);
      assert b == [b[0], b[1], b[2]] + b[3..];
    }
  }

  lemma ValuesOfDigits(s: seq<Sextet>)
    ensures AllDigits(ToDigits(s)) && ToValues(ToDigits(s)) == s
  {
    forall i | 0 <= i < |s| ensures IsDigit(ToDigits(s)[i]) && Value(ToDigits(s)[i]) == s[i] {
      ValueOfDigit(s[i]);
    }
  }

  lemma {:induction false} StripsExactly(s: string, n: nat)
    requires s == "" || s[|s| - 1] != '='
    ensures StripEquals(s + Repeat('=', n)) == s
  {
    var t := s + Repeat('=', n);
    if n > 0 {
      assert t[..|t| - 1] == s + Repeat('=', n - 1);
      StripsExactly(s, n - 1);
    } else {
      assert t == s;
    }
  }

  lemma {:induction false} NoSpaces(s: string)
    requires forall i :: 0 <= i < |s| ==> !IsSpace(s[i])
    ensures DropSpaces(s) == s
  {
    if s != "" {
      NoSpaces(s[1..]);
      assert s == [s[0]] + s[1..];
    }
  }

  lemma UrlOfDigit(c: char)
    requires IsDigit(c)
    ensures ToUrl(c) != '+' && ToUrl(c) != '/' && ToUrl(c) != '=' && FromUrl(ToUrl(c)) == c && !IsSpace(c) && c != '='
  {}

  lemma MapsBack(digits: string)
    requires AllDigits(digits)
    ensures MapChars(MapChars(digits, ToUrl), FromUrl) == digits
  {
    forall i | 0 <= i < |digits| ensures FromUrl(ToUrl(digits[i])) == digits[i] {
      UrlOfDigit(digits[i]);
    }
  }

  /** The output is the digits in the url alphabet and nothing else: the padding is gone. */
  lemma EncodedIsUrlDigits(b: seq<Byte>)
    ensures Encoded(b) == MapChars(ToDigits(Sextets(b)), ToUrl)
    ensures forall c :: c in Encoded(b) ==> c != '+' && c != '/' && c != '='
    ensures |Encoded(b)| == (|b| * 4 + 2) / 3
  {
    SextetCount(b);
    var digits := ToDigits(Sextets(b));
    ValuesOfDigits(Sextets(b));
    var url := MapChars(digits, ToUrl);
    var pad := (3 - |b| % 3) % 3;
    forall i | 0 <= i < |url| ensures url[i] != '+' && url[i] != '/' && url[i] != '=' {
      UrlOfDigit(digits[i]);
    }
    assert MapChars(Base64(b), ToUrl) == url + Repeat('=', pad);
    StripsExactly(url, pad);
  }

  lemma PaddedLength(n: nat)
    ensures var digits, pad := (n * 4 + 2) / 3, (3 - n % 3) % 3;
      pad <= 2 && (digits + 3) / 4 * 4 == digits + pad && (digits + pad) % 4 == 0 && (pad > 0 ==> digits > 0)
  {}

  /** Decoding restores exactly the padding that encoding had stripped. */
  lemma PaddingRestored(b: seq<Byte>)
    ensures Padded(Encoded(b)) == Base64(b)
  {
    var digits := ToDigits(Sextets(b));
    EncodedIsUrlDigits(b);
    ValuesOfDigits(Sextets(b));
    MapsBack(digits);
    PaddedLength(|b|);
    assert MapChars(Encoded(b), FromUrl) == digits;
    assert digits + Repeat('=', 0) == digits;
  }

  lemma DropsPadding(digits: string, n: nat)
    requires AllDigits(digits) && n <= 2 && (n > 0 ==> (|digits| + n) % 4 == 0 && digits != "")
    ensures DropPadding(digits + Repeat('=', n)) == digits
  {
    var t := digits + Repeat('=', n);
    assert t[..|digits|] == digits;
    if n == 0 {
      assert t == digits;
    }
    if digits != "" { UrlOfDigit(digits[|digits| - 1]); }
  }

  lemma KeepsPaddedDigits(digits: string, n: nat)
    requires AllDigits(digits)
    ensures DropSpaces(digits + Repeat('=', n)) == digits + Repeat('=', n)
  {
    var t := digits + Repeat('=', n);
    forall i | 0 <= i < |t| ensures !IsSpace(t[i]) {
      if i < |digits| { UrlOfDigit(digits[i]); }
    }
    NoSpaces(t);
  }

  lemma Base64Digits(b: seq<Byte>)
    ensures DropPadding(DropSpaces(Base64(b))) == ToDigits(Sextets(b))
  {
    var digits := ToDigits(Sextets(b));
    var pad := (3 - |b| % 3) % 3;
    SextetCount(b);
    PaddedLength(|b|);
    ValuesOfDigits(Sextets(b));
    KeepsPaddedDigits(digits, pad);
    DropsPadding(digits, pad);
  }

  lemma FromBase64OfBase64(b: seq<Byte>)
    ensures FromBase64(Base64(b)) == Some(b)
  {
    Base64Digits(b);
    ValuesOfDigits(Sextets(b));
    OctetsOfSextets(b);
  }

  /** For every byte sequence, decoding what was encoded gives it back. */
  lemma RoundTrip(b: seq<Byte>)
    ensures Decoded(Encoded(b)) == Some(b)
  {
    DecodedBytes(Encoded(b));
    PaddingRestored(b);
    FromBase64OfBase64(b);
  }

  /**
    `encodeBase64Url`: the binary string grows by one character per byte, so `btoa` never throws, and the
    result is the text over the url alphabet that decodes to these bytes.
  */
  method EncodeBase64Url(bytes: seq<Byte>) returns (r: string)
    ensures r == Encoded(bytes) && Decoded(r) == Some(bytes)
    ensures forall c :: c in r ==> c != '+' && c != '/' && c != '='
  {
    var binary := "";
    for i := 0 to |bytes|
      invariant |binary| == i && forall j :: 0 <= j < i ==> binary[j] as int == bytes[j]
    {
      binary := binary + [bytes[i] as char];
    }
    assert IsBinary(binary) && Codes(binary) == bytes;
    var text := Btoa(binary);
    r := StripEquals(MapChars(text.value, ToUrl));
    RoundTrip(bytes);
    EncodedIsUrlDigits(bytes);
  }

  lemma EncodingIsInjective(a: seq<Byte>, b: seq<Byte>)
    ensures Encoded(a) == Encoded(b) <==> a == b
  {
    RoundTrip(a);
    RoundTrip(b);
  }

  // ------------------------------------------------------------ which texts are encodings

  /** The bits beyond the last whole byte are zero: four in a final group of two, two in one of three. */
  predicate NoSpareBits(s: seq<Sextet>) {
    if |s| >= 4 then NoSpareBits(s[4..])
    else if |s| == 3 then s[2] % 4 == 0
    else |s| == 2 ==> s[1] % 16 == 0
  }

  /** Url digits only, a possible length, and no spare bits set. */
  predicate Canonical(s: string) {
    var digits := MapChars(s, FromUrl);
    && |s| % 4 != 1
    && MapChars(digits, ToUrl) == s
    && AllDigits(digits) && NoSpareBits(ToValues(digits))
  }

  lemma SextetsOfBlock(u: Sextet, v: Sextet, w: Sextet, x: Sextet)
    ensures var a, b, c := Octet1(u, v), Octet2(v, w), Octet3(w, x);
      && a / 4 == u && a % 4 * 16 + b / 16 == v && b % 16 * 4 + c / 64 == w && c % 64 == x
      && (v % 16 == 0 ==> a % 4 * 16 == v) && (w % 4 == 0 ==> b % 16 * 4 == w)
  {}

  lemma OctetBlockRoundTrip(u: Sextet, v: Sextet, w: Sextet, x: Sextet)
    ensures var b := ThreeOctets(u, v, w, x); FourSextets(b[0], b[1], b[2]) == [u, v, w, x]
  {
    SextetsOfBlock(u, v, w, x);
  }

  lemma SextetsStep(b: seq<Byte>, rest: seq<Byte>)
    requires |b| == 3
    ensures Sextets(b + rest) == FourSextets(b[0], b[1], b[2]) + Sextets(rest)
  {
    assert (b + rest)[3..] == rest;
  }

  lemma {:induction false} SextetsOfOctets(s: seq<Sextet>)
    requires |s| % 4 != 1 && NoSpareBits(s)
    ensures Sextets(Octets(s)) == s
    decreases |s|
  {
    if |s| >= 4 {
      SextetsOfOctets(s[4..]);
      SextetsStep(ThreeOctets(s[0], s[1], s[2], s[3]), Octets(s[4..]));
      OctetBlockRoundTrip(s[0], s[1], s[2], s[3]);
      assert s == [s[0], s[1], s[2], s[3]] + s[4..];
    } else if |s| == 3 {
      SextetsOfBlock(s[0], s[1], s[2], 0);
    } else if |s| == 2 {
      SextetsOfBlock(s[0], s[1], 0, 0);
    }
  }

  lemma {:induction false} SextetsLeaveNoSpareBits(b: seq<Byte>)
    ensures |Sextets(b)| % 4 != 1 && NoSpareBits(Sextets(b))
    decreases |b|
  {
    if |b| >= 3 {
      SextetsLeaveNoSpareBits(b[3..]);
      assert Sextets(b)[4..] == Sextets(b[3..]);
    } else if |b| == 2 {
      assert b[1] % 16 * 4 % 4 == 0;
    }
  }

  lemma DigitsOfValues(s: string)
    requires AllDigits(s)
    ensures ToDigits(ToValues(s)) == s
  {}

  lemma CanonicalEncodesBack(s: string)
    requires Canonical(s)
    ensures Decoded(s).Some? && Encoded(Decoded(s).value) == s
  {
    var digits := MapChars(s, FromUrl);
    var b := Octets(ToValues(digits));
    DecodedBytes(s);
    SextetsOfOctets(ToValues(digits));
    DigitsOfValues(digits);
    EncodedIsUrlDigits(b);
    RoundTrip(b);
  }

  lemma EncodedIsCanonical(b: seq<Byte>)
    ensures Canonical(Encoded(b))
  {
    var digits := ToDigits(Sextets(b));
    EncodedIsUrlDigits(b);
    SextetsLeaveNoSpareBits(b);
    ValuesOfDigits(Sextets(b));
    MapsBack(digits);
  }

  /** Decoding and encoding again gives a text back exactly when that text is canonical. */
  lemma EncodesBackIffCanonical(s: string)
    ensures Canonical(s) <==> Decoded(s).Some? && Encoded(Decoded(s).value) == s
  {
    if Canonical(s) {
      CanonicalEncodesBack(s);
    }
    if Decoded(s).Some? {
      EncodedIsCanonical(Decoded(s).value);
    }
  }

  // ------------------------------------------------------------ the texts themselves

  /** Table 2 of RFC 4648: the character for six bits. */
  predicate InUrlAlphabet(c: char, i: int) {
    || (0 <= i < 26 && c as int == 'A' as int + i)
    || (26 <= i < 52 && c as int == 'a' as int + i - 26)
    || (52 <= i < 62 && c as int == '0' as int + i - 52)
    || (i == 62 && c == '-') || (i == 63 && c == '_')
  }

  /** Each character is the one that alphabet has for its six bits: '-' for 62 and '_' for 63. */
  lemma EncodedInAlphabet(b: seq<Byte>)
    ensures |Encoded(b)| == |Sextets(b)|
    ensures forall i :: 0 <= i < |Encoded(b)| ==> InUrlAlphabet(Encoded(b)[i], Sextets(b)[i])
  {
    EncodedIsUrlDigits(b);
  }

  function Then64(high: int, low: int): int { high * 64 + low }

  function Then256(high: int, low: int): int { high * 256 + low }

  lemma BlockBits(x: Byte, y: Byte, z: Byte)
    ensures var s := FourSextets(x, y, z);
      Then64(Then64(Then64(s[0], s[1]), s[2]), s[3]) == Then256(Then256(x, y), z)
  {}

  /** The six bits are those of the bytes in order, high bits first, and zero bits fill up the last character. */
  lemma SextetsAreTheBits(b: seq<Byte>)
    ensures var s := Sextets(b);
      && (b == [] ==> s == [])
      && (|b| == 1 ==> |s| == 2 && Then64(s[0], s[1]) == b[0] as int * 16)
      && (|b| == 2 ==> |s| == 3 && Then64(Then64(s[0], s[1]), s[2]) == Then256(b[0], b[1]) * 4)
      && (|b| >= 3 ==>
            && |s| >= 4 && Then64(Then64(Then64(s[0], s[1]), s[2]), s[3]) == Then256(Then256(b[0], b[1]), b[2])
            && s[4..] == Sextets(b[3..]))
  {
    if |b| >= 3 { BlockBits(b[0], b[1], b[2]); }
  }

  lemma {:induction false} SpacesDropOut(a: string, c: char, b: string)
    requires c in "\t\n\r " || c as int == 12
    ensures DropSpaces(a + [c] + b) == DropSpaces(a + b)
  {
    if a == "" {
      assert a + [c] + b == [c] + b && a + b == b;
      assert ([c] + b)[1..] == b;
    } else {
      assert (a + [c] + b)[1..] == a[1..] + [c] + b && (a + b)[1..] == a[1..] + b;
      SpacesDropOut(a[1..], c, b);
    }
  }

  /** `btoa` throws exactly when some character does not fit into a byte. */
  lemma BtoaThrowsIff(binary: string)
    ensures Btoa(binary).None? <==> exists i :: 0 <= i < |binary| && binary[i] as int > 255
  {}

  /** White space anywhere in the padded text makes no difference. */
  lemma WhiteSpaceIsIgnored(a: string, c: char, b: string)
    requires c in "\t\n\r " || c as int == 12
    ensures Atob(a + [c] + b) == Atob(a + b)
  {
    SpacesDropOut(a, c, b);
  }
}
