/** `btoa` / `atob` over Latin-1 text (RFC 4648 section 4 alphabet, with the WHATWG
    forgiving decoder), and the URL-safe variant of RFC 4648 section 5 with padding removed. */
module Base64 {
  import opened Wrappers
  import opened Bytes
  import opened Text

  predicate IsBase64Char(c: char) {
    ('A' <= c <= 'Z') || ('a' <= c <= 'z') || ('0' <= c <= '9') || c == '+' || c == '/'
  }

  predicate AllBase64(s: string) {
    forall i :: 0 <= i < |s| ==> IsBase64Char(s[i])
  }

  /** The character for a 6-bit value (RFC 4648 section 4, Table 1). */
  function Sextet(n: nat): (c: char)
    requires n < 64
    ensures IsBase64Char(c)
  {
    if n < 26 then ('A' as int + n) as char
    else if n < 52 then ('a' as int + n - 26) as char
    else if n < 62 then ('0' as int + n - 52) as char
    else if n == 62 then '+'
    else '/'
  }

  function SextetValue(c: char): (n: nat)
    requires IsBase64Char(c)
    ensures n < 64 && Sextet(n) == c
  {
    if 'A' <= c <= 'Z' then c as int - 'A' as int
    else if 'a' <= c <= 'z' then c as int - 'a' as int + 26
    else if '0' <= c <= '9' then c as int - '0' as int + 52
    else if c == '+' then 62
    else 63
  }

  lemma SextetInverse(n: nat)
    requires n < 64
    ensures SextetValue(Sextet(n)) == n
  {
  }

  /** Latin-1 text as bytes; None when a character is above U+00FF, where `btoa` throws. */
  function Latin1Bytes(s: string): (r: Option<seq<byte>>)
    ensures r.Some? <==> forall i :: 0 <= i < |s| ==> s[i] as int < 256
    ensures r.Some? ==> |r.value| == |s| && forall i :: 0 <= i < |s| ==> r.value[i] == s[i] as int
  {
    if forall i :: 0 <= i < |s| ==> s[i] as int < 256 then Some(seq(|s|, i requires 0 <= i < |s| => s[i] as int))
    else None
  }

  /** Bytes as the Latin-1 text `atob` returns. */
  function Latin1Text(b: seq<byte>): (r: string)
    ensures |r| == |b| && forall i :: 0 <= i < |b| ==> r[i] as int == b[i]
  {
    seq(|b|, i requires 0 <= i < |b| => b[i] as char)
  }

  lemma Latin1RoundTrip(s: string)
    requires forall i :: 0 <= i < |s| ==> s[i] as int < 256
    ensures Latin1Text(Latin1Bytes(s).value) == s
  {
  }

  /** Three bytes as four characters. */
  function EncodeGroup(b0: byte, b1: byte, b2: byte): (r: string)
    ensures |r| == 4 && AllBase64(r)
  {
    [Sextet(b0 / 4), Sextet(b0 % 4 * 16 + b1 / 16), Sextet(b1 % 16 * 4 + b2 / 64), Sextet(b2 % 64)]
  }

  /** The final one or two bytes as two or three characters, spare bits zero. */
  function EncodeTail(b: seq<byte>): (r: string)
    requires |b| < 3
    ensures |r| == (if |b| == 0 then 0 else |b| + 1) && AllBase64(r)
  {
    if |b| == 0 then ""
    else if |b| == 1 then [Sextet(b[0] / 4), Sextet(b[0] % 4 * 16)]
    else [Sextet(b[0] / 4), Sextet(b[0] % 4 * 16 + b[1] / 16), Sextet(b[1] % 16 * 4)]
  }

  /** The base64 characters of `b`, three bytes to four characters, without padding. */
  function EncodeUnpadded(b: seq<byte>): (r: string)
    ensures AllBase64(r)
    ensures |r| % 4 != 1
  {
    if |b| < 3 then EncodeTail(b)
    else
      var g := EncodeGroup(b[0], b[1], b[2]);
      var rest := EncodeUnpadded(b[3..]);
      GroupThen(g, rest);
      g + rest
  }

  /** A group of four base64 characters in front keeps the text base64 and its length class. */
  lemma GroupThen(g: string, rest: string)
    requires |g| == 4 && AllBase64(g) && AllBase64(rest) && |rest| % 4 != 1
    ensures AllBase64(g + rest) && |g + rest| % 4 != 1
  {
    assert forall i :: 4 <= i < |g + rest| ==> (g + rest)[i] == rest[i - 4];
  }

  /** Every three bytes give four characters and a final one or two bytes give one more
      character than bytes. */
  lemma {:induction false} EncodedLength(b: seq<byte>)
    ensures |EncodeUnpadded(b)| == 4 * (|b| / 3) + (if |b| % 3 == 0 then 0 else |b| % 3 + 1)
  {
    if |b| >= 3 {
      EncodedLength(b[3..]);
      assert |b[3..]| / 3 == |b| / 3 - 1 && |b[3..]| % 3 == |b| % 3;
    }
  }

  /** The `=` characters that complete the last group to four characters. */
  function Padding(n: nat): (r: string)
    ensures forall i :: 0 <= i < |r| ==> r[i] == '='
  {
    if n % 3 == 1 then "==" else if n % 3 == 2 then "=" else ""
  }

  /** `btoa(s)`: None when `s` holds a character above U+00FF (an InvalidCharacterError). */
  function Btoa(s: string): Option<string> {
    match Latin1Bytes(s)
    case None => None
    case Some(b) => Some(EncodeUnpadded(b) + Padding(|b|))
  }

  /** Four characters as the three bytes they carry. */
  function DecodeGroup(s: string): (r: seq<byte>)
    requires |s| == 4 && AllBase64(s)
    ensures |r| == 3
  {
    [SextetValue(s[0]) * 4 + SextetValue(s[1]) / 16,
     SextetValue(s[1]) % 16 * 16 + SextetValue(s[2]) / 4,
     SextetValue(s[2]) % 4 * 64 + SextetValue(s[3])]
  }

  /** A trailing group of two or three characters as one or two bytes; spare bits are dropped. */
  function DecodeTail(s: string): (r: seq<byte>)
    requires |s| < 4 && |s| != 1 && AllBase64(s)
    ensures |r| == (if |s| == 0 then 0 else |s| - 1)
  {
    if |s| == 0 then []
    else if |s| == 2 then [SextetValue(s[0]) * 4 + SextetValue(s[1]) / 16]
    else [SextetValue(s[0]) * 4 + SextetValue(s[1]) / 16, SextetValue(s[1]) % 16 * 16 + SextetValue(s[2]) / 4]
  }

  /** The bytes of a run of base64 characters, four characters to three bytes. */
  function DecodeChars(s: string): seq<byte>
    requires AllBase64(s) && |s| % 4 != 1
  {
    if |s| < 4 then DecodeTail(s) else DecodeGroup(s[..4]) + DecodeChars(s[4..])
  }

  /** The whitespace the forgiving decoder skips: TAB, LF, FF, CR and SPACE. */
  predicate IsAsciiWhitespace(c: char) {
    c as int == 0x09 || c as int == 0x0A || c as int == 0x0C || c as int == 0x0D || c as int == 0x20
  }

  function RemoveAsciiWhitespace(s: string): (r: string)
    ensures forall i :: 0 <= i < |r| ==> !IsAsciiWhitespace(r[i])
    ensures (forall i :: 0 <= i < |s| ==> !IsAsciiWhitespace(s[i])) ==> r == s
  {
    if |s| == 0 then ""
    else if IsAsciiWhitespace(s[0]) then RemoveAsciiWhitespace(s[1..])
    else [s[0]] + RemoveAsciiWhitespace(s[1..])
  }

  /** The forgiving decoder's padding step: a length divisible by four loses one or two final `=`. */
  function DropPadding(d: string): (r: string)
    ensures |r| <= |d| && r == d[..|r|]
  {
    if |d| % 4 == 0 && EndsWith(d, "==") then d[..|d| - 2]
    else if |d| % 4 == 0 && EndsWith(d, "=") then d[..|d| - 1]
    else d
  }

  /** `atob(s)`: None when the forgiving-base64 decode fails (an InvalidCharacterError). */
  function Atob(s: string): (r: Option<string>)
    ensures r.Some? ==> var d := DropPadding(RemoveAsciiWhitespace(s)); |d| % 4 != 1 && AllBase64(d)
  {
    var d := DropPadding(RemoveAsciiWhitespace(s));
    if |d| % 4 == 1 || !AllBase64(d) then None
    else Some(Latin1Text(DecodeChars(d)))
  }

  /** One full group: four characters back to the three bytes they encode. */
  lemma GroupRoundTrip(b0: byte, b1: byte, b2: byte)
    ensures DecodeGroup(EncodeGroup(b0, b1, b2)) == [b0, b1, b2]
  {
    var s0, s1, s2, s3 := b0 / 4, b0 % 4 * 16 + b1 / 16, b1 % 16 * 4 + b2 / 64, b2 % 64;
    SextetInverse(s0);
    SextetInverse(s1);
    SextetInverse(s2);
    SextetInverse(s3);
    HighLow16(b0 % 4, b1 / 16);
    HighLow4(b1 % 16, b2 / 64);
    assert s0 * 4 + s1 / 16 == b0;
    assert s1 % 16 * 16 + s2 / 4 == b1;
    assert s2 % 4 * 64 + s3 == b2;
  }

  /** The high and low parts of `hi * 16 + lo` for `lo < 16`. */
  lemma HighLow16(hi: nat, lo: nat)
    requires lo < 16
    ensures (hi * 16 + lo) / 16 == hi && (hi * 16 + lo) % 16 == lo
  {
  }

  /** The high and low parts of `hi * 4 + lo` for `lo < 4`. */
  lemma HighLow4(hi: nat, lo: nat)
    requires lo < 4
    ensures (hi * 4 + lo) / 4 == hi && (hi * 4 + lo) % 4 == lo
  {
  }

  lemma TailRoundTrip(b: seq<byte>)
    requires |b| < 3
    ensures DecodeTail(EncodeTail(b)) == b
  {
    if |b| == 1 {
      SextetInverse(b[0] / 4);
      SextetInverse(b[0] % 4 * 16);
    } else if |b| == 2 {
      SextetInverse(b[0] / 4);
      SextetInverse(b[0] % 4 * 16 + b[1] / 16);
      SextetInverse(b[1] % 16 * 4);
    }
  }

  /** Decoding the unpadded encoding gives back the bytes. */
  lemma {:induction false} DecodeEncode(b: seq<byte>)
    ensures DecodeChars(EncodeUnpadded(b)) == b
  {
    if |b| < 3 {
      TailRoundTrip(b);
    } else {
      DecodeFirstGroup(b);
      DecodeEncode(b[3..]);
      assert b == b[..3] + b[3..];
    }
  }

  /** The first four characters of a long encoding decode to the first three bytes. */
  lemma DecodeFirstGroup(b: seq<byte>)
    requires |b| >= 3
    ensures DecodeChars(EncodeUnpadded(b)) == b[..3] + DecodeChars(EncodeUnpadded(b[3..]))
  {
    var g := EncodeGroup(b[0], b[1], b[2]);
    var s := EncodeUnpadded(b);
    assert s == g + EncodeUnpadded(b[3..]);
    assert s[..4] == g && s[4..] == EncodeUnpadded(b[3..]);
    FirstGroupBytes(b);
  }

  lemma FirstGroupBytes(b: seq<byte>)
    requires |b| >= 3
    ensures DecodeGroup(EncodeGroup(b[0], b[1], b[2])) == b[..3]
  {
    GroupRoundTrip(b[0], b[1], b[2]);
    assert b[..3] == [b[0], b[1], b[2]];
  }

  function ToUrlChar(c: char): char {
    if c == '+' then '-' else if c == '/' then '_' else c
  }

  function FromUrlChar(c: char): char {
    if c == '-' then '+' else if c == '_' then '/' else c
  }

  /** `.replace(/\+/g, '-').replace(/\//g, '_')`. */
  function ToUrl(s: string): (r: string)
    ensures |r| == |s| && forall i :: 0 <= i < |s| ==> r[i] == ToUrlChar(s[i])
  {
    seq(|s|, i requires 0 <= i < |s| => ToUrlChar(s[i]))
  }

  /** `.replace(/-/g, '+').replace(/_/g, '/')`. */
  function FromUrl(s: string): (r: string)
    ensures |r| == |s| && forall i :: 0 <= i < |s| ==> r[i] == FromUrlChar(s[i])
  {
    seq(|s|, i requires 0 <= i < |s| => FromUrlChar(s[i]))
  }

  /** `.replace(/=+$/, '')`: every trailing `=` removed. */
  function StripPadding(s: string): (r: string)
    ensures |r| <= |s| && r == s[..|r|]
    ensures |r| > 0 ==> r[|r| - 1] != '='
    ensures forall i :: |r| <= i < |s| ==> s[i] == '='
  {
    if |s| > 0 && s[|s| - 1] == '=' then StripPadding(s[..|s| - 1]) else s
  }

  /** The URL-safe, unpadded form of `btoa(s)` that a download key carries. */
  function UrlSafeBtoa(s: string): Option<string> {
    match Btoa(s)
    case None => None
    case Some(e) => Some(StripPadding(ToUrl(e)))
  }

  /** Removing trailing `=` from a run that ends in a non-`=` followed by `=` characters leaves the run. */
  lemma StripPaddingSuffix(x: string, p: string)
    requires |x| == 0 || x[|x| - 1] != '='
    requires forall i :: 0 <= i < |p| ==> p[i] == '='
    ensures StripPadding(x + p) == x
  {
    var u := x + p;
    var k := StripPadding(u);
    assert forall i :: |x| <= i < |u| ==> u[i] == p[i - |x|];
    if |x| > 0 {
      assert u[|x| - 1] == x[|x| - 1];
    }
    if |k| > 0 {
      assert k[|k| - 1] == u[|k| - 1];
    }
    assert |k| == |x|;
    assert k == u[..|x|];
  }

  lemma ToUrlAppend(a: string, b: string)
    ensures ToUrl(a + b) == ToUrl(a) + ToUrl(b)
  {
  }

  lemma StripPaddingOfEncoding(b: seq<byte>)
    ensures StripPadding(ToUrl(EncodeUnpadded(b) + Padding(|b|))) == ToUrl(EncodeUnpadded(b))
  {
    var e := EncodeUnpadded(b);
    var p := Padding(|b|);
    ToUrlAppend(e, p);
    assert ToUrl(p) == p;
    var x := ToUrl(e);
    if |x| > 0 {
      assert x[|x| - 1] == ToUrlChar(e[|e| - 1]);
    }
    StripPaddingSuffix(x, p);
  }

  lemma FromUrlToUrl(e: string)
    requires AllBase64(e)
    ensures FromUrl(ToUrl(e)) == e
  {
  }

  lemma NoWhitespaceInBase64(e: string)
    requires AllBase64(e)
    ensures RemoveAsciiWhitespace(e) == e
  {
    assert forall i :: 0 <= i < |e| ==> !IsAsciiWhitespace(e[i]) by {
      forall i | 0 <= i < |e| ensures !IsAsciiWhitespace(e[i]) {
        assert IsBase64Char(e[i]);
      }
    }
  }

  lemma NoPaddingInBase64(e: string)
    requires AllBase64(e)
    ensures DropPadding(e) == e
  {
    if |e| > 0 {
      assert IsBase64Char(e[|e| - 1]);
      assert !EndsWith(e, "=");
      assert !EndsWith(e, "==") by {
        if |e| >= 2 {
          assert e[|e| - 2..][1] == e[|e| - 1];
        }
      }
    }
  }

  /** `atob` of an unpadded encoding decodes it directly: no whitespace and no padding to drop. */
  lemma AtobOfUnpadded(b: seq<byte>)
    ensures var e := EncodeUnpadded(b); |e| % 4 != 1 && Atob(e) == Some(Latin1Text(DecodeChars(e)))
  {
    var e := EncodeUnpadded(b);
    NoWhitespaceInBase64(e);
    NoPaddingInBase64(e);
  }

  /** Reversing the URL-safe mapping of a decodable key and applying `atob` gives back the text. */
  lemma UrlSafeRoundTrip(s: string)
    requires forall i :: 0 <= i < |s| ==> s[i] as int < 256
    ensures UrlSafeBtoa(s).Some?
    ensures Atob(FromUrl(UrlSafeBtoa(s).value)) == Some(s)
  {
    var b := Latin1Bytes(s).value;
    var e := EncodeUnpadded(b);
    StripPaddingOfEncoding(b);
    assert UrlSafeBtoa(s) == Some(ToUrl(e));
    FromUrlToUrl(e);
    AtobOfUnpadded(b);
    DecodeEncode(b);
    Latin1RoundTrip(s);
  }
}
