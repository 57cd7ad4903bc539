/** `urlBase64ToUint8Array` (src/app/admin-notifications/page.tsx:98-107):
    the VAPID public key, given in the URL-safe base64 alphabet without
    padding (section 5 of RFC 4648), is padded to a multiple of four
    characters, mapped to the standard alphabet, decoded with `atob` and
    copied byte by byte into a fresh `Uint8Array`.

    `atob` is modelled as the forgiving base64 decode browsers use: base64
    of section 4 of RFC 4648, where one or two trailing `=` are removed from
    a text whose length is a multiple of four, a remaining length of 1
    modulo 4 or a character outside the alphabet is an error, and the bits
    left over after the last whole byte are dropped. */
module VapidKey {
  import opened Wrappers

  type Byte = b: int | 0 <= b < 256
  type Sextet = v: int | 0 <= v < 64

  // ---------------------------------------------------------------------
  // Padding and alphabet

  /** `(4 - len % 4) % 4`. */
  function PadCount(s: string): (n: nat)
    ensures n <= 3
    ensures (|s| + n) % 4 == 0
    ensures |s| % 4 == 0 <==> n == 0
  {
    (4 - |s| % 4) % 4
  }

  function Repeat(c: char, n: nat): (r: string)
    ensures |r| == n && forall i :: 0 <= i < n ==> r[i] == c
  {
    if n == 0 then [] else [c] + Repeat(c, n - 1)
  }

  /** The key followed by its `=` padding. */
  function Padded(s: string): (r: string)
    ensures |r| % 4 == 0 && |s| <= |r| < |s| + 4
    ensures r[..|s|] == s
    ensures forall i :: |s| <= i < |r| ==> r[i] == '='
  {
    s + Repeat('=', PadCount(s))
  }

  function SwapChar(c: char): (d: char)
    ensures d != '-' && d != '_'
  {
    if c == '-' then '+' else if c == '_' then '/' else c
  }

  /** `.replace(/-/g, '+').replace(/_/g, '/')`. */
  function ToStandardAlphabet(s: string): (r: string)
    ensures |r| == |s|
    ensures forall i :: 0 <= i < |s| ==>
              r[i] == (if s[i] == '-' then '+' else if s[i] == '_' then '/' else s[i])
    ensures '-' !in r && '_' !in r
  {
    seq(|s|, i requires 0 <= i < |s| => SwapChar(s[i]))
  }

  /** The text handed to `atob`. */
  function Base64FromUrl(key: string): (r: string)
    ensures |r| % 4 == 0 && |key| <= |r| < |key| + 4
  {
    ToStandardAlphabet(Padded(key))
  }

  // ---------------------------------------------------------------------
  // The two alphabets

  /** The standard base64 alphabet of section 4 of RFC 4648. */
  function StdChar(v: Sextet): char {
    if v < 26 then (65 + v) as char
    else if v < 52 then (97 + v - 26) as char
    else if v < 62 then (48 + v - 52) as char
    else if v == 62 then '+' else '/'
  }

  /** The URL- and filename-safe alphabet of section 5 of RFC 4648. */
  function UrlChar(v: Sextet): (c: char)
    ensures SwapChar(c) == StdChar(v)
  {
    if v == 62 then '-' else if v == 63 then '_' else StdChar(v)
  }

  /** The value of a character of the standard alphabet. */
  function SextetOf(c: char): (r: Option<Sextet>)
    ensures r.Some? ==> StdChar(r.value) == c
  {
    if 'A' <= c <= 'Z' then Some(c as int - 65)
    else if 'a' <= c <= 'z' then Some(c as int - 97 + 26)
    else if '0' <= c <= '9' then Some(c as int - 48 + 52)
    else if c == '+' then Some(62)
    else if c == '/' then Some(63)
    else None
  }

  lemma SextetOfStdChar(v: Sextet)
    ensures SextetOf(StdChar(v)) == Some(v)
  {
  }

  /** The values of a text's characters, or None if one is not in the
      standard alphabet. */
  function Sextets(s: string): (r: Option<seq<Sextet>>)
    ensures r.Some? ==> |r.value| == |s|
    ensures r.None? <==> exists i :: 0 <= i < |s| && SextetOf(s[i]).None?
    ensures r.Some? ==> forall i :: 0 <= i < |s| ==> SextetOf(s[i]) == Some(r.value[i])
  {
    if s == [] then Some([])
    else match SextetOf(s[0])
      case None => None
      case Some(v) =>
        match Sextets(s[1..])
        case None => None
        case Some(rest) => Some([v] + rest)
  }

  // ---------------------------------------------------------------------
  // Decoding

  function FirstByte(a: Sextet, b: Sextet): Byte {
    a as int * 4 + b as int / 16
  }

  function SecondByte(b: Sextet, c: Sextet): Byte {
    (b as int % 16) * 16 + c as int / 4
  }

  function ThirdByte(c: Sextet, d: Sextet): Byte {
    (c as int % 4) * 64 + d as int
  }

  /** Four sextets make three bytes; a final two or three make one or two,
      dropping the leftover bits. */
  function DecodeGroups(q: seq<Sextet>): (r: seq<Byte>)
    requires |q| % 4 != 1
    ensures |r| == |q| * 3 / 4
  {
    if |q| == 0 then []
    else if |q| == 2 then [FirstByte(q[0], q[1])]
    else if |q| == 3 then [FirstByte(q[0], q[1]), SecondByte(q[1], q[2])]
    else DecodeGroup(q[0], q[1], q[2], q[3]) + DecodeGroups(q[4..])
  }

  /** Four sextets as three bytes. */
  function DecodeGroup(a: Sextet, b: Sextet, c: Sextet, d: Sextet): (r: seq<Byte>)
    ensures |r| == 3
  {
    [FirstByte(a, b), SecondByte(b, c), ThirdByte(c, d)]
  }

  /** One or two trailing `=` are dropped from a text whose length is a
      multiple of four. */
  function StripPadding(s: string): (r: string)
    ensures |s| - 2 <= |r| <= |s| && r == s[..|r|]
    ensures forall i :: |r| <= i < |s| ==> s[i] == '='
    ensures |r| < |s| ==> |s| % 4 == 0
    ensures |s| % 4 == 0 && |s| >= 1 && s[|s| - 1] == '=' ==> |r| < |s|
    ensures |s| % 4 == 0 && |s| >= 2 && s[|s| - 2] == '=' && s[|s| - 1] == '=' ==> |r| == |s| - 2
  {
    if |s| % 4 == 0 && |s| >= 2 && s[|s| - 1] == '=' && s[|s| - 2] == '=' then s[..|s| - 2]
    else if |s| % 4 == 0 && |s| >= 1 && s[|s| - 1] == '=' then s[..|s| - 1]
    else s
  }

  /** `atob`: the decoded binary string, one character per byte, or None
      where the browser throws. */
  function Atob(s: string): (r: Option<seq<char>>)
    ensures r.Some? ==> forall i :: 0 <= i < |r.value| ==> r.value[i] as int < 256
    ensures r.Some? ==> |StripPadding(s)| % 4 != 1
    ensures r.None? <==> |StripPadding(s)| % 4 == 1 || Sextets(StripPadding(s)).None?
  {
    var d := StripPadding(s);
    if |d| % 4 == 1 then None
    else match Sextets(d)
      case None => None
      case Some(q) => Some(CharsOf(DecodeGroups(q)))
  }

  /** A byte string as the binary string `atob` returns. */
  function CharsOf(b: seq<Byte>): (r: seq<char>)
    ensures |r| == |b| && forall i :: 0 <= i < |b| ==> r[i] as int == b[i]
  {
    seq(|b|, i requires 0 <= i < |b| => b[i] as char)
  }

  /** `urlBase64ToUint8Array`: the fresh array holds the code of each
      character `atob` returns; `ok` is false where `atob` throws. */
  method UrlBase64ToUint8Array(key: string) returns (ok: bool, out: array<Byte>)
    ensures fresh(out)
    ensures ok <==> Atob(Base64FromUrl(key)).Some?
    ensures ok ==> out.Length == |Atob(Base64FromUrl(key)).value|
                   && forall i :: 0 <= i < out.Length ==> out[i] == Atob(Base64FromUrl(key)).value[i] as int
    ensures !ok ==> out.Length == 0
  {
    var padding := Repeat('=', PadCount(key));
    var base64 := ToStandardAlphabet(key + padding);
    assert base64 == Base64FromUrl(key);
    var decoded := Atob(base64);
    if decoded.None? {
      return false, new Byte[0];
    }
    out := CharCodes(decoded.value);
    ok := true;
  }

  /** `new Uint8Array(rawData.length)` filled with `rawData.charCodeAt(i)`. */
  method CharCodes(rawData: seq<char>) returns (out: array<Byte>)
    requires forall i :: 0 <= i < |rawData| ==> rawData[i] as int < 256
    ensures fresh(out)
    ensures out.Length == |rawData| && forall i :: 0 <= i < |rawData| ==> out[i] == rawData[i] as int
  {
    out := new Byte[|rawData|];
    for i := 0 to |rawData|
      invariant forall j :: 0 <= j < i ==> out[j] == rawData[j] as int
    {
      out[i] := rawData[i] as int;
    }
  }

  // ---------------------------------------------------------------------
  // Encoding, the partner of decoding

  /** Three bytes make four sextets; a final one or two bytes make two or
      three, the low bits filled with zeros. */
  function EncodeGroups(b: seq<Byte>): (q: seq<Sextet>)
    ensures |q| % 4 != 1
    ensures |q| == (4 * |b| + 2) / 3
  {
    if |b| == 0 then []
    else if |b| == 1 then [b[0] / 4, (b[0] % 4) * 16]
    else if |b| == 2 then [b[0] / 4, (b[0] % 4) * 16 + b[1] / 16, (b[1] % 16) * 4]
    else EncodeGroup(b[0], b[1], b[2]) + EncodeGroups(b[3..])
  }

  /** Three bytes as four sextets. */
  function EncodeGroup(b0: Byte, b1: Byte, b2: Byte): (q: seq<Sextet>)
    ensures |q| == 4
  {
    [b0 / 4, (b0 % 4) * 16 + b1 / 16, (b1 % 16) * 4 + b2 / 64, b2 % 64]
  }

  /** Bytes as unpadded base64url, the form in which a VAPID public key is
      published. */
  function EncodeUrl(b: seq<Byte>): (s: string)
    ensures |s| == (4 * |b| + 2) / 3
  {
    var q := EncodeGroups(b);
    seq(|q|, i requires 0 <= i < |q| => UrlChar(q[i]))
  }

  lemma GroupRoundTrip(b0: Byte, b1: Byte, b2: Byte)
    ensures FirstByte(b0 / 4, (b0 % 4) * 16 + b1 / 16) == b0
    ensures SecondByte((b0 % 4) * 16 + b1 / 16, (b1 % 16) * 4 + b2 / 64) == b1
    ensures ThirdByte((b1 % 16) * 4 + b2 / 64, b2 % 64) == b2
  {
  }

  /** Decoding a full group of four sextets in front of the rest. */
  lemma DecodeFront(g: seq<Sextet>, rest: seq<Sextet>)
    requires |g| == 4 && |rest| % 4 != 1
    ensures DecodeGroups(g + rest) == DecodeGroup(g[0], g[1], g[2], g[3]) + DecodeGroups(rest)
  {
    var q := g + rest;
    assert q[0] == g[0] && q[1] == g[1] && q[2] == g[2] && q[3] == g[3];
    assert q[4..] == rest;
  }

  /** Three bytes survive encoding and decoding. */
  lemma DecodeEncodeThree(b0: Byte, b1: Byte, b2: Byte)
    ensures var q := EncodeGroup(b0, b1, b2); DecodeGroup(q[0], q[1], q[2], q[3]) == [b0, b1, b2]
  {
    GroupRoundTrip(b0, b1, b2);
  }

  /** A final two bytes survive encoding and decoding. */
  lemma DecodeEncodeTwo(b0: Byte, b1: Byte)
    ensures DecodeGroups(EncodeGroups([b0, b1])) == [b0, b1]
  {
    var s0: Sextet, s1: Sextet, s2: Sextet := b0 / 4, (b0 % 4) * 16 + b1 / 16, (b1 % 16) * 4;
    assert EncodeGroups([b0, b1]) == [s0, s1, s2];
    GroupRoundTrip(b0, b1, 0);
    assert FirstByte(s0, s1) == b0 && SecondByte(s1, s2) == b1;
  }

  /** A final byte survives encoding and decoding. */
  lemma DecodeEncodeOne(b0: Byte)
    ensures DecodeGroups(EncodeGroups([b0])) == [b0]
  {
    var s0: Sextet, s1: Sextet := b0 / 4, (b0 % 4) * 16;
    assert EncodeGroups([b0]) == [s0, s1];
    GroupRoundTrip(b0, 0, 0);
    assert FirstByte(s0, s1) == b0;
  }

  lemma {:induction false} DecodeEncode(b: seq<Byte>)
    ensures DecodeGroups(EncodeGroups(b)) == b
    decreases |b|
  {
    if |b| == 1 {
      DecodeEncodeOne(b[0]);
      assert b == [b[0]];
    } else if |b| == 2 {
      DecodeEncodeTwo(b[0], b[1]);
      assert b == [b[0], b[1]];
    } else if |b| >= 3 {
      DecodeFront(EncodeGroup(b[0], b[1], b[2]), EncodeGroups(b[3..]));
      DecodeEncodeThree(b[0], b[1], b[2]);
      DecodeEncode(b[3..]);
      assert b == [b[0], b[1], b[2]] + b[3..];
    }
  }

  /** The alphabet mapping works character by character, so it
      distributes over concatenation. */
  lemma StandardAppend(a: string, b: string)
    ensures ToStandardAlphabet(a + b) == ToStandardAlphabet(a) + ToStandardAlphabet(b)
  {
    var l, r := ToStandardAlphabet(a + b), ToStandardAlphabet(a) + ToStandardAlphabet(b);
    assert forall i :: 0 <= i < |l| ==> l[i] == r[i] by {
      forall i | 0 <= i < |l|
        ensures l[i] == r[i]
      {
        if i < |a| {
          assert (a + b)[i] == a[i];
        } else {
          assert (a + b)[i] == b[i - |a|];
        }
      }
    }
  }

  /** `atob` strips the one or two `=` that pad a text without `=` of its
      own to a multiple of four. */
  lemma StripPaddingOf(d: string, n: nat)
    requires n <= 2 && (|d| + n) % 4 == 0
    requires |d| > 0 ==> d[|d| - 1] != '='
    ensures StripPadding(d + Repeat('=', n)) == d
  {
    var t := d + Repeat('=', n);
    if n == 1 {
      assert t[|t| - 1] == '=';
      assert t[..|t| - 1] == d;
    } else if n == 2 {
      assert t[|t| - 1] == '=' && t[|t| - 2] == '=';
      assert t[..|t| - 2] == d;
    } else {
      assert t == d;
    }
  }

  /** The padding added to a key that has no `=` of its own and a length
      other than 1 modulo 4 is exactly what `atob` strips again. */
  lemma PaddingStripped(key: string)
    requires |key| % 4 != 1 && forall i :: 0 <= i < |key| ==> key[i] != '='
    ensures StripPadding(Base64FromUrl(key)) == ToStandardAlphabet(key)
  {
    var n := PadCount(key);
    var pad := Repeat('=', n);
    StandardAppend(key, pad);
    assert ToStandardAlphabet(pad) == pad;
    var d := ToStandardAlphabet(key);
    if |d| > 0 {
      assert d[|d| - 1] == SwapChar(key[|key| - 1]);
    }
    StripPaddingOf(d, n);
  }

  /** A key published as unpadded base64url converts back to exactly its
      bytes. */
  lemma KeyRoundTrip(b: seq<Byte>)
    ensures Atob(Base64FromUrl(EncodeUrl(b))) == Some(CharsOf(b))
  {
    var key := EncodeUrl(b);
    var q := EncodeGroups(b);
    PaddingStripped(key);
    SextetsOfStd(ToStandardAlphabet(key), q);
    DecodeEncode(b);
  }

  lemma {:induction false} SextetsOfStd(d: string, q: seq<Sextet>)
    requires |d| == |q| && forall i :: 0 <= i < |d| ==> d[i] == StdChar(q[i])
    ensures Sextets(d) == Some(q)
    decreases |d|
  {
    if d != [] {
      SextetOfStdChar(q[0]);
      SextetsOfStd(d[1..], q[1..]);
      assert q == [q[0]] + q[1..];
    }
  }
}
