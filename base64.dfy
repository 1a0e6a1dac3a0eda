/** The encoding under the PKCE helpers of client/src/pages/login.tsx: the browser's `btoa`
    (base64 of RFC 4648 section 4, with padding), the chain of three `replace` calls that turns
    its output into base64url (RFC 4648 section 5) without padding, and a decoder.

    `UrlSafe(Encode(bs))` is the chain as the code writes it; `UrlEncode(bs)` is an independent
    definition of unpadded base64url, group by group. They are proved equal, and `UrlDecode` is
    proved to invert `UrlEncode` in both directions. */
module Base64 {
  import opened Wrappers

  type Byte = b: int | 0 <= b < 256

  /** A 6-bit group, the unit one base64 character stands for. */
  type Sextet = v: int | 0 <= v < 64

  /** The character of a 6-bit value in the base64 alphabet (RFC 4648 section 4, Table 1). */
  function StdChar(v: Sextet): char {
    if v < 26 then (65 + v) as char
    else if v < 52 then (97 + v - 26) as char
    else if v < 62 then (48 + v - 52) as char
    else if v == 62 then '+'
    else '/'
  }

  /** The character of a 6-bit value in the base64url alphabet (RFC 4648 section 5, Table 2):
      the base64 one with '-' and '_' in place of '+' and '/'. */
  function UrlChar(v: Sextet): char {
    if v == 62 then '-' else if v == 63 then '_' else StdChar(v)
  }

  predicate IsUrlChar(c: char) {
    'A' <= c <= 'Z' || 'a' <= c <= 'z' || '0' <= c <= '9' || c == '-' || c == '_'
  }

  /** The 6-bit value of a base64url character, if it is one. */
  function UrlValue(c: char): Option<Sextet> {
    if 'A' <= c <= 'Z' then Some(c as int - 65)
    else if 'a' <= c <= 'z' then Some(c as int - 97 + 26)
    else if '0' <= c <= '9' then Some(c as int - 48 + 52)
    else if c == '-' then Some(62)
    else if c == '_' then Some(63)
    else None
  }

  // The four 6-bit groups of three bytes b0 b1 b2 (a missing byte counts as zero) ...
  function S0(b0: Byte): Sextet { b0 / 4 }
  function S1(b0: Byte, b1: Byte): Sextet { b0 % 4 * 16 + b1 / 16 }
  function S2(b1: Byte, b2: Byte): Sextet { b1 % 16 * 4 + b2 / 64 }
  function S3(b2: Byte): Sextet { b2 % 64 }

  // ... and the three bytes of four 6-bit groups c0 c1 c2 c3.
  function B0(c0: Sextet, c1: Sextet): Byte { c0 * 4 + c1 / 16 }
  function B1(c1: Sextet, c2: Sextet): Byte { c1 % 16 * 16 + c2 / 4 }
  function B2(c2: Sextet, c3: Sextet): Byte { c2 % 4 * 64 + c3 }

  /** A string `btoa` accepts: every character code fits in a byte. */
  predicate IsBinary(s: string) {
    forall i :: 0 <= i < |s| ==> s[i] as int < 256
  }

  /** The bytes a binary string stands for. */
  function CharCodes(s: string): seq<Byte>
    requires IsBinary(s)
  {
    seq(|s|, i requires 0 <= i < |s| => s[i] as int)
  }

  /** `String.fromCharCode(...bytes)`: one character per byte, with that code. */
  function FromCharCodes(bs: seq<Byte>): string {
    seq(|bs|, i requires 0 <= i < |bs| => bs[i] as char)
  }

  /** The four base64 characters of three bytes. */
  function StdGroup(b0: Byte, b1: Byte, b2: Byte): string {
    [StdChar(S0(b0)), StdChar(S1(b0, b1)), StdChar(S2(b1, b2)), StdChar(S3(b2))]
  }

  /** The last one or two bytes, padded with '=' to four characters. */
  function StdTail(bs: seq<Byte>): string
    requires |bs| < 3
  {
    if |bs| == 0 then ""
    else if |bs| == 1 then [StdChar(S0(bs[0])), StdChar(S1(bs[0], 0)), '=', '=']
    else [StdChar(S0(bs[0])), StdChar(S1(bs[0], bs[1])), StdChar(S2(bs[1], 0)), '=']
  }

  /** Base64 with padding (RFC 4648 section 4), three bytes to four characters. */
  function Encode(bs: seq<Byte>): string
    decreases |bs|
  {
    if |bs| < 3 then StdTail(bs) else StdGroup(bs[0], bs[1], bs[2]) + Encode(bs[3..])
  }

  /** `btoa(s)`: fails (InvalidCharacterError) on a character code above 255, otherwise
      encodes the string's bytes. */
  function Btoa(s: string): Option<string> {
    if IsBinary(s) then Some(Encode(CharCodes(s))) else None
  }

  /** `s.replace(/x/g, y)` for single characters `x` and `y`. */
  function ReplaceAll(s: string, x: char, y: char): string {
    if s == [] then [] else [if s[0] == x then y else s[0]] + ReplaceAll(s[1..], x, y)
  }

  /** `s.replace(/x/g, "")`. */
  function RemoveAll(s: string, x: char): string {
    if s == [] then [] else (if s[0] == x then [] else [s[0]]) + RemoveAll(s[1..], x)
  }

  /** `.replace(/\+/g, "-").replace(/\//g, "_").replace(/=/g, "")`. */
  function UrlSafe(s: string): string {
    RemoveAll(ReplaceAll(ReplaceAll(s, '+', '-'), '/', '_'), '=')
  }

  /** The four base64url characters of three bytes. */
  function UrlGroup(b0: Byte, b1: Byte, b2: Byte): string {
    [UrlChar(S0(b0)), UrlChar(S1(b0, b1)), UrlChar(S2(b1, b2)), UrlChar(S3(b2))]
  }

  /** The last one or two bytes, as two or three characters. */
  function UrlTail(bs: seq<Byte>): string
    requires |bs| < 3
  {
    if |bs| == 0 then ""
    else if |bs| == 1 then [UrlChar(S0(bs[0])), UrlChar(S1(bs[0], 0))]
    else [UrlChar(S0(bs[0])), UrlChar(S1(bs[0], bs[1])), UrlChar(S2(bs[1], 0))]
  }

  /** Base64url without padding (RFC 4648 section 5, padding left out as section 3.2 allows). */
  function UrlEncode(bs: seq<Byte>): string
    decreases |bs|
  {
    if |bs| < 3 then UrlTail(bs) else UrlGroup(bs[0], bs[1], bs[2]) + UrlEncode(bs[3..])
  }

  /** The three bytes of four base64url characters. */
  function DecodeGroup(s: string): Option<seq<Byte>>
    requires |s| == 4
  {
    var c0, c1, c2, c3 := UrlValue(s[0]), UrlValue(s[1]), UrlValue(s[2]), UrlValue(s[3]);
    if c0.Some? && c1.Some? && c2.Some? && c3.Some? then
      Some([B0(c0.value, c1.value), B1(c1.value, c2.value), B2(c2.value, c3.value)])
    else None
  }

  /** The bytes of a last group of fewer than four characters; the unused low bits of its last
      character must be zero, and a single character is never a whole byte. */
  function DecodeTail(s: string): Option<seq<Byte>>
    requires |s| < 4
  {
    if |s| == 0 then Some([])
    else if |s| == 1 then None
    else
      var c0, c1 := UrlValue(s[0]), UrlValue(s[1]);
      if c0.None? || c1.None? then None
      else if |s| == 2 then
        if c1.value % 16 == 0 then Some([B0(c0.value, c1.value)]) else None
      else
        var c2 := UrlValue(s[2]);
        if c2.Some? && c2.value % 4 == 0 then Some([B0(c0.value, c1.value), B1(c1.value, c2.value)]) else None
  }

  /** Strict decoding of unpadded base64url: fails on a character outside the alphabet, on a
      length of 1 modulo 4, and on a last character whose unused low bits are not zero. */
  function UrlDecode(s: string): Option<seq<Byte>>
    decreases |s|
  {
    if |s| < 4 then DecodeTail(s)
    else
      var group, rest := DecodeGroup(s[..4]), UrlDecode(s[4..]);
      if group.Some? && rest.Some? then Some(group.value + rest.value) else None
  }

  // ---------------------------------------------------------------------------------------
  // Characters

  lemma UrlCharSpec(v: Sextet)
    ensures IsUrlChar(UrlChar(v))
    ensures UrlValue(UrlChar(v)) == Some(v)
    ensures StdChar(v) != '='
    ensures StdChar(v) == '+' <==> v == 62
    ensures StdChar(v) == '/' <==> v == 63
  {
  }

  lemma UrlValueSpec(c: char)
    requires UrlValue(c).Some?
    ensures UrlChar(UrlValue(c).value) == c
  {
  }

  lemma CharCodesSpec(bs: seq<Byte>)
    ensures IsBinary(FromCharCodes(bs))
    ensures CharCodes(FromCharCodes(bs)) == bs
  {
  }

  /** Two binary strings with the same bytes are the same string. */
  lemma CharCodesInjective(s: string, t: string)
    requires IsBinary(s) && IsBinary(t)
    requires CharCodes(s) == CharCodes(t)
    ensures s == t
  {
    assert |s| == |CharCodes(s)| == |CharCodes(t)| == |t|;
    forall i | 0 <= i < |s| ensures s[i] == t[i] {
      assert CharCodes(s)[i] == CharCodes(t)[i];
      assert s[i] as int == t[i] as int;
    }
  }

  // ---------------------------------------------------------------------------------------
  // The replace chain is unpadded base64url

  lemma {:induction false} ReplaceAllConcat(a: string, b: string, x: char, y: char)
    ensures ReplaceAll(a + b, x, y) == ReplaceAll(a, x, y) + ReplaceAll(b, x, y)
  {
    if a != [] {
      assert (a + b)[0] == a[0] && (a + b)[1..] == a[1..] + b;
      ReplaceAllConcat(a[1..], b, x, y);
    } else {
      assert a + b == b;
    }
  }

  lemma {:induction false} RemoveAllConcat(a: string, b: string, x: char)
    ensures RemoveAll(a + b, x) == RemoveAll(a, x) + RemoveAll(b, x)
  {
    if a != [] {
      assert (a + b)[0] == a[0] && (a + b)[1..] == a[1..] + b;
      RemoveAllConcat(a[1..], b, x);
    } else {
      assert a + b == b;
    }
  }

  lemma UrlSafeConcat(a: string, b: string)
    ensures UrlSafe(a + b) == UrlSafe(a) + UrlSafe(b)
  {
    ReplaceAllConcat(a, b, '+', '-');
    var a1, b1 := ReplaceAll(a, '+', '-'), ReplaceAll(b, '+', '-');
    ReplaceAllConcat(a1, b1, '/', '_');
    RemoveAllConcat(ReplaceAll(a1, '/', '_'), ReplaceAll(b1, '/', '_'), '=');
  }

  lemma ReplaceOne(c: char, x: char, y: char)
    ensures ReplaceAll([c], x, y) == [if c == x then y else c]
  {
    assert [c][1..] == [];
  }

  lemma RemoveOne(c: char, x: char)
    ensures RemoveAll([c], x) == if c == x then [] else [c]
  {
    assert [c][1..] == [];
  }

  lemma UrlSafeOne(c: char)
    ensures UrlSafe([c]) == if c == '=' then [] else if c == '+' then ['-'] else if c == '/' then ['_'] else [c]
  {
    ReplaceOne(c, '+', '-');
    var c1 := if c == '+' then '-' else c;
    ReplaceOne(c1, '/', '_');
    var c2 := if c1 == '/' then '_' else c1;
    RemoveOne(c2, '=');
  }

  /** The chain maps each base64 character to its base64url twin and drops the padding. */
  lemma UrlSafeChar(v: Sextet)
    ensures UrlSafe([StdChar(v)]) == [UrlChar(v)]
  {
    UrlCharSpec(v);
    UrlSafeOne(StdChar(v));
  }

  lemma UrlSafeFour(a: char, b: char, c: char, d: char)
    ensures UrlSafe([a, b, c, d]) == UrlSafe([a]) + UrlSafe([b]) + UrlSafe([c]) + UrlSafe([d])
  {
    assert [a, b, c, d] == [a] + [b] + [c] + [d];
    UrlSafeConcat([a] + [b] + [c], [d]);
    UrlSafeConcat([a] + [b], [c]);
    UrlSafeConcat([a], [b]);
  }

  lemma UrlSafeGroup(b0: Byte, b1: Byte, b2: Byte)
    ensures UrlSafe(StdGroup(b0, b1, b2)) == UrlGroup(b0, b1, b2)
  {
    UrlSafeFour(StdChar(S0(b0)), StdChar(S1(b0, b1)), StdChar(S2(b1, b2)), StdChar(S3(b2)));
    UrlSafeChar(S0(b0));
    UrlSafeChar(S1(b0, b1));
    UrlSafeChar(S2(b1, b2));
    UrlSafeChar(S3(b2));
  }

  lemma UrlSafeTail(bs: seq<Byte>)
    requires |bs| < 3
    ensures UrlSafe(StdTail(bs)) == UrlTail(bs)
  {
    UrlSafeOne('=');
    if |bs| == 1 {
      UrlSafeFour(StdChar(S0(bs[0])), StdChar(S1(bs[0], 0)), '=', '=');
      UrlSafeChar(S0(bs[0]));
      UrlSafeChar(S1(bs[0], 0));
    } else if |bs| == 2 {
      UrlSafeFour(StdChar(S0(bs[0])), StdChar(S1(bs[0], bs[1])), StdChar(S2(bs[1], 0)), '=');
      UrlSafeChar(S0(bs[0]));
      UrlSafeChar(S1(bs[0], bs[1]));
      UrlSafeChar(S2(bs[1], 0));
    }
  }

  /** `btoa` followed by the three replacements is exactly unpadded base64url. */
  lemma {:induction false} UrlSafeEncode(bs: seq<Byte>)
    ensures UrlSafe(Encode(bs)) == UrlEncode(bs)
    decreases |bs|
  {
    if |bs| < 3 {
      UrlSafeTail(bs);
    } else {
      UrlSafeConcat(StdGroup(bs[0], bs[1], bs[2]), Encode(bs[3..]));
      UrlSafeGroup(bs[0], bs[1], bs[2]);
      UrlSafeEncode(bs[3..]);
    }
  }

  // ---------------------------------------------------------------------------------------
  // Length, alphabet, decoding

  /** n bytes give ceil(4n/3) characters: 32 bytes give 43, 43 bytes give 58. */
  lemma {:induction false} UrlEncodeLength(bs: seq<Byte>)
    ensures |UrlEncode(bs)| == (4 * |bs| + 2) / 3
    decreases |bs|
  {
    if |bs| >= 3 {
      UrlEncodeLength(bs[3..]);
    }
  }

  /** Only 'A'-'Z', 'a'-'z', '0'-'9', '-' and '_' occur: no '+', '/' or '='. */
  lemma {:induction false} UrlEncodeAlphabet(bs: seq<Byte>)
    ensures forall i :: 0 <= i < |UrlEncode(bs)| ==> IsUrlChar(UrlEncode(bs)[i])
    decreases |bs|
  {
    if |bs| > 0 {
      UrlCharSpec(S0(bs[0]));
      if |bs| == 1 {
        UrlCharSpec(S1(bs[0], 0));
      } else if |bs| == 2 {
        UrlCharSpec(S1(bs[0], bs[1]));
        UrlCharSpec(S2(bs[1], 0));
      } else {
        UrlCharSpec(S1(bs[0], bs[1]));
        UrlCharSpec(S2(bs[1], bs[2]));
        UrlCharSpec(S3(bs[2]));
        UrlEncodeAlphabet(bs[3..]);
      }
    }
  }

  lemma SplitBytes(b0: Byte, b1: Byte, b2: Byte)
    ensures B0(S0(b0), S1(b0, b1)) == b0
    ensures B1(S1(b0, b1), S2(b1, b2)) == b1
    ensures B2(S2(b1, b2), S3(b2)) == b2
    ensures S1(b0, 0) % 16 == 0 && S2(b1, 0) % 4 == 0
  {
    SplitFirst(b0, b1);
    SplitSecond(b0, b1, b2);
    SplitThird(b1, b2);
  }

  lemma SplitFirst(b0: Byte, b1: Byte)
    ensures B0(S0(b0), S1(b0, b1)) == b0
    ensures S1(b0, 0) % 16 == 0
  {
    var r, h := b0 % 4, b1 / 16;
    assert (r * 16 + h) / 16 == r;
  }

  lemma SplitSecond(b0: Byte, b1: Byte, b2: Byte)
    ensures B1(S1(b0, b1), S2(b1, b2)) == b1
  {
    var r, h, l, t := b0 % 4, b1 / 16, b1 % 16, b2 / 64;
    assert (r * 16 + h) % 16 == h;
    assert (l * 4 + t) / 4 == l;
  }

  lemma SplitThird(b1: Byte, b2: Byte)
    ensures B2(S2(b1, b2), S3(b2)) == b2
    ensures S2(b1, 0) % 4 == 0
  {
    var l, t := b1 % 16, b2 / 64;
    assert (l * 4 + t) % 4 == t;
  }

  lemma JoinSextets(c0: Sextet, c1: Sextet, c2: Sextet, c3: Sextet)
    ensures S0(B0(c0, c1)) == c0
    ensures S1(B0(c0, c1), B1(c1, c2)) == c1
    ensures S2(B1(c1, c2), B2(c2, c3)) == c2
    ensures S3(B2(c2, c3)) == c3
    ensures c1 % 16 == 0 ==> S1(B0(c0, c1), 0) == c1
    ensures c2 % 4 == 0 ==> S2(B1(c1, c2), 0) == c2
  {
  }

  lemma DecodeChars(c0: Sextet, c1: Sextet, c2: Sextet, c3: Sextet)
    ensures DecodeGroup([UrlChar(c0), UrlChar(c1), UrlChar(c2), UrlChar(c3)])
      == Some([B0(c0, c1), B1(c1, c2), B2(c2, c3)])
  {
    UrlCharSpec(c0);
    UrlCharSpec(c1);
    UrlCharSpec(c2);
    UrlCharSpec(c3);
  }

  lemma GroupCodec(b0: Byte, b1: Byte, b2: Byte)
    ensures DecodeGroup(UrlGroup(b0, b1, b2)) == Some([b0, b1, b2])
  {
    DecodeChars(S0(b0), S1(b0, b1), S2(b1, b2), S3(b2));
    SplitBytes(b0, b1, b2);
  }

  lemma DecodeTailChars(c0: Sextet, c1: Sextet, c2: Sextet)
    ensures DecodeTail([UrlChar(c0), UrlChar(c1)]) == if c1 % 16 == 0 then Some([B0(c0, c1)]) else None
    ensures DecodeTail([UrlChar(c0), UrlChar(c1), UrlChar(c2)])
      == if c2 % 4 == 0 then Some([B0(c0, c1), B1(c1, c2)]) else None
  {
    UrlCharSpec(c0);
    UrlCharSpec(c1);
    UrlCharSpec(c2);
  }

  lemma TailCodecOne(b0: Byte)
    ensures DecodeTail(UrlTail([b0])) == Some([b0])
  {
    assert UrlTail([b0]) == [UrlChar(S0(b0)), UrlChar(S1(b0, 0))];
    DecodeTailChars(S0(b0), S1(b0, 0), 0);
    SplitBytes(b0, 0, 0);
  }

  lemma TailCodecTwo(b0: Byte, b1: Byte)
    ensures DecodeTail(UrlTail([b0, b1])) == Some([b0, b1])
  {
    assert UrlTail([b0, b1]) == [UrlChar(S0(b0)), UrlChar(S1(b0, b1)), UrlChar(S2(b1, 0))];
    DecodeTailChars(S0(b0), S1(b0, b1), S2(b1, 0));
    SplitBytes(b0, b1, 0);
  }

  lemma TailCodec(bs: seq<Byte>)
    requires |bs| < 3
    ensures DecodeTail(UrlTail(bs)) == Some(bs)
  {
    if |bs| == 1 {
      assert bs == [bs[0]];
      TailCodecOne(bs[0]);
    } else if |bs| == 2 {
      assert bs == [bs[0], bs[1]];
      TailCodecTwo(bs[0], bs[1]);
    }
  }

  /** Decoding a whole first group followed by more characters. */
  lemma UrlDecodeConcat(group: string, rest: string)
    requires |group| == 4
    ensures UrlDecode(group + rest)
      == if DecodeGroup(group).Some? && UrlDecode(rest).Some? then Some(DecodeGroup(group).value + UrlDecode(rest).value) else None
  {
    var s := group + rest;
    assert s[..4] == group && s[4..] == rest;
  }

  /** Encoding three bytes followed by more bytes. */
  lemma UrlEncodeConcat(group: seq<Byte>, rest: seq<Byte>)
    requires |group| == 3
    ensures UrlEncode(group + rest) == UrlGroup(group[0], group[1], group[2]) + UrlEncode(rest)
  {
    var bs := group + rest;
    assert bs[0] == group[0] && bs[1] == group[1] && bs[2] == group[2] && bs[3..] == rest;
  }

  /** Decoding the encoding gives the bytes back. */
  lemma {:induction false} UrlDecodeEncode(bs: seq<Byte>)
    ensures UrlDecode(UrlEncode(bs)) == Some(bs)
    decreases |bs|
  {
    if |bs| < 3 {
      TailCodec(bs);
      assert UrlEncode(bs) == UrlTail(bs);
    } else {
      UrlDecodeEncode(bs[3..]);
      DecodeEncodeStep(bs);
    }
  }

  /** The inductive step of `UrlDecodeEncode`: a first group in front of bytes that round-trip. */
  lemma DecodeEncodeStep(bs: seq<Byte>)
    requires |bs| >= 3
    requires UrlDecode(UrlEncode(bs[3..])) == Some(bs[3..])
    ensures UrlDecode(UrlEncode(bs)) == Some(bs)
  {
    var b0, b1, b2, tail := bs[0], bs[1], bs[2], bs[3..];
    SplitHead(bs);
    UrlEncodeConcat([b0, b1, b2], tail);
    GroupCodec(b0, b1, b2);
    UrlDecodeConcat(UrlGroup(b0, b1, b2), UrlEncode(tail));
  }

  /** A sequence of at least three bytes is its first three bytes followed by the rest. */
  lemma SplitHead(bs: seq<Byte>)
    requires |bs| >= 3
    ensures bs == [bs[0], bs[1], bs[2]] + bs[3..]
  {
  }

  lemma GroupCanonical(s: string)
    requires |s| == 4 && DecodeGroup(s).Some?
    ensures var g := DecodeGroup(s).value; UrlGroup(g[0], g[1], g[2]) == s
  {
    var c0, c1, c2, c3 := UrlValue(s[0]).value, UrlValue(s[1]).value, UrlValue(s[2]).value, UrlValue(s[3]).value;
    UrlValueSpec(s[0]);
    UrlValueSpec(s[1]);
    UrlValueSpec(s[2]);
    UrlValueSpec(s[3]);
    assert s == [UrlChar(c0), UrlChar(c1), UrlChar(c2), UrlChar(c3)];
    assert DecodeGroup(s).value == [B0(c0, c1), B1(c1, c2), B2(c2, c3)];
    JoinSextets(c0, c1, c2, c3);
  }

  lemma TailCanonical(s: string)
    requires |s| < 4 && DecodeTail(s).Some?
    ensures |DecodeTail(s).value| < 3 && UrlTail(DecodeTail(s).value) == s
  {
    if |s| == 2 {
      var c0, c1 := UrlValue(s[0]).value, UrlValue(s[1]).value;
      UrlValueSpec(s[0]);
      UrlValueSpec(s[1]);
      assert s == [UrlChar(c0), UrlChar(c1)];
      DecodeTailChars(c0, c1, 0);
      JoinSextets(c0, c1, 0, 0);
    } else if |s| == 3 {
      var c0, c1, c2 := UrlValue(s[0]).value, UrlValue(s[1]).value, UrlValue(s[2]).value;
      UrlValueSpec(s[0]);
      UrlValueSpec(s[1]);
      UrlValueSpec(s[2]);
      assert s == [UrlChar(c0), UrlChar(c1), UrlChar(c2)];
      DecodeTailChars(c0, c1, c2);
      JoinSextets(c0, c1, c2, 0);
    }
  }

  /** A string that decodes is the encoding of what it decodes to: the decoder accepts only
      canonical encodings. */
  lemma {:induction false} UrlEncodeDecode(s: string)
    requires UrlDecode(s).Some?
    ensures UrlEncode(UrlDecode(s).value) == s
    decreases |s|
  {
    if |s| < 4 {
      TailCanonical(s);
    } else {
      var g, r := s[..4], s[4..];
      assert s == g + r;
      UrlDecodeConcat(g, r);
      GroupCanonical(g);
      UrlEncodeDecode(r);
      UrlEncodeConcat(DecodeGroup(g).value, UrlDecode(r).value);
    }
  }

  /** Decoding and encoding are inverse: `UrlDecode(s)` gives `bs` exactly when `s` is the
      encoding of `bs`. */
  lemma UrlCodec(bs: seq<Byte>, s: string)
    ensures UrlDecode(s) == Some(bs) <==> UrlEncode(bs) == s
  {
    UrlDecodeEncode(bs);
    if UrlDecode(s) == Some(bs) {
      UrlEncodeDecode(s);
    }
  }

  /** Distinct byte strings have distinct encodings. */
  lemma UrlEncodeInjective(a: seq<Byte>, b: seq<Byte>)
    requires UrlEncode(a) == UrlEncode(b)
    ensures a == b
  {
    UrlDecodeEncode(a);
    UrlDecodeEncode(b);
  }
}
