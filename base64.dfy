/** Base64 with the standard alphabet and `=` padding (section 4 of RFC 4648): what
    `base64.b64encode(data).decode('utf-8')` produces, and a strict decoder that inverts it. */
module Base64 {
  import opened Wrappers

  newtype byte = x: int | 0 <= x < 256

  /** The character for a 6-bit value: `A`-`Z`, `a`-`z`, `0`-`9`, `+`, `/`. */
  function CharOf(v: int): (c: char)
    requires 0 <= v < 64
    ensures c != '='
  {
    if v < 26 then ('A' as int + v) as char
    else if v < 52 then ('a' as int + (v - 26)) as char
    else if v < 62 then ('0' as int + (v - 52)) as char
    else if v == 62 then '+'
    else '/'
  }

  /** The 6-bit value of an alphabet character; None for any other character. */
  function ValueOf(c: char): (r: Option<int>)
    ensures r.Some? ==> 0 <= r.value < 64 && CharOf(r.value) == c
  {
    if 'A' <= c <= 'Z' then Some(c as int - 'A' as int)
    else if 'a' <= c <= 'z' then Some(c as int - 'a' as int + 26)
    else if '0' <= c <= '9' then Some(c as int - '0' as int + 52)
    else if c == '+' then Some(62)
    else if c == '/' then Some(63)
    else None
  }

  lemma ValueOfCharOf(v: int)
    requires 0 <= v < 64
    ensures ValueOf(CharOf(v)) == Some(v)
  {
  }

  predicate IsAlphabetChar(c: char)
  {
    ValueOf(c).Some?
  }

  // ---------------------------------------------------------------------------
  // Encoding: every 3 bytes become 4 characters; a final group of 1 or 2 bytes is padded.

  function EncodeTriple(a: int, b: int, c: int): string
    requires 0 <= a < 256 && 0 <= b < 256 && 0 <= c < 256
  {
    [CharOf(a / 4), CharOf((a % 4) * 16 + b / 16), CharOf((b % 16) * 4 + c / 64), CharOf(c % 64)]
  }

  function EncodePair(a: int, b: int): string
    requires 0 <= a < 256 && 0 <= b < 256
  {
    [CharOf(a / 4), CharOf((a % 4) * 16 + b / 16), CharOf((b % 16) * 4), '=']
  }

  function EncodeSingle(a: int): string
    requires 0 <= a < 256
  {
    [CharOf(a / 4), CharOf((a % 4) * 16), '=', '=']
  }

  function Encode(data: seq<byte>): string
  {
    if |data| == 0 then ""
    else if |data| == 1 then EncodeSingle(data[0] as int)
    else if |data| == 2 then EncodePair(data[0] as int, data[1] as int)
    else EncodeTriple(data[0] as int, data[1] as int, data[2] as int) + Encode(data[3..])
  }

  /** Four characters for every started group of three bytes. */
  lemma {:induction false} EncodeLength(data: seq<byte>)
    ensures |Encode(data)| == 4 * ((|data| + 2) / 3)
  {
    if |data| >= 3 {
      EncodeLength(data[3..]);
      assert (|data| + 2) / 3 == (|data[3..]| + 2) / 3 + 1;
    }
  }

  // ---------------------------------------------------------------------------
  // Decoding: groups of 4 characters; `=` only as padding in the last group, and the bits that
  // padding leaves over in the last character must be zero, so only canonical text decodes.

  function DecodeQuad(w: int, x: int, y: int, z: int): seq<byte>
    requires 0 <= w < 64 && 0 <= x < 64 && 0 <= y < 64 && 0 <= z < 64
  {
    [(w * 4 + x / 16) as byte, ((x % 16) * 16 + y / 4) as byte, ((y % 4) * 64 + z) as byte]
  }

  function DecodeGroup(s: string): Option<seq<byte>>
    requires |s| == 4
  {
    match (ValueOf(s[0]), ValueOf(s[1]), ValueOf(s[2]), ValueOf(s[3]))
    case (Some(w), Some(x), Some(y), Some(z)) => Some(DecodeQuad(w, x, y, z))
    case (Some(w), Some(x), Some(y), None) =>
      if s[3] == '=' && y % 4 == 0 then Some(DecodeQuad(w, x, y, 0)[..2]) else None
    case (Some(w), Some(x), None, None) =>
      if s[2] == '=' && s[3] == '=' && x % 16 == 0 then Some(DecodeQuad(w, x, 0, 0)[..1]) else None
    case _ => None
  }

  function Decode(s: string): Option<seq<byte>>
  {
    if |s| == 0 then Some([])
    else if |s| < 4 then None
    else
      match DecodeGroup(s[..4])
      case None => None
      case Some(head) =>
        if |head| < 3 then (if |s| == 4 then Some(head) else None)
        else
          match Decode(s[4..])
          case None => None
          case Some(tail) => Some(head + tail)
  }

  // ---------------------------------------------------------------------------
  // Properties

  /** Six bits taken from the top of one byte and the rest from the next split back apart. */
  lemma SplitBits(hi: int, lo: int, k: int)
    requires 0 <= hi && 0 <= lo < k && (k == 4 || k == 16 || k == 64)
    ensures (hi * k + lo) / k == hi && (hi * k + lo) % k == lo
  {
  }

  lemma DecodeEncodeTriple(a: int, b: int, c: int)
    requires 0 <= a < 256 && 0 <= b < 256 && 0 <= c < 256
    ensures DecodeGroup(EncodeTriple(a, b, c)) == Some([a as byte, b as byte, c as byte])
  {
    var w, x, y, z := a / 4, (a % 4) * 16 + b / 16, (b % 16) * 4 + c / 64, c % 64;
    SplitBits(a % 4, b / 16, 16);
    SplitBits(b % 16, c / 64, 4);
    assert w * 4 + x / 16 == a;
    assert (x % 16) * 16 + y / 4 == b;
    assert (y % 4) * 64 + z == c;
    ValueOfCharOf(w); ValueOfCharOf(x); ValueOfCharOf(y); ValueOfCharOf(z);
    assert DecodeQuad(w, x, y, z) == [a as byte, b as byte, c as byte];
  }

  lemma DecodeEncodePair(a: int, b: int)
    requires 0 <= a < 256 && 0 <= b < 256
    ensures DecodeGroup(EncodePair(a, b)) == Some([a as byte, b as byte])
  {
    var w, x, y := a / 4, (a % 4) * 16 + b / 16, (b % 16) * 4;
    ValueOfCharOf(w); ValueOfCharOf(x); ValueOfCharOf(y);
    assert x / 16 == a % 4 && x % 16 == b / 16;
    assert y / 4 == b % 16;
    assert ValueOf('=') == None;
    assert DecodeQuad(w, x, y, 0)[..2] == [a as byte, b as byte];
  }

  lemma DecodeEncodeSingle(a: int)
    requires 0 <= a < 256
    ensures DecodeGroup(EncodeSingle(a)) == Some([a as byte])
  {
    var w, x := a / 4, (a % 4) * 16;
    ValueOfCharOf(w); ValueOfCharOf(x);
    assert x / 16 == a % 4;
    assert ValueOf('=') == None;
    assert DecodeQuad(w, x, 0, 0)[..1] == [a as byte];
  }

  /** A full group followed by a decodable rest decodes to the group's three bytes and the rest's. */
  lemma DecodeFullGroup(head: string, rest: string, h: seq<byte>, t: seq<byte>)
    requires |head| == 4 && DecodeGroup(head) == Some(h) && |h| == 3
    requires Decode(rest) == Some(t)
    ensures Decode(head + rest) == Some(h + t)
  {
    var s := head + rest;
    assert s[..4] == head && s[4..] == rest;
  }

  /** A last group holding one or two bytes decodes on its own. */
  lemma DecodeLastGroup(s: string, h: seq<byte>)
    requires |s| == 4 && DecodeGroup(s) == Some(h) && |h| < 3
    ensures Decode(s) == Some(h)
  {
    assert s[..4] == s;
  }

  lemma DecodeEncodeOneByte(data: seq<byte>)
    requires |data| == 1
    ensures Decode(Encode(data)) == Some(data)
  {
    var s := EncodeSingle(data[0] as int);
    assert Encode(data) == s;
    DecodeEncodeSingle(data[0] as int);
    DecodeLastGroup(s, [data[0]]);
    assert data == [data[0]];
  }

  lemma DecodeEncodeTwoBytes(data: seq<byte>)
    requires |data| == 2
    ensures Decode(Encode(data)) == Some(data)
  {
    var s := EncodePair(data[0] as int, data[1] as int);
    assert Encode(data) == s;
    DecodeEncodePair(data[0] as int, data[1] as int);
    DecodeLastGroup(s, [data[0], data[1]]);
    assert data == [data[0], data[1]];
  }

  /** Decoding the encoding gives back exactly the bytes that were encoded. */
  lemma {:induction false} DecodeEncode(data: seq<byte>)
    ensures Decode(Encode(data)) == Some(data)
    decreases |data|
  {
    if |data| == 1 {
      DecodeEncodeOneByte(data);
    } else if |data| == 2 {
      DecodeEncodeTwoBytes(data);
    } else if |data| >= 3 {
      DecodeEncode(data[3..]);
      DecodeEncodeGroupThenRest(data);
    }
  }

  /** Three bytes and more: the first group decodes to the first three bytes, then the rest. */
  lemma DecodeEncodeGroupThenRest(data: seq<byte>)
    requires |data| >= 3 && Decode(Encode(data[3..])) == Some(data[3..])
    ensures Decode(Encode(data)) == Some(data)
  {
    FirstThree(data);
    var head := EncodeTriple(data[0] as int, data[1] as int, data[2] as int);
    var rest := Encode(data[3..]);
    assert Encode(data) == head + rest;
    DecodeEncodeTriple(data[0] as int, data[1] as int, data[2] as int);
    DecodeFullGroup(head, rest, [data[0], data[1], data[2]], data[3..]);
  }

  lemma FirstThree(data: seq<byte>)
    requires |data| >= 3
    ensures data == [data[0], data[1], data[2]] + data[3..]
  {
  }

  /** The encoding uses only the 64 alphabet characters and `=`, and `=` only at the end. */
  lemma {:induction false} EncodeAlphabet(data: seq<byte>)
    ensures forall i :: 0 <= i < |Encode(data)| ==> IsAlphabetChar(Encode(data)[i]) || Encode(data)[i] == '='
    ensures forall i :: 0 <= i < |Encode(data)| && Encode(data)[i] == '=' ==> i >= |Encode(data)| - 2
  {
    if |data| >= 3 {
      EncodeAlphabet(data[3..]);
      var head := EncodeTriple(data[0] as int, data[1] as int, data[2] as int);
      forall k | 0 <= k < 4 ensures IsAlphabetChar(head[k]) {
        ValueOfCharOf(ValueOf(head[k]).value);
      }
    } else if |data| > 0 {
      var s := Encode(data);
      assert ValueOf(s[0]).Some? && ValueOf(s[1]).Some?;
      if |data| == 2 {
        assert ValueOf(s[2]).Some?;
      }
    }
  }

  /** The three bytes made of four 6-bit values give those values back when regrouped. */
  lemma RegroupBits(w: int, x: int, y: int, z: int)
    requires 0 <= w < 64 && 0 <= x < 64 && 0 <= y < 64 && 0 <= z < 64
    ensures var h := DecodeQuad(w, x, y, z);
      var a, b, c := h[0] as int, h[1] as int, h[2] as int;
      && a / 4 == w && (a % 4) * 16 + b / 16 == x && (b % 16) * 4 + c / 64 == y && c % 64 == z
  {
    SplitBits(w, x / 16, 4);
    SplitBits(x % 16, y / 4, 16);
    SplitBits(y % 4, z, 64);
  }

  /** A full group is the encoding of the three bytes it decodes to. */
  lemma EncodeDecodeTriple(g: string, w: int, x: int, y: int, z: int)
    requires |g| == 4 && ValueOf(g[0]) == Some(w) && ValueOf(g[1]) == Some(x)
    requires ValueOf(g[2]) == Some(y) && ValueOf(g[3]) == Some(z)
    ensures var h := DecodeQuad(w, x, y, z); EncodeTriple(h[0] as int, h[1] as int, h[2] as int) == g
  {
    RegroupBits(w, x, y, z);
    var h := DecodeQuad(w, x, y, z);
    var a, b, c := h[0] as int, h[1] as int, h[2] as int;
    assert EncodeTriple(a, b, c) == [CharOf(w), CharOf(x), CharOf(y), CharOf(z)];
  }

  /** A group with one `=` is the encoding of the two bytes it decodes to. */
  lemma EncodeDecodePair(g: string, w: int, x: int, y: int)
    requires |g| == 4 && ValueOf(g[0]) == Some(w) && ValueOf(g[1]) == Some(x)
    requires ValueOf(g[2]) == Some(y) && g[3] == '=' && y % 4 == 0
    ensures var h := DecodeQuad(w, x, y, 0); EncodePair(h[0] as int, h[1] as int) == g
  {
    var a, b := w * 4 + x / 16, (x % 16) * 16 + y / 4;
    SplitBits(w, x / 16, 4);
    SplitBits(x % 16, y / 4, 16);
    assert (a % 4) * 16 + b / 16 == x;
    assert (b % 16) * 4 == y;
    assert EncodePair(a, b) == [g[0], g[1], g[2], g[3]];
  }

  /** A group with two `=` is the encoding of the byte it decodes to. */
  lemma EncodeDecodeSingle(g: string, w: int, x: int)
    requires |g| == 4 && ValueOf(g[0]) == Some(w) && ValueOf(g[1]) == Some(x)
    requires g[2] == '=' && g[3] == '=' && x % 16 == 0
    ensures var h := DecodeQuad(w, x, 0, 0); EncodeSingle(h[0] as int) == g
  {
    var a := w * 4 + x / 16;
    SplitBits(w, x / 16, 4);
    assert (a % 4) * 16 == x;
    assert EncodeSingle(a) == [g[0], g[1], g[2], g[3]];
  }

  /** Every group that decodes is the encoding of what it decodes to. */
  lemma EncodeDecodeGroup(g: string, h: seq<byte>)
    requires |g| == 4 && DecodeGroup(g) == Some(h)
    ensures 1 <= |h| <= 3 && Encode(h) == g
  {
    assert ValueOf('=') == None;
    match (ValueOf(g[0]), ValueOf(g[1]), ValueOf(g[2]), ValueOf(g[3]))
    case (Some(w), Some(x), Some(y), Some(z)) =>
      EncodeDecodeTriple(g, w, x, y, z);
      assert h[3..] == [];
    case (Some(w), Some(x), Some(y), None) =>
      EncodeDecodePair(g, w, x, y);
    case (Some(w), Some(x), None, None) =>
      EncodeDecodeSingle(g, w, x);
  }

  /** Only canonical text decodes: whatever decodes is the encoding of the bytes it gives. */
  lemma {:induction false} EncodeDecode(s: string, data: seq<byte>)
    requires Decode(s) == Some(data)
    ensures Encode(data) == s
    decreases |s|
  {
    if |s| > 0 {
      var head := DecodeGroup(s[..4]).value;
      EncodeDecodeGroup(s[..4], head);
      if |head| < 3 {
        assert s == s[..4];
      } else {
        var tail := Decode(s[4..]).value;
        EncodeDecode(s[4..], tail);
        assert data == head + tail;
        assert data[3..] == tail;
        assert head == [data[0], data[1], data[2]];
        assert s == s[..4] + s[4..];
      }
    }
  }

  /** Distinct byte strings have distinct encodings. */
  lemma EncodeInjective(d1: seq<byte>, d2: seq<byte>)
    requires Encode(d1) == Encode(d2)
    ensures d1 == d2
  {
    DecodeEncode(d1);
    DecodeEncode(d2);
  }
}
