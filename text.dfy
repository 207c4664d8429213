/** The Python string operations the modelled code relies on: `str.join`, `str.split` on one
    character, `str.strip`, `str.lower` (ASCII letters) and decimal formatting of integers. */
module Text {

  /** Python's `str.isspace` for one character: the characters `str.strip()` removes. */
  predicate IsSpace(c: char)
  {
    || c == ' ' || c == '\t' || c == '\n' || c == '\r'
    || c == '\U{0B}' || c == '\U{0C}'
    || ('\U{1C}' <= c <= '\U{1F}')
    || c == '\U{85}' || c == '\U{A0}' || c == '\U{1680}'
    || ('\U{2000}' <= c <= '\U{200A}')
    || c == '\U{2028}' || c == '\U{2029}' || c == '\U{202F}' || c == '\U{205F}' || c == '\U{3000}'
  }

  predicate AllSpace(s: string)
  {
    forall i :: 0 <= i < |s| ==> IsSpace(s[i])
  }

  // ---------------------------------------------------------------------------
  // Concatenation facts, stated once so that proofs about texts built from long literals can
  // use them without unfolding the literals.

  lemma ConcatAssoc(w: string, x: string, y: string, z: string)
    ensures w + x + y + z == w + (x + y + z)
  {
  }

  lemma ConcatAssoc3(x: string, y: string, z: string)
    ensures x + y + z == x + (y + z)
  {
  }

  lemma ConcatSplit(x: string, y: string)
    ensures x <= x + y && (x + y)[..|x|] == x && (x + y)[|x|..] == y
  {
  }

  // ---------------------------------------------------------------------------
  // sep.join(parts)

  function Join(sep: string, parts: seq<string>): string
  {
    if |parts| == 0 then ""
    else if |parts| == 1 then parts[0]
    else parts[0] + sep + Join(sep, parts[1..])
  }

  lemma JoinTwo(sep: string, a: string, b: string)
    ensures Join(sep, [a, b]) == a + sep + b
  {
  }

  /** Appending one more part adds the separator and that part at the end. */
  lemma {:induction false} JoinSnoc(sep: string, parts: seq<string>, p: string)
    ensures Join(sep, parts + [p]) == if |parts| == 0 then p else Join(sep, parts) + sep + p
  {
    if |parts| >= 2 {
      assert (parts + [p])[1..] == parts[1..] + [p];
      JoinSnoc(sep, parts[1..], p);
    } else if |parts| == 1 {
      assert (parts + [p])[1..] == [p];
    }
  }

  /** The joined text is as long as the parts plus one separator between each neighbour. */
  lemma {:induction false} JoinLength(sep: string, parts: seq<string>)
    ensures |Join(sep, parts)| == SumLengths(parts) + (if |parts| == 0 then 0 else (|parts| - 1) * |sep|)
  {
    if |parts| >= 2 {
      JoinLength(sep, parts[1..]);
    }
  }

  function SumLengths(parts: seq<string>): nat
  {
    if |parts| == 0 then 0 else |parts[0]| + SumLengths(parts[1..])
  }

  // ---------------------------------------------------------------------------
  // s.split(d) for a one-character separator d

  function Split(s: string, d: char): (r: seq<string>)
    ensures |r| >= 1
  {
    if |s| == 0 then [""]
    else
      var rest := Split(s[1..], d);
      if s[0] == d then [""] + rest else [[s[0]] + rest[0]] + rest[1..]
  }

  function Count(s: string, d: char): nat
  {
    if |s| == 0 then 0 else (if s[0] == d then 1 else 0) + Count(s[1..], d)
  }

  /** Splitting yields one more piece than there are separators. */
  lemma {:induction false} SplitCount(s: string, d: char)
    ensures |Split(s, d)| == Count(s, d) + 1
  {
    if |s| > 0 {
      SplitCount(s[1..], d);
    }
  }

  /** No piece contains the separator. */
  lemma {:induction false} SplitPiecesFree(s: string, d: char)
    ensures forall k :: 0 <= k < |Split(s, d)| ==> d !in Split(s, d)[k]
  {
    if |s| > 0 {
      SplitPiecesFree(s[1..], d);
      var rest := Split(s[1..], d);
      if s[0] != d {
        assert d !in rest[0];
        assert d !in [s[0]] + rest[0];
      }
    }
  }

  /** Text without the separator is one piece. */
  lemma SplitFree(w: string, d: char)
    requires d !in w
    ensures Split(w, d) == [w]
  {
    SplitFreePrefix(w, "", d);
    assert w + "" == w;
  }

  /** Splitting text that starts with a character: a new piece, or that character put in front of the first piece. */
  lemma SplitCons(c: char, t: string, d: char)
    ensures Split([c] + t, d) ==
      if c == d then [""] + Split(t, d) else [[c] + Split(t, d)[0]] + Split(t, d)[1..]
  {
    assert ([c] + t)[0] == c;
    assert ([c] + t)[1..] == t;
  }

  /** Putting a character in front of the first piece commutes with appending more pieces. */
  lemma PrependFirst(c: char, a: seq<string>, b: seq<string>)
    requires |a| >= 1
    ensures [[c] + (a + b)[0]] + (a + b)[1..] == ([[c] + a[0]] + a[1..]) + b
  {
    assert (a + b)[1..] == a[1..] + b;
  }

  /** Splitting at a separator: the pieces before it, then the pieces after it. */
  lemma {:induction false} SplitAtSeparator(p: string, q: string, d: char)
    ensures Split(p + [d] + q, d) == Split(p, d) + Split(q, d)
  {
    if |p| == 0 {
      assert p + [d] + q == [d] + q;
      SplitCons(d, q, d);
    } else {
      var t := p[1..] + [d] + q;
      assert p + [d] + q == [p[0]] + t;
      assert p == [p[0]] + p[1..];
      SplitAtSeparator(p[1..], q, d);
      SplitCons(p[0], t, d);
      SplitCons(p[0], p[1..], d);
      if p[0] != d {
        PrependFirst(p[0], Split(p[1..], d), Split(q, d));
      } else {
        assert [""] + (Split(p[1..], d) + Split(q, d)) == ([""] + Split(p[1..], d)) + Split(q, d);
      }
    }
  }

  /** Joining the pieces with the separator gives back the text that was split. */
  lemma {:induction false} SplitJoin(s: string, d: char)
    ensures Join([d], Split(s, d)) == s
  {
    if |s| > 0 {
      SplitJoin(s[1..], d);
      var rest := Split(s[1..], d);
      if s[0] == d {
        assert s == [d] + s[1..];
      } else {
        JoinConsChar(s[0], rest, [d]);
        assert s == [s[0]] + s[1..];
      }
    }
  }

  lemma JoinConsChar(c: char, ps: seq<string>, sep: string)
    requires |ps| >= 1
    ensures Join(sep, [[c] + ps[0]] + ps[1..]) == [c] + Join(sep, ps)
  {
    var qs := [[c] + ps[0]] + ps[1..];
    if |ps| >= 2 {
      assert qs[1..] == ps[1..];
    }
  }

  /** Splitting text that starts with a separator-free piece: that piece opens the first part. */
  lemma {:induction false} SplitFreePrefix(x: string, rest: string, d: char)
    requires d !in x
    ensures Split(x + rest, d) == [x + Split(rest, d)[0]] + Split(rest, d)[1..]
  {
    if |x| == 0 {
      assert x + rest == rest;
      assert x + Split(rest, d)[0] == Split(rest, d)[0];
    } else {
      assert (x + rest)[1..] == x[1..] + rest;
      assert d !in x[1..] by { assert forall k :: 0 <= k < |x[1..]| ==> x[1..][k] == x[k + 1]; }
      SplitFreePrefix(x[1..], rest, d);
      var tail := Split(rest, d);
      var inner := Split(x[1..] + rest, d);
      assert inner[0] == x[1..] + tail[0] && inner[1..] == tail[1..];
      assert (x + rest)[0] == x[0] && x[0] != d;
      assert Split(x + rest, d) == [[x[0]] + inner[0]] + inner[1..];
      assert [x[0]] + (x[1..] + tail[0]) == x + tail[0];
    }
  }

  /** Splitting the joined pieces, none of which holds the separator, gives the pieces back. */
  lemma {:induction false} SplitOfJoin(d: char, parts: seq<string>)
    requires |parts| >= 1
    requires forall k :: 0 <= k < |parts| ==> d !in parts[k]
    ensures Split(Join([d], parts), d) == parts
  {
    if |parts| == 1 {
      SplitFreePrefix(parts[0], "", d);
      assert parts[0] + "" == parts[0];
    } else {
      var rest := Join([d], parts[1..]);
      SplitOfJoin(d, parts[1..]);
      assert Join([d], parts) == parts[0] + ([d] + rest);
      SplitFreePrefix(parts[0], [d] + rest, d);
      assert ([d] + rest)[0] == d && ([d] + rest)[1..] == rest;
      assert Split([d] + rest, d) == [""] + parts[1..];
      assert parts[0] + "" == parts[0];
      assert parts == [parts[0]] + parts[1..];
    }
  }

  // ---------------------------------------------------------------------------
  // s.strip()

  /** Leading whitespace removed. */
  function TrimStart(s: string): (r: string)
    ensures |r| <= |s|
  {
    if |s| > 0 && IsSpace(s[0]) then TrimStart(s[1..]) else s
  }

  /** Trailing whitespace removed. */
  function TrimEnd(s: string): (r: string)
    ensures |r| <= |s|
  {
    if |s| > 0 && IsSpace(s[|s| - 1]) then TrimEnd(s[..|s| - 1]) else s
  }

  /** `TrimStart` keeps the longest suffix of `s` that does not start with a space. */
  lemma {:induction false} TrimStartSpec(s: string)
    ensures TrimStart(s) == s[|s| - |TrimStart(s)|..]
    ensures TrimStart(s) == "" || !IsSpace(TrimStart(s)[0])
    ensures AllSpace(s[..|s| - |TrimStart(s)|])
  {
    if |s| > 0 && IsSpace(s[0]) {
      TrimStartSpec(s[1..]);
      var r := TrimStart(s[1..]);
      assert s[..|s| - |r|] == [s[0]] + s[1..][..|s| - 1 - |r|];
    }
  }

  /** `TrimEnd` keeps the longest prefix of `s` that does not end with a space. */
  lemma {:induction false} TrimEndSpec(s: string)
    ensures TrimEnd(s) == s[..|TrimEnd(s)|]
    ensures TrimEnd(s) == "" || !IsSpace(TrimEnd(s)[|TrimEnd(s)| - 1])
    ensures AllSpace(s[|TrimEnd(s)|..])
  {
    if |s| > 0 && IsSpace(s[|s| - 1]) {
      TrimEndSpec(s[..|s| - 1]);
      var r := TrimEnd(s[..|s| - 1]);
      assert s[|r|..] == s[..|s| - 1][|r|..] + [s[|s| - 1]];
    }
  }

  /** `s.strip()`: the text between the leading and the trailing whitespace. */
  function Strip(s: string): string
  {
    TrimEnd(TrimStart(s))
  }

  /** `s.strip()` is empty exactly for all-whitespace text; otherwise it neither starts nor
      ends with whitespace. */
  lemma StripBlank(s: string)
    ensures Strip(s) == "" <==> AllSpace(s)
    ensures Strip(s) != "" ==> !IsSpace(Strip(s)[0]) && !IsSpace(Strip(s)[|Strip(s)| - 1])
  {
    var t := TrimStart(s);
    var r := TrimEnd(t);
    TrimStartSpec(s);
    TrimEndSpec(t);
    if r == "" {
      assert s == s[..|s| - |t|] + t && t == t[|r|..];
    }
  }

  /** `s.strip()` is a contiguous piece of `s` with only whitespace cut off on either side. */
  lemma StripSpan(s: string) returns (i: nat)
    ensures i + |Strip(s)| <= |s| && s[i..i + |Strip(s)|] == Strip(s)
    ensures AllSpace(s[..i]) && AllSpace(s[i + |Strip(s)|..])
  {
    var t := TrimStart(s);
    var r := TrimEnd(t);
    TrimStartSpec(s);
    TrimEndSpec(t);
    i := |s| - |t|;
    assert t == s[i..];
    assert r == t[..|r|];
    assert s[i..i + |r|] == t[..|r|];
    assert AllSpace(t[|r|..]);
    assert s[i + |r|..] == t[|r|..];
  }

  /** Stripping only removes characters: what is left was all in `s`. */
  lemma StripChars(s: string, c: char)
    requires c !in s
    ensures c !in Strip(s)
  {
    var i := StripSpan(s);
    var r := Strip(s);
    forall k | 0 <= k < |r| ensures r[k] != c {
      assert r[k] == s[i + k];
    }
  }

  // ---------------------------------------------------------------------------
  // str.lower() on ASCII letters

  function LowerChar(c: char): char
  {
    if 'A' <= c <= 'Z' then (c as int - 'A' as int + 'a' as int) as char else c
  }

  function Lower(s: string): (r: string)
    ensures |r| == |s|
    ensures forall i :: 0 <= i < |s| ==> r[i] == LowerChar(s[i])
  {
    if |s| == 0 then "" else [LowerChar(s[0])] + Lower(s[1..])
  }

  /** Lower-casing twice is lower-casing once, and leaves no ASCII capital behind. */
  lemma LowerIdempotent(s: string)
    ensures Lower(Lower(s)) == Lower(s)
    ensures forall i :: 0 <= i < |s| ==> !('A' <= Lower(s)[i] <= 'Z')
  {
  }

  // ---------------------------------------------------------------------------
  // f"{n}" for a natural number

  function Digit(d: nat): (c: char)
    requires d < 10
    ensures '0' <= c <= '9'
  {
    ('0' as int + d) as char
  }

  predicate IsDigits(s: string)
  {
    forall i :: 0 <= i < |s| ==> '0' <= s[i] <= '9'
  }

  /** Decimal text of `n`, without leading zeros. */
  function NatToString(n: nat): (r: string)
    ensures |r| >= 1
  {
    if n < 10 then [Digit(n)] else NatToString(n / 10) + [Digit(n % 10)]
  }

  /** The decimal text is made of digits only, and starts with `0` only for zero. */
  lemma {:induction false} NatToStringDigits(n: nat)
    ensures IsDigits(NatToString(n))
    ensures NatToString(n)[0] == '0' ==> n == 0
  {
    if n >= 10 {
      NatToStringDigits(n / 10);
      assert NatToString(n)[0] == NatToString(n / 10)[0];
    }
  }

  /** The value of a run of decimal digits. */
  function DigitsValue(s: string): nat
    requires IsDigits(s)
  {
    if |s| == 0 then 0 else DigitsValue(s[..|s| - 1]) * 10 + (s[|s| - 1] as int - '0' as int)
  }

  /** The number of leading decimal digits of `s`. */
  function DigitRun(s: string): (n: nat)
    ensures n <= |s| && IsDigits(s[..n]) && (n < |s| ==> !('0' <= s[n] <= '9'))
  {
    if |s| == 0 || !('0' <= s[0] <= '9') then 0
    else
      var k := DigitRun(s[1..]);
      assert s[..k + 1] == [s[0]] + s[1..][..k];
      k + 1
  }

  /** A run of digits followed by a non-digit is read up to that non-digit. */
  lemma {:induction false} DigitRunOf(digits: string, rest: string)
    requires IsDigits(digits) && (|rest| > 0 ==> !('0' <= rest[0] <= '9'))
    ensures DigitRun(digits + rest) == |digits|
  {
    if |digits| > 0 {
      assert (digits + rest)[1..] == digits[1..] + rest;
      DigitRunOf(digits[1..], rest);
    } else {
      assert digits + rest == rest;
    }
  }

  /** Reading the decimal text back gives the number: the formatting loses nothing. */
  lemma {:induction false} NatToStringRoundTrip(n: nat)
    ensures IsDigits(NatToString(n)) && DigitsValue(NatToString(n)) == n
  {
    NatToStringDigits(n);
    if n >= 10 {
      NatToStringRoundTrip(n / 10);
      var s := NatToString(n);
      assert s[..|s| - 1] == NatToString(n / 10);
    }
  }

  lemma NatToStringInjective(a: nat, b: nat)
    requires NatToString(a) == NatToString(b)
    ensures a == b
  {
    NatToStringRoundTrip(a);
    NatToStringRoundTrip(b);
  }

  /** A number written after a fixed prefix and before a non-digit is read back unambiguously. */
  lemma NumberAfterPrefix(p: string, a: nat, b: nat, x: string, y: string)
    requires p + (NatToString(a) + x) == p + (NatToString(b) + y)
    requires |x| > 0 && |y| > 0 && !('0' <= x[0] <= '9') && !('0' <= y[0] <= '9')
    ensures a == b
  {
    var s, t := NatToString(a), NatToString(b);
    NatToStringDigits(a);
    NatToStringDigits(b);
    ConcatSplit(p, s + x);
    ConcatSplit(p, t + y);
    assert s + x == t + y;
    DigitRunOf(s, x);
    DigitRunOf(t, y);
    ConcatSplit(s, x);
    ConcatSplit(t, y);
    NatToStringInjective(a, b);
  }
}
