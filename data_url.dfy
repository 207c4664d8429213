/** `data:` URLs in the base64 form of RFC 2397: `data:<mime>;base64,<payload>`. */
module DataUrl {
  import opened Wrappers
  import opened Base64
  import Text

  const Scheme := "data:"
  const Base64Marker := ";base64,"

  function DataUri(mime: string, payload: string): string
  {
    Scheme + mime + Base64Marker + payload
  }

  /** The first position of `c` in `s`, if any. */
  function IndexOfChar(s: string, c: char): (r: Option<nat>)
    ensures r.Some? ==> r.value < |s| && s[r.value] == c && c !in s[..r.value]
    ensures r.None? ==> c !in s
  {
    if |s| == 0 then None
    else if s[0] == c then Some(0)
    else match IndexOfChar(s[1..], c)
      case None => None
      case Some(k) => assert s[..k + 1] == [s[0]] + s[1..][..k]; Some(k + 1)
  }

  /** The first occurrence is found wherever it is. */
  lemma {:induction false} IndexOfCharAt(s: string, c: char, j: nat)
    requires j < |s| && s[j] == c && c !in s[..j]
    ensures IndexOfChar(s, c) == Some(j)
  {
    if j > 0 {
      assert s[0] == s[..j][0];
      assert s[1..][..j - 1] == s[..j][1..];
      IndexOfCharAt(s[1..], c, j - 1);
    }
  }

  /** Reads a base64 `data:` URL back into its media type and the bytes it carries. */
  function Parse(uri: string): Option<(string, seq<byte>)>
  {
    if !(Scheme <= uri) then None
    else
      var rest := uri[|Scheme|..];
      match IndexOfChar(rest, ';')
      case None => None
      case Some(k) =>
        var tail := rest[k..];
        if !(Base64Marker <= tail) then None
        else
          match Decode(tail[|Base64Marker|..])
          case None => None
          case Some(data) => Some((rest[..k], data))
  }

  /** A data URL built from a media type without `;` and the base64 of some bytes
      reads back as exactly that media type and those bytes. */
  lemma ParseDataUri(mime: string, data: seq<byte>)
    requires ';' !in mime
    ensures Parse(DataUri(mime, Encode(data))) == Some((mime, data))
  {
    var payload := Encode(data);
    var rest := mime + Base64Marker + payload;
    var tail := Base64Marker + payload;
    Text.ConcatAssoc(Scheme, mime, Base64Marker, payload);
    Text.ConcatSplit(Scheme, rest);
    Text.ConcatAssoc3(mime, Base64Marker, payload);
    Text.ConcatSplit(mime, tail);
    Text.ConcatSplit(Base64Marker, payload);
    assert rest[|mime|] == tail[0] == ';';
    IndexOfCharAt(rest, ';', |mime|);
    DecodeEncode(data);
  }
}
