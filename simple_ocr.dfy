/** The `SimpleOCR` extraction client: file encoding, the `/v1/ocr` request, the status check,
    and the normalisation of the paginated JSON reply into one markdown text. */
module SimpleOcr {
  import opened Wrappers
  import opened Text
  import opened Base64
  import DataUrl
  import MistralChat

  const MissingConfigMessage := "Missing MISTRAL_OCR_ENDPOINT or MISTRAL_OCR_KEY in environment variables"

  /** A configured client. Its fields are set once, when it is built, and never change. */
  datatype Client = Client(endpoint: string, apiKey: string, modelName: string)

  /** `SimpleOCR()`: the three environment values (None when unset). */
  function New(endpointVar: Option<string>, keyVar: Option<string>, modelVar: Option<string>): (r: Outcome<Client>)
    ensures r.Success? <==> Present(endpointVar) && Present(keyVar)
    ensures r.Failure? ==> r.error == Exception(ValueError, MissingConfigMessage)
    ensures r.Success? ==> r.value.endpoint == endpointVar.value && r.value.apiKey == keyVar.value
    ensures r.Success? && modelVar.None? ==> r.value.modelName == MistralChat.DefaultModelName
    ensures r.Success? && modelVar.Some? ==> r.value.modelName == modelVar.value
  {
    if !Present(endpointVar) || !Present(keyVar) then Failure(Exception(ValueError, MissingConfigMessage))
    else Success(Client(endpointVar.value, keyVar.value, if modelVar.Some? then modelVar.value else MistralChat.DefaultModelName))
  }

  // ---------------------------------------------------------------------------
  // Path(file_path).suffix.lower()

  /** The components of a POSIX path as `PurePosixPath` keeps them: empty and `.` parts dropped. */
  function Components(parts: seq<string>): (r: seq<string>)
    ensures forall k :: 0 <= k < |r| ==> r[k] != "" && r[k] != "." && r[k] in parts
  {
    if |parts| == 0 then []
    else (if parts[0] == "" || parts[0] == "." then [] else [parts[0]]) + Components(parts[1..])
  }

  /** Filtering distributes over concatenation, so `Components` keeps every part that is neither
      empty nor `.`, in order. */
  lemma {:induction false} ComponentsAppend(a: seq<string>, b: seq<string>)
    ensures Components(a + b) == Components(a) + Components(b)
  {
    if |a| == 0 {
      assert a + b == b;
    } else {
      assert (a + b)[0] == a[0];
      assert (a + b)[1..] == a[1..] + b;
      ComponentsAppend(a[1..], b);
    }
  }

  /** A single part is kept exactly when it is neither empty nor `.`. */
  lemma ComponentsSingle(p: string)
    ensures Components([p]) == if p == "" || p == "." then [] else [p]
  {
    assert [p][1..] == [];
  }

  /** `Path(p).name`: the last component, or "" when there is none. */
  function Name(path: string): string
  {
    var comps := Components(Split(path, '/'));
    if |comps| == 0 then "" else comps[|comps| - 1]
  }

  /** The last position of `c` in `s`, if any. */
  function LastIndexOf(s: string, c: char): (r: Option<nat>)
    ensures r.Some? ==> r.value < |s| && s[r.value] == c && c !in s[r.value + 1..]
    ensures r.None? ==> c !in s
  {
    if |s| == 0 then None
    else if s[|s| - 1] == c then Some(|s| - 1)
    else
      match LastIndexOf(s[..|s| - 1], c)
      case None => None
      case Some(k) => assert s[k + 1..] == s[..|s| - 1][k + 1..] + [s[|s| - 1]]; Some(k)
  }

  /** `PurePath.suffix` of a name: from its last dot to the end, provided that dot is neither the
      first nor the last character; "" otherwise. */
  function Suffix(name: string): (r: string)
    ensures r != "" ==> 2 <= |r| < |name| && name[|name| - |r|..] == r && r[0] == '.' && '.' !in r[1..]
    ensures LastIndexOf(name, '.').Some? && 0 < LastIndexOf(name, '.').value < |name| - 1 ==>
              r == name[LastIndexOf(name, '.').value..]
    ensures LastIndexOf(name, '.').None? || LastIndexOf(name, '.').value == 0 ==> r == ""
  {
    match LastIndexOf(name, '.')
    case None => ""
    case Some(i) =>
      if 0 < i < |name| - 1 then (assert name[i..][1..] == name[i + 1..]; name[i..]) else ""
  }

  /** The lower-cased extension the client dispatches on. */
  function Extension(path: string): string
  {
    Lower(Suffix(Name(path)))
  }

  /** The last occurrence is found wherever it is. */
  lemma {:induction false} LastIndexOfAt(s: string, c: char, j: nat)
    requires j < |s| && s[j] == c && c !in s[j + 1..]
    ensures LastIndexOf(s, c) == Some(j)
  {
    var n := |s| - 1;
    if j < n {
      assert s[n] == s[j + 1..][n - j - 1];
      assert s[..n][j + 1..] == s[j + 1..][..n - j - 1];
      LastIndexOfAt(s[..n], c, j);
    }
  }

  /** The name of a path is its last component, whatever directory comes before it. */
  lemma NameAfterDirectory(dir: string, w: string)
    requires dir == "" || dir[|dir| - 1] == '/'
    requires w != "" && w != "." && '/' !in w
    ensures Name(dir + w) == w
  {
    SplitFree(w, '/');
    ComponentsSingle(w);
    if dir == "" {
      assert dir + w == w;
    } else {
      var p := dir[..|dir| - 1];
      assert dir + w == p + ['/'] + w;
      SplitAtSeparator(p, w, '/');
      ComponentsAppend(Split(p, '/'), [w]);
    }
  }

  /** The suffix of `stem.ext` is `.ext` when the stem is not empty and `ext` has no dot. */
  lemma SuffixAfterStem(stem: string, ext: string)
    requires stem != "" && ext != "" && '.' !in ext
    ensures Suffix(stem + "." + ext) == "." + ext
  {
    var w := stem + "." + ext;
    assert w[|stem|] == '.';
    assert w[|stem| + 1..] == ext;
    LastIndexOfAt(w, '.', |stem|);
    assert w[|stem|..] == "." + ext;
  }

  /** A file named `stem.ext` in any directory has the extension `.ext`, lower-cased: the part
      after the last dot of the last path component. */
  lemma ExtensionOf(dir: string, stem: string, ext: string)
    requires dir == "" || dir[|dir| - 1] == '/'
    requires stem != "" && '/' !in stem
    requires ext != "" && '/' !in ext && '.' !in ext
    ensures Extension(dir + stem + "." + ext) == Lower("." + ext)
  {
    var w := stem + "." + ext;
    assert dir + stem + "." + ext == dir + w;
    assert '/' !in w by {
      forall k | 0 <= k < |w| ensures w[k] != '/' {
        if k < |stem| {
          assert w[k] == stem[k];
        } else if k > |stem| {
          assert w[k] == ext[k - |stem| - 1];
        }
      }
    }
    assert |w| > 1;
    NameAfterDirectory(dir, w);
    SuffixAfterStem(stem, ext);
  }

  lemma LowerPdf()
    ensures Lower(".PDF") == ".pdf"
  {
    var r := Lower(".PDF");
    assert r[0] == '.' && r[1] == 'p' && r[2] == 'd' && r[3] == 'f';
  }

  /** An upper-case `.PDF` in a sub-directory is still sent as a PDF. */
  lemma UpperCasePdf()
    ensures Extension("scans/Invoice.PDF") == ".pdf"
    ensures MimeType(Extension("scans/Invoice.PDF")) == "application/pdf"
    ensures DocumentKind(Extension("scans/Invoice.PDF")) == DocumentUrlKind
  {
    var path := "scans/Invoice.PDF";
    assert path == "scans/" + "Invoice" + "." + "PDF";
    ExtensionOf("scans/", "Invoice", "PDF");
    LowerPdf();
  }

  // ---------------------------------------------------------------------------
  // encode_file

  /** The MIME type chosen for an extension; unknown extensions fall back to `image/png`. */
  function MimeType(ext: string): (m: string)
    ensures m in {"application/pdf", "image/png", "image/jpeg"}
    ensures ';' !in m
  {
    if ext == ".pdf" then "application/pdf"
    else if ext in [".png", ".jpg", ".jpeg"] then (if ext == ".png" then "image/png" else "image/jpeg")
    else "image/png"
  }

  /** Which extension selects which MIME type. */
  lemma MimeTypeTable(ext: string)
    ensures MimeType(ext) == "application/pdf" <==> ext == ".pdf"
    ensures MimeType(ext) == "image/jpeg" <==> ext == ".jpg" || ext == ".jpeg"
    ensures MimeType(ext) == "image/png" <==> ext != ".pdf" && ext != ".jpg" && ext != ".jpeg"
  {
  }

  /** `encode_file`: the file's bytes as a base64 data URL typed by the file's extension. */
  function EncodeFile(path: string, data: seq<byte>): string
  {
    DataUrl.DataUri(MimeType(Extension(path)), Encode(data))
  }

  /** The data URL reads back as the extension's MIME type and exactly the file's bytes. */
  lemma EncodeFileRoundTrip(path: string, data: seq<byte>)
    ensures DataUrl.Parse(EncodeFile(path, data)) == Some((MimeType(Extension(path)), data))
  {
    DataUrl.ParseDataUri(MimeType(Extension(path)), data);
  }

  // ---------------------------------------------------------------------------
  // process_file: the request

  const DocumentUrlKind := "document_url"
  const ImageUrlKind := "image_url"
  const TimeoutSeconds := 60

  /** The JSON body: `{"model": ..., "document": {"type": kind, kind: data URL}}`. */
  datatype Payload = Payload(model: string, document: map<string, string>)

  datatype Request = Request(url: string, headers: map<string, string>, payload: Payload, timeoutSeconds: nat)

  function DocumentKind(ext: string): (k: string)
    ensures k == DocumentUrlKind <==> ext == ".pdf"
    ensures k == ImageUrlKind <==> ext != ".pdf"
  {
    if ext == ".pdf" then DocumentUrlKind else ImageUrlKind
  }

  function BuildRequest(client: Client, path: string, data: seq<byte>): (r: Request)
    ensures r.url == client.endpoint + "/v1/ocr"
    ensures r.headers == map["Authorization" := "Bearer " + client.apiKey, "Content-Type" := "application/json"]
    ensures r.payload.model == client.modelName
    ensures "type" in r.payload.document && r.payload.document["type"] in r.payload.document
    ensures r.payload.document[r.payload.document["type"]] == EncodeFile(path, data)
    ensures r.payload.document["type"] == DocumentUrlKind <==> Extension(path) == ".pdf"
    ensures r.payload.document.Keys == {"type", DocumentKind(Extension(path))}
    ensures r.timeoutSeconds == TimeoutSeconds
  {
    var kind := DocumentKind(Extension(path));
    var document := map["type" := kind, kind := EncodeFile(path, data)];
    Request(client.endpoint + "/v1/ocr",
            map["Authorization" := "Bearer " + client.apiKey, "Content-Type" := "application/json"],
            Payload(client.modelName, document),
            TimeoutSeconds)
  }

  // ---------------------------------------------------------------------------
  // process_file: the reply

  /** A decoded JSON value. `json` decodes a number to an `int` when it has no fraction or
      exponent and to a `float` otherwise; the client only ever asks for their type. */
  datatype Json =
    | Null
    | Bool(b: bool)
    | Int(i: int)
    | Float(x: real)
    | Str(s: string)
    | Array(items: seq<Json>)
    | Object(fields: map<string, Json>)

  /** What came back: the status, the body text, and `response.json()` (the value, or the
      decoding error it raises). */
  datatype HttpReply = HttpReply(status: nat, text: string, body: Outcome<Json>)

  /** `requests.post`: the reply, or the transport exception it raises. */
  type Post = Request -> Outcome<HttpReply>

  const RequestFailedPrefix := "OCR request failed: "

  function RequestFailedMessage(status: nat, text: string): string
  {
    RequestFailedPrefix + NatToString(status) + " - " + text
  }

  /** Reads a failure message back into the status code and the body text it reports. */
  function ParseRequestFailed(msg: string): Option<(nat, string)>
  {
    if !(RequestFailedPrefix <= msg) then None
    else ParseStatusAndText(msg[|RequestFailedPrefix|..])
  }

  function ParseStatusAndText(rest: string): Option<(nat, string)>
  {
    var n := DigitRun(rest);
    if n == 0 || !(" - " <= rest[n..]) then None
    else Some((DigitsValue(rest[..n]), rest[n + 3..]))
  }

  /** The failure message carries the status code and the body text verbatim. */
  lemma RequestFailedRoundTrip(status: nat, text: string)
    ensures ParseRequestFailed(RequestFailedMessage(status, text)) == Some((status, text))
  {
    var digits := NatToString(status);
    var rest := digits + " - " + text;
    var msg := RequestFailedMessage(status, text);
    assert msg == RequestFailedPrefix + rest;
    assert msg[|RequestFailedPrefix|..] == rest;
    StatusAndTextRoundTrip(status, text);
  }

  lemma StatusAndTextRoundTrip(status: nat, text: string)
    ensures ParseStatusAndText(NatToString(status) + " - " + text) == Some((status, text))
  {
    var digits := NatToString(status);
    NatToStringRoundTrip(status);
    var rest := digits + (" - " + text);
    assert rest == digits + " - " + text;
    DigitRunOf(digits, " - " + text);
    assert rest[..|digits|] == digits;
    assert rest[|digits|..] == " - " + text;
    assert rest[|digits| + 3..] == text;
  }

  /** `process_file`: read and encode the file, post the request, and accept only status 200. */
  function ProcessFile(client: Client, path: string, read: MistralChat.FileReader, post: Post): (r: Outcome<Json>)
    ensures read(path).Failure? ==> r == Failure(read(path).error)
    ensures read(path).Success? && post(BuildRequest(client, path, read(path).value)).Failure? ==>
              r == Failure(post(BuildRequest(client, path, read(path).value)).error)
    ensures read(path).Success? && post(BuildRequest(client, path, read(path).value)).Success? ==>
              var reply := post(BuildRequest(client, path, read(path).value)).value;
              && (reply.status == 200 ==> r == reply.body)
              && (reply.status != 200 ==> r == Failure(Exception(GenericError, RequestFailedMessage(reply.status, reply.text))))
  {
    match read(path)
    case Failure(e) => Failure(e)
    case Success(data) =>
      match post(BuildRequest(client, path, data))
      case Failure(e) => Failure(e)
      case Success(reply) =>
        if reply.status == 200 then reply.body
        else Failure(Exception(GenericError, RequestFailedMessage(reply.status, reply.text)))
  }

  // ---------------------------------------------------------------------------
  // extract_text: normalisation of the reply

  /** `json.dumps(result, indent=2)`: the JSON library's formatting, taken as given. */
  type Dump = Json -> string

  const PageSeparator := "\n\n"

  /** The heading put in front of page n (1-based) of a multi-page reply. */
  function Heading(n: nat): string
  {
    "\n\n## Page " + NatToString(n) + "\n\n"
  }

  /** Python's name for the type of a decoded JSON value. */
  function TypeName(j: Json): string
  {
    match j
    case Null => "NoneType"
    case Bool(_) => "bool"
    case Int(_) => "int"
    case Float(_) => "float"
    case Str(_) => "str"
    case Array(_) => "list"
    case Object(_) => "dict"
  }

  function NoAttribute(j: Json, attr: string): Exception
  {
    Exception(AttributeError, "'" + TypeName(j) + "' object has no attribute '" + attr + "'")
  }

  /** `page.get('markdown', '')` followed by `.strip()`: the page's markdown, "" when the key is
      missing, and AttributeError when the page is not an object or the markdown not a string. */
  function PageMarkdown(page: Json): (r: Outcome<string>)
    ensures r.Success? <==> page.Object? && ("markdown" in page.fields ==> page.fields["markdown"].Str?)
    ensures r.Failure? ==> r.error.kind == AttributeError
  {
    match page
    case Object(fields) =>
      if "markdown" !in fields then Success("")
      else (match fields["markdown"]
            case Str(s) => Success(s)
            case other => Failure(NoAttribute(other, "strip")))
    case _ => Failure(NoAttribute(page, "get"))
  }

  /** The markdown of every page, in order, or the error of the first page that has none. */
  function Markdowns(pages: seq<Json>): (r: Outcome<seq<string>>)
    ensures r.Success? ==> |r.value| == |pages| && forall i :: 0 <= i < |pages| ==> PageMarkdown(pages[i]) == Success(r.value[i])
    ensures r.Success? <==> forall i :: 0 <= i < |pages| ==> PageMarkdown(pages[i]).Success?
    ensures r.Failure? ==> r.error.kind == AttributeError
  {
    if |pages| == 0 then Success([])
    else
      var n := |pages| - 1;
      match Markdowns(pages[..n])
      case Failure(e) => Failure(e)
      case Success(prev) =>
        match PageMarkdown(pages[n])
        case Failure(e) => Failure(e)
        case Success(md) => Success(prev + [md])
  }

  /** The text kept for page i: its markdown, after the page heading when the reply has more than
      one page. */
  function Section(i: nat, md: string, multi: bool): string
  {
    if multi then Heading(i + 1) + md else md
  }

  /** The sections of the pages whose markdown does not strip to empty, in page order. */
  function Sections(mds: seq<string>, multi: bool): seq<string>
  {
    if |mds| == 0 then []
    else
      var n := |mds| - 1;
      Sections(mds[..n], multi) + (if Strip(mds[n]) == "" then [] else [Section(n, mds[n], multi)])
  }

  /** The original positions of the pages that are kept. */
  function KeptIndices(mds: seq<string>): seq<nat>
  {
    if |mds| == 0 then []
    else
      var n := |mds| - 1;
      KeptIndices(mds[..n]) + (if Strip(mds[n]) == "" then [] else [n])
  }

  /** Page combination as a whole: blank pages dropped, the rest in order, joined. */
  function Combined(mds: seq<string>): string
  {
    Join(PageSeparator, Sections(mds, |mds| > 1))
  }

  /** Python's `len()` on a JSON value; None where it raises TypeError. */
  function PyLen(j: Json): Option<nat>
  {
    match j
    case Str(s) => Some(|s|)
    case Array(items) => Some(|items|)
    case Object(fields) => Some(|fields|)
    case _ => None
  }

  /** The `try` block of `extract_text` on a decoded reply. KeyError, IndexError and TypeError
      become the JSON dump; an AttributeError escapes. */
  function Normalize(result: Json, dump: Dump): Outcome<string>
  {
    if !result.Object? || "pages" !in result.fields then Success(dump(result))
    else
      var pages := result.fields["pages"];
      if PyLen(pages).None? || PyLen(pages).value == 0 then Success(dump(result))
      else if !pages.Array? then Failure(NoAttribute(Str(""), "get"))
      else
        match Markdowns(pages.items)
        case Failure(e) => Failure(e)
        case Success(mds) => Success(Combined(mds))
  }

  /** `extract_text` as a whole. */
  function Extracted(client: Client, path: string, read: MistralChat.FileReader, post: Post, dump: Dump): Outcome<string>
  {
    match ProcessFile(client, path, read, post)
    case Failure(e) => Failure(e)
    case Success(result) => Normalize(result, dump)
  }

  /** `extract_text` (simple_ocr.py:86-114) step by step: fetch the reply, then take it apart as
      the `try` block does; the function `Extracted` is what it computes. */
  method ExtractText(client: Client, path: string, read: MistralChat.FileReader, post: Post, dump: Dump)
    returns (r: Outcome<string>)
    ensures r == Extracted(client, path, read, post, dump)
  {
    var fetched := ProcessFile(client, path, read, post);
    if fetched.Failure? {
      return Failure(fetched.error);
    }
    var result := fetched.value;
    if !result.Object? || "pages" !in result.fields {
      return Success(dump(result));
    }
    var pages := result.fields["pages"];
    var count := PyLen(pages);
    if count.None? || count.value == 0 {
      return Success(dump(result));
    }
    if !pages.Array? {
      // iterating a string or an object yields strings, which have no `get`
      return Failure(NoAttribute(Str(""), "get"));
    }
    r := CombinePages(pages.items);
  }

  /** The `for` loop of simple_ocr.py:94-106 over a non-empty page list: collect the kept
      sections, then join them; the function `Combined` states the text it builds. */
  method CombinePages(items: seq<Json>) returns (r: Outcome<string>)
    ensures Markdowns(items).Failure? ==> r == Failure(Markdowns(items).error)
    ensures Markdowns(items).Success? ==> r == Success(Combined(Markdowns(items).value))
  {
    var allMarkdown: seq<string> := [];
    ghost var mds: seq<string> := [];
    var i := 0;
    while i < |items|
      invariant 0 <= i <= |items|
      invariant Markdowns(items[..i]) == Success(mds)
      invariant allMarkdown == Sections(mds, |items| > 1)
    {
      var markdown := PageMarkdown(items[i]);
      if markdown.Failure? {
        MarkdownsFirstFailure(items, i);
        return Failure(markdown.error);
      }
      var content := markdown.value;
      if Strip(content) != "" {
        if |items| > 1 {
          allMarkdown := allMarkdown + [Heading(i + 1) + content];
        } else {
          allMarkdown := allMarkdown + [content];
        }
      }
      MarkdownsSnoc(items, i, mds, content);
      SectionsSnoc(mds, content, |items| > 1);
      mds := mds + [content];
      i := i + 1;
    }
    assert items[..i] == items;
    assert |mds| == |items|;
    r := Success(Join(PageSeparator, allMarkdown));
  }

  lemma MarkdownsSnoc(pages: seq<Json>, i: nat, mds: seq<string>, md: string)
    requires i < |pages| && Markdowns(pages[..i]) == Success(mds) && PageMarkdown(pages[i]) == Success(md)
    ensures Markdowns(pages[..i + 1]) == Success(mds + [md])
  {
    assert pages[..i + 1][..i] == pages[..i];
  }

  lemma SectionsSnoc(mds: seq<string>, md: string, multi: bool)
    ensures Sections(mds + [md], multi) == Sections(mds, multi) + (if Strip(md) == "" then [] else [Section(|mds|, md, multi)])
  {
    assert (mds + [md])[..|mds|] == mds;
  }

  /** The error reported is the one of the first page without markdown. */
  lemma {:induction false} MarkdownsFirstFailure(pages: seq<Json>, i: nat)
    requires i < |pages| && Markdowns(pages[..i]).Success? && PageMarkdown(pages[i]).Failure?
    ensures Markdowns(pages) == Failure(PageMarkdown(pages[i]).error)
  {
    var n := |pages| - 1;
    if i == n {
      assert pages[..n] == pages[..i];
    } else {
      assert pages[..n][..i] == pages[..i];
      MarkdownsFirstFailure(pages[..n], i);
    }
  }

  // ---------------------------------------------------------------------------
  // Properties of the page combination

  /** Each kept page yields the section for its original position, and nothing else is kept. */
  lemma {:induction false} SectionsAtKeptIndices(mds: seq<string>, multi: bool)
    ensures |Sections(mds, multi)| == |KeptIndices(mds)|
    ensures forall k :: 0 <= k < |KeptIndices(mds)| ==> KeptIndices(mds)[k] < |mds|
    ensures forall k :: 0 <= k < |KeptIndices(mds)| ==>
              Sections(mds, multi)[k] == Section(KeptIndices(mds)[k], mds[KeptIndices(mds)[k]], multi)
  {
    if |mds| > 0 {
      var n := |mds| - 1;
      var pre := mds[..n];
      SectionsAtKeptIndices(pre, multi);
      var secs, ks := Sections(pre, multi), KeptIndices(pre);
      if Strip(mds[n]) == "" {
        assert Sections(mds, multi) == secs && KeptIndices(mds) == ks;
      } else {
        assert Sections(mds, multi) == secs + [Section(n, mds[n], multi)];
        assert KeptIndices(mds) == ks + [n];
      }
      forall k | 0 <= k < |ks|
        ensures Sections(mds, multi)[k] == Section(ks[k], mds[ks[k]], multi)
      {
        assert mds[ks[k]] == pre[ks[k]];
      }
    }
  }

  /** The kept pages appear in their original order. */
  lemma {:induction false} KeptIndicesIncreasing(mds: seq<string>)
    ensures forall k :: 0 <= k < |KeptIndices(mds)| ==> KeptIndices(mds)[k] < |mds|
    ensures forall k, l :: 0 <= k < l < |KeptIndices(mds)| ==> KeptIndices(mds)[k] < KeptIndices(mds)[l]
  {
    if |mds| > 0 {
      var n := |mds| - 1;
      KeptIndicesIncreasing(mds[..n]);
      var ks := KeptIndices(mds[..n]);
      if Strip(mds[n]) == "" {
        assert KeptIndices(mds) == ks;
      } else {
        assert KeptIndices(mds) == ks + [n];
      }
    }
  }

  /** A page is kept exactly when its markdown does not strip to empty. */
  lemma {:induction false} KeptIndicesNonBlank(mds: seq<string>)
    ensures forall i :: 0 <= i < |mds| ==> (i in KeptIndices(mds) <==> Strip(mds[i]) != "")
  {
    if |mds| > 0 {
      var n := |mds| - 1;
      var pre := mds[..n];
      KeptIndicesNonBlank(pre);
      KeptIndicesIncreasing(pre);
      var ks := KeptIndices(pre);
      var kept := Strip(mds[n]) != "";
      assert KeptIndices(mds) == if kept then ks + [n] else ks;
      assert n !in ks;
      forall i | 0 <= i < |mds|
        ensures i in KeptIndices(mds) <==> Strip(mds[i]) != ""
      {
        if i < n {
          assert mds[i] == pre[i];
          assert i in KeptIndices(mds) <==> i in ks;
        }
      }
    }
  }

  /** A reply with a single page gives back that page's markdown verbatim: no heading, no
      stripping; or "" when it is blank. */
  lemma SinglePageVerbatim(md: string)
    ensures Combined([md]) == if Strip(md) == "" then "" else md
  {
    assert [md][..0] == [];
    assert Sections([md], false) == if Strip(md) == "" then [] else [md];
  }

  /** When every page is blank the result is "", not the JSON dump. */
  lemma {:induction false} AllBlankGivesEmpty(mds: seq<string>, multi: bool)
    requires forall i :: 0 <= i < |mds| ==> Strip(mds[i]) == ""
    ensures Sections(mds, multi) == []
  {
    if |mds| > 0 {
      AllBlankGivesEmpty(mds[..|mds| - 1], multi);
    }
  }

  /** With more than one page, every kept section starts with its page heading, so the output
      (when not empty) starts with two newlines and neighbouring pages are four newlines apart. */
  lemma MultiPageHeadings(mds: seq<string>)
    requires |mds| > 1
    ensures forall k :: 0 <= k < |Sections(mds, true)| && k < |KeptIndices(mds)| ==>
              Heading(KeptIndices(mds)[k] + 1) <= Sections(mds, true)[k]
    ensures Sections(mds, true) != [] ==> "\n\n## Page " <= Combined(mds)
  {
    SectionsAtKeptIndices(mds, true);
    var secs := Sections(mds, true);
    if secs != [] {
      var h := Heading(KeptIndices(mds)[0] + 1);
      assert h <= secs[0];
      assert "\n\n## Page " <= h;
      if |secs| == 1 {
        assert Combined(mds) == secs[0];
      } else {
        assert Combined(mds) == secs[0] + PageSeparator + Join(PageSeparator, secs[1..]);
      }
    }
  }

  /** Every way the reply can lack a usable page list gives the JSON dump of the whole reply. */
  lemma NormalizeFallback(result: Json, dump: Dump)
    requires || !result.Object?
             || "pages" !in result.fields
             || PyLen(result.fields["pages"]).None?
             || PyLen(result.fields["pages"]) == Some(0)
    ensures Normalize(result, dump) == Success(dump(result))
  {
  }

  /** Only an AttributeError can escape the normalisation; KeyError, IndexError and TypeError
      are all turned into the dump. */
  lemma NormalizeRaisesOnlyAttributeError(result: Json, dump: Dump)
    ensures Normalize(result, dump).Failure? ==> Normalize(result, dump).error.kind == AttributeError
  {
  }

  /** A well-formed non-empty page list is combined, never dumped. */
  lemma NormalizeWellFormed(result: Json, dump: Dump, pages: seq<Json>)
    requires result.Object? && "pages" in result.fields && result.fields["pages"] == Array(pages)
    requires |pages| > 0
    requires forall i :: 0 <= i < |pages| ==> PageMarkdown(pages[i]).Success?
    ensures Markdowns(pages).Success?
    ensures Normalize(result, dump) == Success(Combined(Markdowns(pages).value))
  {
    assert PyLen(result.fields["pages"]) == Some(|pages|);
    assert Markdowns(pages).Success?;
  }

  /** A page that is a JSON float raises AttributeError for `get`, naming the type `float`. */
  lemma FloatPageRaises(x: real, dump: Dump)
    ensures Normalize(Object(map["pages" := Array([Float(x)])]), dump) == Failure(NoAttribute(Float(x), "get"))
    ensures TypeName(Float(x)) == "float"
  {
    var pages := [Float(x)];
    assert pages[..0] == [];
    assert Markdowns(pages) == Failure(NoAttribute(Float(x), "get"));
    assert PyLen(Array(pages)) == Some(1);
  }

  lemma SectionsOfTwoPages(a: string, b: string)
    requires Strip(a) != "" && Strip(b) != ""
    ensures Sections([a, b], true) == [Heading(1) + a, Heading(2) + b]
  {
    SectionsSnoc([], a, true);
    assert [] + [a] == [a];
    SectionsSnoc([a], b, true);
    assert [a] + [b] == [a, b];
  }

  lemma SectionsOfBlankPage(a: string)
    requires Strip(a) == ""
    ensures Sections([a], true) == []
  {
    SectionsSnoc([], a, true);
    assert [] + [a] == [a];
  }

  lemma SectionsOfBlankThenPage(a: string, b: string)
    requires Strip(a) == "" && Strip(b) != ""
    ensures Sections([a, b], true) == [Heading(2) + b]
  {
    SectionsOfBlankPage(a);
    SectionsSnoc([a], b, true);
    assert [a] + [b] == [a, b];
  }

  /** Two non-blank pages: each after its heading, with the page separator between them. */
  lemma TwoPages(a: string, b: string)
    requires Strip(a) != "" && Strip(b) != ""
    ensures Combined([a, b]) == Heading(1) + a + PageSeparator + Heading(2) + b
    ensures Combined([a, b]) == "\n\n## Page 1\n\n" + a + "\n\n" + "\n\n## Page 2\n\n" + b
  {
    SectionsOfTwoPages(a, b);
    JoinTwo(PageSeparator, Heading(1) + a, Heading(2) + b);
    FirstHeadings();
  }

  /** A blank first page and a non-blank second: only the second, under its own number. */
  lemma BlankThenPage(a: string, b: string)
    requires Strip(a) == "" && Strip(b) != ""
    ensures Combined([a, b]) == Heading(2) + b
    ensures Combined([a, b]) == "\n\n## Page 2\n\n" + b
  {
    SectionsOfBlankThenPage(a, b);
    FirstHeadings();
  }

  lemma FirstHeadings()
    ensures Heading(1) == "\n\n## Page 1\n\n" && Heading(2) == "\n\n## Page 2\n\n"
  {
    assert NatToString(1) == "1" && NatToString(2) == "2";
  }
}
