/** The Agent Framework OCR agent of agent/ocr_agent.py: the `MistralOCRTool` (system prompt,
    single- and multi-image extraction) and the `DocumentOCRAgent` that creates its chat agent
    lazily and forwards messages to it. */
module OcrAgent {
  import opened Wrappers
  import opened Text
  import opened Base64
  import DataUrl
  import opened MistralChat

  // ---------------------------------------------------------------------------
  // The system prompt of extract_text_from_image

  const BasePrompt := "You are an expert OCR system. Convert the provided document image to detailed markdown format.\n\nInstructions:\n- Extract ALL text content accurately\n- Preserve document structure and formatting\n- Use appropriate markdown headers (# ## ###)\n- Format tables using markdown table syntax\n- Preserve lists, bullet points, and numbering\n- Include any metadata or special formatting\n- Be thorough and precise"
  // Each optional line's first word is its own literal: the letter after "\n- " is what tells
  // the lines apart when a prompt is read back.
  const TablesLine := "\n- Pay" + " special attention to tables and format them correctly in markdown"
  const FormattingLine := "\n- Maintain" + " the original document's visual hierarchy and structure"
  const AdditionalPrefix := "\n- Additional" + " instructions: "

  function TablesPart(tables: bool): string
  {
    if tables then TablesLine else ""
  }

  function FormattingPart(formatting: bool): string
  {
    if formatting then FormattingLine else ""
  }

  /** The custom instructions line, present only for non-empty instructions. */
  function CustomPart(custom: Option<string>): string
  {
    if Present(custom) then AdditionalPrefix + custom.value else ""
  }

  /** The prompt: the base text, then the tables line, the formatting line and the custom
      instructions, each only when asked for and always in this order. */
  function SystemPrompt(tables: bool, formatting: bool, custom: Option<string>): string
  {
    BasePrompt + TablesPart(tables) + FormattingPart(formatting) + CustomPart(custom)
  }

  /** The prompt as `extract_text_from_image` assembles it, one `+=` at a time. */
  method BuildSystemPrompt(tables: bool, formatting: bool, custom: Option<string>) returns (prompt: string)
    ensures prompt == SystemPrompt(tables, formatting, custom)
  {
    prompt := BasePrompt;
    if tables {
      prompt := prompt + TablesLine;
    }
    assert prompt == BasePrompt + TablesPart(tables);
    if formatting {
      prompt := prompt + FormattingLine;
    }
    assert prompt == BasePrompt + TablesPart(tables) + FormattingPart(formatting);
    if Present(custom) {
      prompt := prompt + (AdditionalPrefix + custom.value);
    }
  }

  /** Reads the options back from a prompt: which optional lines it carries, and the custom
      instructions, if any. */
  function PromptOptions(prompt: string): Option<(bool, bool, Option<string>)>
  {
    if !(BasePrompt <= prompt) then None else OptionsAfterBase(prompt[|BasePrompt|..])
  }

  function OptionsAfterBase(rest: string): Option<(bool, bool, Option<string>)>
  {
    if TablesLine <= rest then OptionsAfterTables(true, rest[|TablesLine|..]) else OptionsAfterTables(false, rest)
  }

  function OptionsAfterTables(tables: bool, rest: string): Option<(bool, bool, Option<string>)>
  {
    if FormattingLine <= rest then CustomOptions(tables, true, rest[|FormattingLine|..])
    else CustomOptions(tables, false, rest)
  }

  function CustomOptions(tables: bool, formatting: bool, rest: string): Option<(bool, bool, Option<string>)>
  {
    if rest == "" then Some((tables, formatting, None))
    else if AdditionalPrefix <= rest && |rest| > |AdditionalPrefix| then
      Some((tables, formatting, Some(rest[|AdditionalPrefix|..])))
    else None
  }

  /** The options as the prompt records them: empty custom instructions count as none. */
  function Recorded(tables: bool, formatting: bool, custom: Option<string>): (bool, bool, Option<string>)
  {
    (tables, formatting, if Present(custom) then custom else None)
  }

  /** `p` is not a prefix of `s` when they differ at a position both have. */
  lemma NotPrefixAt(p: string, s: string, k: nat)
    requires k < |p| && k < |s| && p[k] != s[k]
    ensures !(p <= s)
  {
  }

  lemma CustomOptionsOf(tables: bool, formatting: bool, custom: Option<string>)
    ensures CustomOptions(tables, formatting, CustomPart(custom)) == Some(Recorded(tables, formatting, custom))
  {
    if Present(custom) {
      assert CustomPart(custom)[|AdditionalPrefix|..] == custom.value;
    }
  }

  lemma OptionsAfterTablesOf(tables: bool, formatting: bool, custom: Option<string>)
    ensures OptionsAfterTables(tables, FormattingPart(formatting) + CustomPart(custom))
            == Some(Recorded(tables, formatting, custom))
  {
    var rest := FormattingPart(formatting) + CustomPart(custom);
    if formatting {
      assert rest[|FormattingLine|..] == CustomPart(custom);
    } else {
      assert rest == CustomPart(custom);
      if Present(custom) {
        assert FormattingLine[3] != rest[3];
        NotPrefixAt(FormattingLine, rest, 3);
      }
    }
    CustomOptionsOf(tables, formatting, custom);
  }

  /** What follows the place of the tables line, when not empty, differs from it at its fourth
      character. */
  lemma TailAfterTables(formatting: bool, custom: Option<string>)
    requires FormattingPart(formatting) + CustomPart(custom) != ""
    ensures var tail := FormattingPart(formatting) + CustomPart(custom);
      |tail| > 3 && tail[3] != TablesLine[3]
  {
    var tail := FormattingPart(formatting) + CustomPart(custom);
    if formatting {
      ConcatSplit(FormattingLine, CustomPart(custom));
      assert tail[3] == FormattingLine[3];
    } else {
      assert tail == AdditionalPrefix + custom.value;
      ConcatSplit(AdditionalPrefix, custom.value);
      assert tail[3] == AdditionalPrefix[3];
    }
  }

  lemma OptionsAfterBaseOf(tables: bool, formatting: bool, custom: Option<string>)
    ensures OptionsAfterBase(TablesPart(tables) + FormattingPart(formatting) + CustomPart(custom))
            == Some(Recorded(tables, formatting, custom))
  {
    var tail := FormattingPart(formatting) + CustomPart(custom);
    ConcatAssoc3(TablesPart(tables), FormattingPart(formatting), CustomPart(custom));
    OptionsAfterTablesOf(tables, formatting, custom);
    if tables {
      ConcatSplit(TablesLine, tail);
    } else {
      assert TablesPart(tables) + tail == tail;
      if tail != "" {
        TailAfterTables(formatting, custom);
        NotPrefixAt(TablesLine, tail, 3);
      }
    }
  }

  /** Reading the options back from a prompt gives exactly the options it was built from
      (custom instructions that are empty count as none). */
  lemma PromptOptionsRoundTrip(tables: bool, formatting: bool, custom: Option<string>)
    ensures PromptOptions(SystemPrompt(tables, formatting, custom)) == Some(Recorded(tables, formatting, custom))
  {
    var rest := TablesPart(tables) + FormattingPart(formatting) + CustomPart(custom);
    ConcatAssoc(BasePrompt, TablesPart(tables), FormattingPart(formatting), CustomPart(custom));
    ConcatSplit(BasePrompt, rest);
    OptionsAfterBaseOf(tables, formatting, custom);
  }

  /** Different options give different prompts. */
  lemma SystemPromptInjective(t1: bool, f1: bool, c1: Option<string>, t2: bool, f2: bool, c2: Option<string>)
    requires SystemPrompt(t1, f1, c1) == SystemPrompt(t2, f2, c2)
    ensures t1 == t2 && f1 == f2
    ensures Present(c1) <==> Present(c2)
    ensures Present(c1) ==> c1.value == c2.value
  {
    PromptOptionsRoundTrip(t1, f1, c1);
    PromptOptionsRoundTrip(t2, f2, c2);
  }

  // ---------------------------------------------------------------------------
  // MistralOCRTool

  /** The request `extract_text_from_image` sends for the image file at `imagePath`, or the
      exception reading the file raises. */
  function ImageRequest(tool: OcrTool, imagePath: string, tables: bool, formatting: bool,
                        custom: Option<string>, read: FileReader): (r: Outcome<ChatRequest>)
    ensures r.Success? <==> read(imagePath).Success?
    ensures r.Failure? ==> r.error == read(imagePath).error
    ensures r.Success? ==>
      && |r.value.messages| == 2 && r.value.messages[1].UserImageMessage?
      && r.value.messages[0] == SystemMessage(SystemPrompt(tables, formatting, custom))
      && DataUrl.Parse(r.value.messages[1].imageUrl) == Some(("image/png", read(imagePath).value))
      && r.value.model == tool.modelName
  {
    match EncodeImage(FilePath(imagePath), read)
    case Failure(e) => Failure(e)
    case Success(b64) =>
      ImageUrlCarriesBytes(FilePath(imagePath), read);
      Success(OcrRequest(SystemPrompt(tables, formatting, custom), b64, tool.modelName))
  }

  /** The markdown `extract_text_from_image` returns, or the exception it raises. */
  function ImageText(tool: OcrTool, imagePath: string, tables: bool, formatting: bool,
                     custom: Option<string>, read: FileReader, complete: Completion): (r: Outcome<string>)
    ensures read(imagePath).Failure? ==> r == Failure(read(imagePath).error)
    ensures read(imagePath).Success? ==> r == complete(ImageRequest(tool, imagePath, tables, formatting, custom, read).value)
  {
    match ImageRequest(tool, imagePath, tables, formatting, custom, read)
    case Failure(e) => Failure(e)
    case Success(request) => complete(request)
  }

  /** `extract_text_from_image`: assemble the prompt, encode the file, call the model. */
  method ExtractTextFromImage(tool: OcrTool, imagePath: string, tables: bool, formatting: bool,
                              custom: Option<string>, read: FileReader, complete: Completion)
    returns (r: Outcome<string>)
    ensures r == ImageText(tool, imagePath, tables, formatting, custom, read, complete)
  {
    var prompt := BuildSystemPrompt(tables, formatting, custom);
    var encoded := EncodeImage(FilePath(imagePath), read);
    if encoded.Failure? {
      return Failure(encoded.error);
    }
    r := complete(OcrRequest(prompt, encoded.value, tool.modelName));
  }

  // ---------------------------------------------------------------------------
  // extract_text_from_multiple_images

  const SectionSeparator := "\n\n---\n\n"
  const ErrorPrefix := "Error processing image: "

  /** The section for the `i`-th image (counting from 1): its text, or the error it raised. */
  function PageSection(i: nat, result: Outcome<string>): string
  {
    PageHeading(i) + SectionBody(result)
  }

  const PagePrefix := "## Page "

  function PageHeading(i: nat): string
  {
    PagePrefix + NatToString(i) + "\n\n"
  }

  /** The image's text, or the message of the exception it raised. */
  function SectionBody(result: Outcome<string>): string
  {
    match result
    case Success(text) => text
    case Failure(e) => ErrorPrefix + e.message
  }

  /** The result of each image, in path order, each extracted with the default flags. */
  function ImageResults(tool: OcrTool, paths: seq<string>, custom: Option<string>,
                        read: FileReader, complete: Completion): (r: seq<Outcome<string>>)
    ensures |r| == |paths|
    ensures forall k :: 0 <= k < |paths| ==> r[k] == ImageText(tool, paths[k], true, true, custom, read, complete)
  {
    seq(|paths|, k requires 0 <= k < |paths| => ImageText(tool, paths[k], true, true, custom, read, complete))
  }

  /** The numbered sections for a list of results, built one at a time as the loop does. */
  function PageSections(results: seq<Outcome<string>>): seq<string>
  {
    if |results| == 0 then []
    else PageSections(results[..|results| - 1]) + [PageSection(|results|, results[|results| - 1])]
  }

  /** The combined markdown of `extract_text_from_multiple_images`. */
  function MultiImageText(tool: OcrTool, paths: seq<string>, custom: Option<string>,
                          read: FileReader, complete: Completion): string
  {
    Join(SectionSeparator, PageSections(ImageResults(tool, paths, custom, read, complete)))
  }

  lemma {:induction false} PageSectionsLength(results: seq<Outcome<string>>)
    ensures |PageSections(results)| == |results|
  {
    if |results| > 0 {
      PageSectionsLength(results[..|results| - 1]);
    }
  }

  /** The `k`-th section is numbered `k + 1` and holds the `k`-th result. */
  lemma {:induction false} PageSectionAt(results: seq<Outcome<string>>, k: nat)
    requires k < |results|
    ensures |PageSections(results)| == |results|
    ensures PageSections(results)[k] == PageSection(k + 1, results[k])
  {
    var n := |results| - 1;
    var init := results[..n];
    PageSectionsLength(init);
    PageSectionsLength(results);
    if k < n {
      PageSectionAt(init, k);
      assert init[k] == results[k];
      assert PageSections(results)[k] == PageSections(init)[k];
    }
  }

  /** One section per result, in order; the `k`-th section is numbered `k + 1` and holds the
      `k`-th result alone, so a failing image neither stops the batch nor affects the others. */
  lemma PageSectionsPointwise(results: seq<Outcome<string>>)
    ensures |PageSections(results)| == |results|
    ensures forall k :: 0 <= k < |results| ==> PageSections(results)[k] == PageSection(k + 1, results[k])
  {
    PageSectionsLength(results);
    forall k | 0 <= k < |results|
      ensures PageSections(results)[k] == PageSection(k + 1, results[k])
    {
      PageSectionAt(results, k);
    }
  }

  /** Every image gets its section: the `k`-th section holds the `k`-th image's text, or the
      message of the exception extracting it raised. */
  lemma MultiImageSections(tool: OcrTool, paths: seq<string>, custom: Option<string>,
                           read: FileReader, complete: Completion)
    ensures var sections := PageSections(ImageResults(tool, paths, custom, read, complete));
      && |sections| == |paths|
      && forall k :: 0 <= k < |paths| ==>
           sections[k] == PageHeading(k + 1) + SectionBody(ImageText(tool, paths[k], true, true, custom, read, complete))
  {
    PageSectionsPointwise(ImageResults(tool, paths, custom, read, complete));
  }

  lemma PageSectionsSnoc(results: seq<Outcome<string>>, last: Outcome<string>)
    ensures PageSections(results + [last]) == PageSections(results) + [PageSection(|results| + 1, last)]
  {
    assert (results + [last])[..|results|] == results;
  }

  lemma ImageResultsSnoc(tool: OcrTool, paths: seq<string>, p: string, custom: Option<string>,
                         read: FileReader, complete: Completion)
    ensures ImageResults(tool, paths + [p], custom, read, complete)
            == ImageResults(tool, paths, custom, read, complete) + [ImageText(tool, p, true, true, custom, read, complete)]
  {
    var all := paths + [p];
    assert forall k :: 0 <= k < |paths| ==> all[k] == paths[k];
    assert all[|paths|] == p;
  }

  /** No images give the empty text; one more image adds the separator and its section. */
  lemma MultiImageTextSnoc(tool: OcrTool, paths: seq<string>, p: string, custom: Option<string>,
                           read: FileReader, complete: Completion)
    ensures MultiImageText(tool, [], custom, read, complete) == ""
    ensures var section := PageSection(|paths| + 1, ImageText(tool, p, true, true, custom, read, complete));
      MultiImageText(tool, paths + [p], custom, read, complete)
        == if |paths| == 0 then section
           else MultiImageText(tool, paths, custom, read, complete) + SectionSeparator + section
  {
    var front := ImageResults(tool, paths, custom, read, complete);
    var last := ImageText(tool, p, true, true, custom, read, complete);
    ImageResultsSnoc(tool, paths, p, custom, read, complete);
    PageSectionsSnoc(front, last);
    PageSectionsLength(front);
    JoinSnoc(SectionSeparator, PageSections(front), PageSection(|paths| + 1, last));
  }

  /** A section starts with its page heading, and the heading's number is the page's. */
  lemma PageSectionHeading(i: nat, j: nat, r1: Outcome<string>, r2: Outcome<string>)
    requires PageSection(i, r1) == PageSection(j, r2)
    ensures i == j
  {
    var x, y := "\n\n" + SectionBody(r1), "\n\n" + SectionBody(r2);
    ConcatAssoc(PagePrefix, NatToString(i), "\n\n", SectionBody(r1));
    ConcatAssoc(PagePrefix, NatToString(j), "\n\n", SectionBody(r2));
    ConcatAssoc3(NatToString(i), "\n\n", SectionBody(r1));
    ConcatAssoc3(NatToString(j), "\n\n", SectionBody(r2));
    assert x[0] == '\n' && y[0] == '\n';
    NumberAfterPrefix(PagePrefix, i, j, x, y);
  }

  /** `extract_text_from_multiple_images`: one section per image, joined by `---` rules. */
  method ExtractTextFromMultipleImages(tool: OcrTool, paths: seq<string>, custom: Option<string>,
                                       read: FileReader, complete: Completion)
    returns (combined: string)
    ensures combined == MultiImageText(tool, paths, custom, read, complete)
  {
    ghost var results := ImageResults(tool, paths, custom, read, complete);
    var allPages: seq<string> := [];
    var i := 0;
    while i < |paths|
      invariant 0 <= i <= |paths|
      invariant allPages == PageSections(results[..i])
    {
      var result := ExtractTextFromImage(tool, paths[i], true, true, custom, read, complete);
      assert results[..i + 1][..i] == results[..i];
      allPages := allPages + [PageSection(i + 1, result)];
      i := i + 1;
    }
    assert results[..i] == results;
    combined := Join(SectionSeparator, allPages);
  }

  // ---------------------------------------------------------------------------
  // The agent's multi-image tool: a comma-separated path list

  function StripAll(pieces: seq<string>): (r: seq<string>)
    ensures |r| == |pieces|
    ensures forall k :: 0 <= k < |r| ==> r[k] == Strip(pieces[k])
  {
    if |pieces| == 0 then [] else [Strip(pieces[0])] + StripAll(pieces[1..])
  }

  /** `[path.strip() for path in image_paths.split(',')]`. */
  function ParsePaths(text: string): (r: seq<string>)
    ensures |r| == Count(text, ',') + 1 && |r| == |Split(text, ',')|
    ensures forall k :: 0 <= k < |r| ==> r[k] == Strip(Split(text, ',')[k])
    ensures forall k :: 0 <= k < |r| ==> ',' !in r[k]
    ensures forall k :: 0 <= k < |r| ==> r[k] == "" || (!IsSpace(r[k][0]) && !IsSpace(r[k][|r[k]| - 1]))
  {
    var pieces := Split(text, ',');
    SplitCount(text, ',');
    SplitPiecesFree(text, ',');
    forall k | 0 <= k < |pieces| ensures ',' !in Strip(pieces[k]) {
      StripChars(pieces[k], ',');
    }
    forall k | 0 <= k < |pieces|
      ensures Strip(pieces[k]) == "" || (!IsSpace(Strip(pieces[k])[0]) && !IsSpace(Strip(pieces[k])[|Strip(pieces[k])| - 1]))
    {
      StripBlank(pieces[k]);
    }
    StripAll(pieces)
  }

  /** Paths that are already stripped and hold no comma survive being written as a
      comma-separated list and parsed back. */
  lemma ParsePathsJoin(paths: seq<string>)
    requires |paths| >= 1
    requires forall k :: 0 <= k < |paths| ==> ',' !in paths[k] && Strip(paths[k]) == paths[k]
    ensures ParsePaths(Join(",", paths)) == paths
  {
    assert [','] == ",";
    SplitOfJoin(',', paths);
  }

  /** The multi-image tool of the agent: the path list parsed, then one section per path. */
  function MultipleImagesTool(tool: OcrTool, pathsText: string, custom: Option<string>,
                              read: FileReader, complete: Completion): (r: string)
    ensures r == MultiImageText(tool, ParsePaths(pathsText), custom, read, complete)
    ensures |PageSections(ImageResults(tool, ParsePaths(pathsText), custom, read, complete))| == Count(pathsText, ',') + 1
  {
    PageSectionsPointwise(ImageResults(tool, ParsePaths(pathsText), custom, read, complete));
    MultiImageText(tool, ParsePaths(pathsText), custom, read, complete)
  }

  // ---------------------------------------------------------------------------
  // DocumentOCRAgent

  const DefaultInstructions := "You are a helpful document OCR assistant. I can help you extract text from images and documents using advanced OCR technology.\n\nMy capabilities include:\n- Extracting text from images (JPEG, PNG, PDF pages)\n- Converting documents to markdown format\n- Preserving formatting, tables, and structure\n- Processing multiple pages at once\n- Handling various document types (invoices, reports, forms, etc.)\n\nWhen you provide an image or ask me to process a document, I'll use my OCR tool to extract the text and provide it to you in a well-formatted markdown structure.\n\nHow can I help you with document processing today?"
  const AgentName := "DocumentOCRAgent"
  const ImageToolName := "extract_text_from_image"
  const MultipleImagesToolName := "extract_text_from_multiple_images"
  const ImageNote := "\n\nPlease process this image: "

  /** The chat agent `_create_agent` asks the service for. */
  datatype Agent = Agent(name: string, instructions: string, tools: seq<string>)

  /** `agent.run(message)`: the agent's reply, or the exception the service raises. */
  type AgentRun = (Agent, string) -> Outcome<string>

  function NewAgent(instructions: string): Agent
  {
    Agent(AgentName, instructions, [ImageToolName, MultipleImagesToolName])
  }

  /** The instructions the agent is created with: the default only when none are given; an
      empty string given explicitly is kept. */
  function AgentInstructions(given: Option<string>): (r: string)
    ensures given.Some? ==> r == given.value
    ensures given.None? ==> r == DefaultInstructions
  {
    if given.None? then DefaultInstructions else given.value
  }

  /** The message `process_document` sends: the note naming the image is added only for a
      non-empty path. */
  function FullMessage(message: string, imagePath: Option<string>): string
  {
    if Present(imagePath) then message + ImageNote + imagePath.value else message
  }

  /** The message sent keeps the user's text as its start, and tells whether an image was named
      and which. */
  lemma FullMessageKeepsPath(message: string, p1: Option<string>, p2: Option<string>)
    requires FullMessage(message, p1) == FullMessage(message, p2)
    ensures Present(p1) <==> Present(p2)
    ensures Present(p1) ==> p1.value == p2.value
    ensures FullMessage(message, p1)[..|message|] == message
  {
    var m := FullMessage(message, p1);
    if Present(p1) && Present(p2) {
      var n := |message| + |ImageNote|;
      assert m[n..] == p1.value;
      assert m[n..] == p2.value;
    }
  }

  class DocumentOcrAgent {
    const tool: OcrTool
    const instructions: string
    var agent: Option<Agent>
    /** How many times the agent has been created. */
    ghost var creations: nat

    /** The agent exists exactly when it has been created, which happened at most once and
        with this object's instructions. */
    ghost predicate Valid()
      reads this
    {
      && creations == (if agent.Some? then 1 else 0)
      && (agent.Some? ==> agent.value == NewAgent(instructions))
    }

    constructor (endpoint: string, apiKey: string, modelName: string, agentInstructions: Option<string>)
      ensures Valid() && agent.None?
      ensures tool == OcrTool(endpoint, apiKey, modelName)
      ensures instructions == AgentInstructions(agentInstructions)
    {
      tool := OcrTool(endpoint, apiKey, modelName);
      instructions := AgentInstructions(agentInstructions);
      agent := None;
      creations := 0;
    }

    /** `if self.agent is None: self.agent = await self._create_agent()`. */
    method EnsureAgent()
      requires Valid()
      modifies this
      ensures Valid() && agent.Some?
      ensures old(agent).Some? ==> agent == old(agent) && creations == old(creations)
      ensures old(agent).None? ==> agent == Some(NewAgent(instructions))
    {
      if agent.None? {
        agent := Some(NewAgent(instructions));
        creations := creations + 1;
      }
    }

    /** `process_document`: the agent's reply to the message, with the image note when a path
        is given. */
    method ProcessDocument(message: string, imagePath: Option<string>, run: AgentRun) returns (r: Outcome<string>)
      requires Valid()
      modifies this
      ensures Valid() && agent.Some? && creations == 1
      ensures old(agent).Some? ==> agent == old(agent)
      ensures r == run(agent.value, FullMessage(message, imagePath))
    {
      EnsureAgent();
      var fullMessage := message;
      if Present(imagePath) {
        fullMessage := message + ImageNote + imagePath.value;
      }
      r := run(agent.value, fullMessage);
    }

    /** `chat`: the agent's reply to the message as it is. */
    method Chat(message: string, run: AgentRun) returns (r: Outcome<string>)
      requires Valid()
      modifies this
      ensures Valid() && agent.Some? && creations == 1
      ensures old(agent).Some? ==> agent == old(agent)
      ensures r == run(agent.value, message)
    {
      EnsureAgent();
      r := run(agent.value, message);
    }
  }

  // ---------------------------------------------------------------------------
  // create_ocr_agent_from_env

  const MissingEnvMessage := "Missing required environment variables: MISTRAL_OCR_ENDPOINT and MISTRAL_OCR_KEY"

  /** The configuration read from the environment (None for an unset variable). */
  function ConfigFromEnv(endpointVar: Option<string>, keyVar: Option<string>, modelVar: Option<string>): (r: Outcome<OcrTool>)
    ensures r.Success? <==> Present(endpointVar) && Present(keyVar)
    ensures r.Failure? ==> r.error == Exception(ValueError, MissingEnvMessage)
    ensures r.Success? ==> r.value.endpoint == endpointVar.value && r.value.apiKey == keyVar.value
    ensures r.Success? ==> r.value.modelName == (if modelVar.Some? then modelVar.value else DefaultModelName)
  {
    if !Present(endpointVar) || !Present(keyVar) then Failure(Exception(ValueError, MissingEnvMessage))
    else Success(OcrTool(endpointVar.value, keyVar.value, if modelVar.Some? then modelVar.value else DefaultModelName))
  }

  /** `create_ocr_agent_from_env`: a fresh agent, not yet created, for a complete environment. */
  method CreateFromEnv(endpointVar: Option<string>, keyVar: Option<string>, modelVar: Option<string>)
    returns (r: Outcome<DocumentOcrAgent>)
    ensures r.Failure? <==> ConfigFromEnv(endpointVar, keyVar, modelVar).Failure?
    ensures r.Failure? ==> r.error == ConfigFromEnv(endpointVar, keyVar, modelVar).error
    ensures r.Success? ==>
      && fresh(r.value) && r.value.Valid() && r.value.agent.None?
      && r.value.tool == ConfigFromEnv(endpointVar, keyVar, modelVar).value
      && r.value.instructions == DefaultInstructions
  {
    var config := ConfigFromEnv(endpointVar, keyVar, modelVar);
    if config.Failure? {
      return Failure(config.error);
    }
    var a := new DocumentOcrAgent(config.value.endpoint, config.value.apiKey, config.value.modelName, None);
    r := Success(a);
  }
}
