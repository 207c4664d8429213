/** The Azure AI Agent Service variant of agent_framework_version.py: the OCR tool the service
    calls back, the handling of its tool calls, the polling of a run until it settles, and the
    reading of the assistant's reply. The service itself is an input: for the message it is
    sent, the run snapshots it reports one poll after another and the thread's messages. */
module FrameworkAgent {
  import opened Wrappers
  import opened Text
  import opened Base64
  import DataUrl
  import opened MistralChat

  // ---------------------------------------------------------------------------
  // MistralOCRTool.extract_text_from_image

  const DefaultToolPrompt := "You are an expert OCR system. Convert the provided document image to detailed markdown format.\n\nInstructions:\n- Extract ALL text content accurately\n- Preserve document structure and formatting\n- Use appropriate markdown headers (# ## ###)\n- Format tables using markdown table syntax\n- Preserve lists, bullet points, and numbering\n- Be thorough and precise"
  /** How Python formats a missing argument inside an f-string. */
  const NoneText := "None"

  /** `instructions or <default prompt>`: the default replaces missing and empty instructions. */
  function ToolPrompt(instructions: Option<string>): (r: string)
    ensures Present(instructions) ==> r == instructions.value
    ensures !Present(instructions) ==> r == DefaultToolPrompt
  {
    if Present(instructions) then instructions.value else DefaultToolPrompt
  }

  /** The request for one tool call; a missing image is written into the URL as `None`. */
  function ToolRequest(tool: OcrTool, imageBase64: Option<string>, instructions: Option<string>): (r: ChatRequest)
    ensures |r.messages| == 2 && r.messages[0] == SystemMessage(ToolPrompt(instructions))
    ensures r.messages[1] == UserImageMessage(ImageUrl(if imageBase64.Some? then imageBase64.value else NoneText), ConvertInstruction)
    ensures r.model == tool.modelName && r.temperature == 0.0 && r.maxTokens == MaxTokens
  {
    OcrRequest(ToolPrompt(instructions), if imageBase64.Some? then imageBase64.value else NoneText, tool.modelName)
  }

  /** A tool call whose image is the base64 of some bytes sends exactly those bytes, as PNG. */
  lemma ToolRequestCarriesImage(tool: OcrTool, data: seq<byte>, instructions: Option<string>)
    ensures DataUrl.Parse(ToolRequest(tool, Some(Encode(data)), instructions).messages[1].imageUrl)
            == Some(("image/png", data))
  {
    DataUrl.ParseDataUri("image/png", data);
  }

  // ---------------------------------------------------------------------------
  // _handle_tool_calls

  const ImageToolName := "extract_text_from_image"

  /** The arguments of a tool call, as `json.loads(...).get(...)` finds them. */
  datatype ToolArgs = ToolArgs(imageBase64: Option<string>, instructions: Option<string>)

  /** `json.loads` of a call's argument text: the arguments, or the JSONDecodeError it raises. */
  type ArgsParser = string -> Outcome<ToolArgs>

  datatype ToolCall = ToolCall(id: string, name: string, arguments: string)

  datatype ToolOutput = ToolOutput(toolCallId: string, output: string)

  /** The OCR tool's answer to one call, or the exception parsing or completing it raises. */
  function CallResult(tool: OcrTool, call: ToolCall, loads: ArgsParser, complete: Completion): Outcome<string>
  {
    match loads(call.arguments)
    case Failure(e) => Failure(e)
    case Success(args) => complete(ToolRequest(tool, args.imageBase64, args.instructions))
  }

  /** The calls addressed to the OCR tool, in order. */
  function OcrCalls(calls: seq<ToolCall>): (r: seq<ToolCall>)
    ensures |r| <= |calls|
  {
    if |calls| == 0 then []
    else
      var init := OcrCalls(calls[..|calls| - 1]);
      var last := calls[|calls| - 1];
      if last.name == ImageToolName then init + [last] else init
  }

  /** Only calls of the OCR tool are kept, and each kept call is one of the calls. */
  lemma {:induction false} OcrCallsFilter(calls: seq<ToolCall>)
    ensures forall j :: 0 <= j < |OcrCalls(calls)| ==> OcrCalls(calls)[j].name == ImageToolName
    ensures forall j :: 0 <= j < |OcrCalls(calls)| ==> OcrCalls(calls)[j] in calls
  {
    if |calls| > 0 {
      var init := calls[..|calls| - 1];
      OcrCallsFilter(init);
      var front := OcrCalls(init);
      var last := calls[|calls| - 1];
      assert forall c :: c in init ==> c in calls;
      if last.name == ImageToolName {
        assert OcrCalls(calls) == front + [last];
      } else {
        assert OcrCalls(calls) == front;
      }
    }
  }

  /** Selecting distributes over concatenation: the OCR calls of two runs of calls are those of
      the first followed by those of the second. */
  lemma {:induction false} OcrCallsAppend(a: seq<ToolCall>, b: seq<ToolCall>)
    ensures OcrCalls(a + b) == OcrCalls(a) + OcrCalls(b)
    decreases |b|
  {
    if |b| == 0 {
      assert a + b == a;
    } else {
      var b0 := b[..|b| - 1];
      OcrCallsAppend(a, b0);
      assert (a + b)[..|a + b| - 1] == a + b0;
      assert (a + b)[|a + b| - 1] == b[|b| - 1];
    }
  }

  /** A single call is selected exactly when it is addressed to the OCR tool. */
  lemma OcrCallsSingle(c: ToolCall)
    ensures OcrCalls([c]) == if c.name == ImageToolName then [c] else []
  {
    assert [c][..0] == [];
  }

  /** Every call addressed to the OCR tool is selected: none is skipped. */
  lemma OcrCallsKeepsNamed(calls: seq<ToolCall>)
    ensures forall k :: 0 <= k < |calls| && calls[k].name == ImageToolName ==> calls[k] in OcrCalls(calls)
  {
    forall k | 0 <= k < |calls| && calls[k].name == ImageToolName
      ensures calls[k] in OcrCalls(calls)
    {
      var front, back := calls[..k], calls[k + 1..];
      assert calls == front + ([calls[k]] + back);
      OcrCallsAppend(front, [calls[k]] + back);
      OcrCallsAppend([calls[k]], back);
      OcrCallsSingle(calls[k]);
    }
  }

  /** The outputs for a list of calls: one per OCR call, in order; the first call that raises
      stops the handling. */
  function ToolOutputs(tool: OcrTool, calls: seq<ToolCall>, loads: ArgsParser, complete: Completion): Outcome<seq<ToolOutput>>
  {
    if |calls| == 0 then Success([])
    else
      match ToolOutputs(tool, calls[..|calls| - 1], loads, complete)
      case Failure(e) => Failure(e)
      case Success(outputs) =>
        var call := calls[|calls| - 1];
        if call.name != ImageToolName then Success(outputs)
        else
          match CallResult(tool, call, loads, complete)
          case Failure(e) => Failure(e)
          case Success(text) => Success(outputs + [ToolOutput(call.id, text)])
  }

  /** Every one of the given OCR calls succeeds. */
  predicate AllSucceed(tool: OcrTool, ocr: seq<ToolCall>, loads: ArgsParser, complete: Completion)
  {
    forall j :: 0 <= j < |ocr| ==> CallResult(tool, ocr[j], loads, complete).Success?
  }

  lemma AllSucceedSnoc(tool: OcrTool, front: seq<ToolCall>, call: ToolCall, loads: ArgsParser, complete: Completion)
    ensures AllSucceed(tool, front + [call], loads, complete)
            <==> AllSucceed(tool, front, loads, complete) && CallResult(tool, call, loads, complete).Success?
  {
    var all := front + [call];
    assert forall j :: 0 <= j < |front| ==> all[j] == front[j];
    assert all[|front|] == call;
  }

  /** Handling succeeds exactly when every OCR call does. */
  lemma {:induction false} ToolOutputsSucceed(tool: OcrTool, calls: seq<ToolCall>, loads: ArgsParser, complete: Completion)
    ensures ToolOutputs(tool, calls, loads, complete).Success? <==> AllSucceed(tool, OcrCalls(calls), loads, complete)
  {
    if |calls| > 0 {
      var init := calls[..|calls| - 1];
      ToolOutputsSucceed(tool, init, loads, complete);
      var call := calls[|calls| - 1];
      var front := OcrCalls(init);
      if call.name == ImageToolName {
        assert OcrCalls(calls) == front + [call];
        AllSucceedSnoc(tool, front, call, loads, complete);
      } else {
        assert OcrCalls(calls) == front;
      }
    }
  }

  /** A successful handling yields one output per OCR call, in order, each carrying its own
      call's id and result; other calls yield nothing. */
  lemma {:induction false} ToolOutputsMatchCalls(tool: OcrTool, calls: seq<ToolCall>, loads: ArgsParser, complete: Completion)
    requires ToolOutputs(tool, calls, loads, complete).Success?
    ensures |ToolOutputs(tool, calls, loads, complete).value| == |OcrCalls(calls)|
    ensures forall j :: 0 <= j < |OcrCalls(calls)| ==> CallResult(tool, OcrCalls(calls)[j], loads, complete).Success?
    ensures forall j :: 0 <= j < |OcrCalls(calls)| ==>
              ToolOutputs(tool, calls, loads, complete).value[j]
                == ToolOutput(OcrCalls(calls)[j].id, CallResult(tool, OcrCalls(calls)[j], loads, complete).value)
  {
    ToolOutputsSucceed(tool, calls, loads, complete);
    if |calls| > 0 {
      var init := calls[..|calls| - 1];
      ToolOutputsMatchCalls(tool, init, loads, complete);
      var call := calls[|calls| - 1];
      var ocr := OcrCalls(calls);
      var front := OcrCalls(init);
      if call.name == ImageToolName {
        assert ocr == front + [call];
        assert forall j :: 0 <= j < |front| ==> ocr[j] == front[j];
      } else {
        assert ocr == front;
        assert ToolOutputs(tool, calls, loads, complete) == ToolOutputs(tool, init, loads, complete);
      }
    }
  }

  /** What `_handle_tool_calls` submits: the outputs when there are any, nothing otherwise. */
  function Submitted(outputs: seq<ToolOutput>): seq<seq<ToolOutput>>
  {
    if |outputs| == 0 then [] else [outputs]
  }

  /** `_handle_tool_calls`: answer the OCR calls in order and submit the outputs when there are
      any. The result is the list of submissions made (none or one). */
  method HandleToolCalls(tool: OcrTool, calls: seq<ToolCall>, loads: ArgsParser, complete: Completion)
    returns (r: Outcome<seq<seq<ToolOutput>>>)
    ensures ToolOutputs(tool, calls, loads, complete).Failure? ==>
              r == Failure(ToolOutputs(tool, calls, loads, complete).error)
    ensures ToolOutputs(tool, calls, loads, complete).Success? ==>
              r == Success(Submitted(ToolOutputs(tool, calls, loads, complete).value))
  {
    var toolOutputs: seq<ToolOutput> := [];
    var i := 0;
    while i < |calls|
      invariant 0 <= i <= |calls|
      invariant ToolOutputs(tool, calls[..i], loads, complete) == Success(toolOutputs)
    {
      var call := calls[i];
      assert calls[..i + 1][..i] == calls[..i];
      if call.name == ImageToolName {
        var args := loads(call.arguments);
        if args.Failure? {
          FailureStops(tool, calls, i + 1, loads, complete);
          return Failure(args.error);
        }
        var result := complete(ToolRequest(tool, args.value.imageBase64, args.value.instructions));
        if result.Failure? {
          FailureStops(tool, calls, i + 1, loads, complete);
          return Failure(result.error);
        }
        toolOutputs := toolOutputs + [ToolOutput(call.id, result.value)];
      }
      i := i + 1;
    }
    assert calls[..i] == calls;
    r := Success(Submitted(toolOutputs));
  }

  /** Once handling a prefix of the calls fails, handling all of them fails the same way. */
  lemma {:induction false} FailureStops(tool: OcrTool, calls: seq<ToolCall>, i: nat, loads: ArgsParser, complete: Completion)
    requires i <= |calls| && ToolOutputs(tool, calls[..i], loads, complete).Failure?
    ensures ToolOutputs(tool, calls, loads, complete) == ToolOutputs(tool, calls[..i], loads, complete)
    decreases |calls| - i
  {
    if i < |calls| {
      assert calls[..i + 1][..i] == calls[..i];
      FailureStops(tool, calls, i + 1, loads, complete);
    } else {
      assert calls[..i] == calls;
    }
  }

  // ---------------------------------------------------------------------------
  // The run and its polling loop

  datatype RunStatus = Queued | InProgress | RequiresAction | Cancelling | Cancelled | Failed | Completed | Expired

  /** The statuses the loop keeps polling in. */
  predicate Active(s: RunStatus)
  {
    s.Queued? || s.InProgress? || s.RequiresAction?
  }

  /** What one `create_run` / `get_run` reports. */
  datatype RunSnapshot = RunSnapshot(runId: string, status: RunStatus, toolCalls: seq<ToolCall>, lastError: string)

  /** The first snapshot from position `i` on whose status ends the loop, if any. */
  function SettledFrom(polls: seq<RunSnapshot>, i: nat): (r: Option<nat>)
    requires i <= |polls|
    ensures r.Some? ==> i <= r.value < |polls| && !Active(polls[r.value].status)
    ensures r.Some? ==> forall j :: i <= j < r.value ==> Active(polls[j].status)
    ensures r.None? ==> forall j :: i <= j < |polls| ==> Active(polls[j].status)
    decreases |polls| - i
  {
    if i == |polls| then None
    else if !Active(polls[i].status) then Some(i)
    else SettledFrom(polls, i + 1)
  }

  /** The submissions one snapshot causes: tool calls are handled only when the run requires
      action. */
  function Handled(tool: OcrTool, snapshot: RunSnapshot, loads: ArgsParser, complete: Completion): Outcome<seq<seq<ToolOutput>>>
  {
    if !snapshot.status.RequiresAction? then Success([])
    else
      match ToolOutputs(tool, snapshot.toolCalls, loads, complete)
      case Failure(e) => Failure(e)
      case Success(outputs) => Success(Submitted(outputs))
  }

  /** Everything the loop submits, and the snapshot it ends on or the exception that stops it. */
  datatype PollResult = PollResult(submitted: seq<seq<ToolOutput>>, outcome: Outcome<RunSnapshot>)

  /** The loop from the `i`-th snapshot on. */
  function PollFrom(tool: OcrTool, polls: seq<RunSnapshot>, i: nat, loads: ArgsParser, complete: Completion): PollResult
    requires i <= |polls| && SettledFrom(polls, i).Some?
    decreases |polls| - i
  {
    var snapshot := polls[i];
    if !Active(snapshot.status) then PollResult([], Success(snapshot))
    else
      match Handled(tool, snapshot, loads, complete)
      case Failure(e) => PollResult([], Failure(e))
      case Success(submissions) =>
        var rest := PollFrom(tool, polls, i + 1, loads, complete);
        PollResult(submissions + rest.submitted, rest.outcome)
  }

  /** A loop that ends normally ends on the first settled snapshot, whose status is neither
      queued, in progress nor requiring action. */
  lemma {:induction false} PollEndsSettled(tool: OcrTool, polls: seq<RunSnapshot>, i: nat, loads: ArgsParser, complete: Completion)
    requires i <= |polls| && SettledFrom(polls, i).Some?
    ensures PollFrom(tool, polls, i, loads, complete).outcome.Success? ==>
              PollFrom(tool, polls, i, loads, complete).outcome.value == polls[SettledFrom(polls, i).value]
    ensures PollFrom(tool, polls, i, loads, complete).outcome.Success? ==>
              !Active(PollFrom(tool, polls, i, loads, complete).outcome.value.status)
    decreases |polls| - i
  {
    if Active(polls[i].status) {
      PollEndsSettled(tool, polls, i + 1, loads, complete);
    }
  }

  /** A run that never requires action before it settles has no tool call handled and ends on
      its first settled snapshot. */
  lemma {:induction false} PollWithoutAction(tool: OcrTool, polls: seq<RunSnapshot>, i: nat, loads: ArgsParser, complete: Completion)
    requires i <= |polls| && SettledFrom(polls, i).Some?
    requires forall j :: i <= j < SettledFrom(polls, i).value ==> !polls[j].status.RequiresAction?
    ensures PollFrom(tool, polls, i, loads, complete) == PollResult([], Success(polls[SettledFrom(polls, i).value]))
    decreases |polls| - i
  {
    if Active(polls[i].status) {
      PollWithoutAction(tool, polls, i + 1, loads, complete);
    }
  }

  /** One turn of the loop: an active snapshot's submissions come before the rest of the loop's,
      unless handling its tool calls raises. */
  lemma PollStep(tool: OcrTool, polls: seq<RunSnapshot>, i: nat, loads: ArgsParser, complete: Completion)
    requires i < |polls| && SettledFrom(polls, i).Some? && Active(polls[i].status)
    ensures SettledFrom(polls, i + 1).Some?
    ensures var step := Handled(tool, polls[i], loads, complete);
      && (step.Failure? ==> PollFrom(tool, polls, i, loads, complete) == PollResult([], Failure(step.error)))
      && (step.Success? ==>
            PollFrom(tool, polls, i, loads, complete)
              == PollResult(step.value + PollFrom(tool, polls, i + 1, loads, complete).submitted,
                            PollFrom(tool, polls, i + 1, loads, complete).outcome))
  {
  }

  lemma AppendAssoc(a: seq<seq<ToolOutput>>, b: seq<seq<ToolOutput>>, c: seq<seq<ToolOutput>>)
    ensures a + (b + c) == (a + b) + c
  {
  }

  /** The `while run.status in [...]` loop of `process_document` and `chat`. */
  method PollRun(tool: OcrTool, polls: seq<RunSnapshot>, loads: ArgsParser, complete: Completion)
    returns (submitted: seq<seq<ToolOutput>>, outcome: Outcome<RunSnapshot>)
    requires SettledFrom(polls, 0).Some?
    ensures PollResult(submitted, outcome) == PollFrom(tool, polls, 0, loads, complete)
  {
    submitted := [];
    var i := 0;
    while Active(polls[i].status)
      invariant i < |polls| && SettledFrom(polls, i).Some?
      invariant PollFrom(tool, polls, 0, loads, complete)
                == PollResult(submitted + PollFrom(tool, polls, i, loads, complete).submitted,
                              PollFrom(tool, polls, i, loads, complete).outcome)
      decreases |polls| - i
    {
      PollStep(tool, polls, i, loads, complete);
      var handled: Outcome<seq<seq<ToolOutput>>>;
      if polls[i].status == RequiresAction {
        handled := HandleToolCalls(tool, polls[i].toolCalls, loads, complete);
      } else {
        handled := Success([]);
      }
      assert handled == Handled(tool, polls[i], loads, complete);
      if handled.Failure? {
        assert submitted + [] == submitted;
        return submitted, Failure(handled.error);
      }
      AppendAssoc(submitted, handled.value, PollFrom(tool, polls, i + 1, loads, complete).submitted);
      submitted := submitted + handled.value;
      i := i + 1;
    }
    assert submitted + [] == submitted;
    outcome := Success(polls[i]);
  }

  // ---------------------------------------------------------------------------
  // The thread's messages and the reply

  datatype Role = UserRole | AssistantRole

  /** A content item of a message: text, or anything without a `text` attribute. */
  datatype ContentItem = TextItem(value: string) | ImageFileItem(fileId: string)

  datatype ThreadMessage = ThreadMessage(role: Role, content: seq<ContentItem>)

  /** The position of the first assistant message, if any. */
  function FirstAssistant(messages: seq<ThreadMessage>): (r: Option<nat>)
    ensures r.Some? ==> r.value < |messages| && messages[r.value].role == AssistantRole
    ensures r.Some? ==> forall j :: 0 <= j < r.value ==> messages[j].role != AssistantRole
    ensures r.None? ==> forall j :: 0 <= j < |messages| ==> messages[j].role != AssistantRole
  {
    if |messages| == 0 then None
    else if messages[0].role == AssistantRole then Some(0)
    else match FirstAssistant(messages[1..])
      case None => None
      case Some(k) => Some(k + 1)
  }

  /** The `for ... break` loop of agent_framework_version.py:293-297 (and the `next(...)` of
      364-367), step by step; `FirstAssistant` states which message it finds. */
  method FindAssistantMessage(messages: seq<ThreadMessage>) returns (r: Option<ThreadMessage>)
    ensures FirstAssistant(messages).None? ==> r.None?
    ensures FirstAssistant(messages).Some? ==> r == Some(messages[FirstAssistant(messages).value])
  {
    r := None;
    var i := 0;
    while i < |messages|
      invariant 0 <= i <= |messages|
      invariant forall j :: 0 <= j < i ==> messages[j].role != AssistantRole
    {
      if messages[i].role == AssistantRole {
        r := Some(messages[i]);
        break;
      }
      i := i + 1;
    }
  }

  /** The text of a message: its text items' values, in order, one after the other. */
  function TextOf(items: seq<ContentItem>): string
  {
    if |items| == 0 then ""
    else TextOf(items[..|items| - 1]) + (if items[|items| - 1].TextItem? then items[|items| - 1].value else "")
  }

  /** The text of two runs of items is the text of the first followed by the text of the second. */
  lemma {:induction false} TextOfAppend(a: seq<ContentItem>, b: seq<ContentItem>)
    ensures TextOf(a + b) == TextOf(a) + TextOf(b)
  {
    if |b| == 0 {
      assert a + b == a;
    } else {
      var b0 := b[..|b| - 1];
      TextOfAppend(a, b0);
      assert (a + b)[..|a + b| - 1] == a + b0;
    }
  }

  /** Items without text contribute nothing: only text items are read. */
  lemma {:induction false} TextOfIgnoresOthers(items: seq<ContentItem>)
    requires forall j :: 0 <= j < |items| ==> !items[j].TextItem?
    ensures TextOf(items) == ""
  {
    if |items| > 0 {
      TextOfIgnoresOthers(items[..|items| - 1]);
    }
  }

  /** Each text item's value appears, whole, in the text, and the text is as long as all of them. */
  lemma {:induction false} TextOfContainsItems(items: seq<ContentItem>, k: nat)
    requires k < |items| && items[k].TextItem?
    ensures TextOf(items[..k]) + items[k].value <= TextOf(items)
  {
    TextOfAppend(items[..k], items[k..]);
    assert items[..k] + items[k..] == items;
    TextOfAppend([items[k]], items[k + 1..]);
    assert [items[k]] + items[k + 1..] == items[k..];
    assert [items[k]][..0] == [];
    assert TextOf([items[k]]) == items[k].value;
  }

  /** The `markdown_content +=` loop of agent_framework_version.py:303-306 (and 371-373 in
      `chat`), step by step; `TextOf` states the text it builds. */
  method CollectText(items: seq<ContentItem>) returns (text: string)
    ensures text == TextOf(items)
  {
    text := "";
    var i := 0;
    while i < |items|
      invariant 0 <= i <= |items|
      invariant text == TextOf(items[..i])
    {
      assert items[..i + 1][..i] == items[..i];
      if items[i].TextItem? {
        text := text + items[i].value;
      }
      i := i + 1;
    }
    assert items[..i] == items;
  }

  // ---------------------------------------------------------------------------
  // The user message

  const DefaultRequest := "Please extract all text from this document image"
  // The first word of each phrase is its own literal: the letter after "p" tells them apart.
  const TablesPhrase := "pay" + " special attention to tables"
  const StructurePhrase := "preserve" + " the document structure"
  const ImageDataNote := "\n\n[Image data provided for OCR processing]"

  function InstructionList(tables: bool, formatting: bool): seq<string>
  {
    (if tables then [TablesPhrase] else []) + (if formatting then [StructurePhrase] else [])
  }

  /** The user message: the one given, unchanged, or the default request naming what the flags
      ask for. */
  function UserMessage(given: Option<string>, tables: bool, formatting: bool): string
  {
    if given.Some? then given.value
    else
      var instructionText := Join(" and ", InstructionList(tables, formatting));
      DefaultRequest + (if instructionText != "" then ", " + instructionText else "") + "."
  }

  /** The default request for each choice of flags; the tables phrase comes first. */
  lemma UserMessageCases(given: Option<string>, tables: bool, formatting: bool)
    ensures given.Some? ==> UserMessage(given, tables, formatting) == given.value
    ensures given.None? && !tables && !formatting ==> UserMessage(given, tables, formatting) == DefaultRequest + "."
    ensures given.None? && tables && !formatting ==>
              UserMessage(given, tables, formatting) == DefaultRequest + ", " + TablesPhrase + "."
    ensures given.None? && !tables && formatting ==>
              UserMessage(given, tables, formatting) == DefaultRequest + ", " + StructurePhrase + "."
    ensures given.None? && tables && formatting ==>
              UserMessage(given, tables, formatting) == DefaultRequest + ", " + (TablesPhrase + " and " + StructurePhrase) + "."
  {
    if given.None? {
      var list := InstructionList(tables, formatting);
      var text := Join(" and ", list);
      if tables && formatting {
        assert list == [TablesPhrase, StructurePhrase];
        JoinTwo(" and ", TablesPhrase, StructurePhrase);
      } else if tables {
        assert list == [TablesPhrase];
      } else if formatting {
        assert list == [StructurePhrase];
      } else {
        assert list == [];
      }
      ConcatAssoc3(DefaultRequest, ", ", text);
    }
  }

  /** The appends of agent_framework_version.py:240-251, step by step: a list of instructions,
      joined; `UserMessage` states the message it builds. */
  method BuildUserMessage(given: Option<string>, tables: bool, formatting: bool) returns (message: string)
    ensures message == UserMessage(given, tables, formatting)
  {
    if given.Some? {
      return given.value;
    }
    var instructions: seq<string> := [];
    if tables {
      instructions := instructions + [TablesPhrase];
    }
    if formatting {
      instructions := instructions + [StructurePhrase];
    }
    assert instructions == InstructionList(tables, formatting);
    var instructionText := Join(" and ", instructions);
    message := DefaultRequest;
    if instructionText != "" {
      message := message + (", " + instructionText);
    }
    message := message + ".";
  }

  /** The content of the thread's user message. */
  function MessageContent(userMessage: string): string
  {
    userMessage + ImageDataNote
  }

  /** The message sent starts with the user's text and ends with the image-data note. */
  lemma MessageContentParts(userMessage: string)
    ensures MessageContent(userMessage)[..|userMessage|] == userMessage
    ensures MessageContent(userMessage)[|userMessage|..] == ImageDataNote
  {
    ConcatSplit(userMessage, ImageDataNote);
  }

  // ---------------------------------------------------------------------------
  // process_document and chat

  const RunFailedPrefix := "Agent run failed: "
  const NoResponseMessage := "No response from agent"
  const OrchestrationModel := "gpt-4o"
  const DefaultAgentName := "DocumentOCRAgent"
  const AgentInstructions := "You are a document processing assistant specializing in OCR (Optical Character Recognition).\n\nYour capabilities:\n1. Extract text from document images with high accuracy\n2. Preserve document structure and formatting\n3. Handle tables, lists, and complex layouts\n4. Provide results in clean markdown format\n\nWhen a user provides a document:\n1. Use the extract_text_from_image function to process it\n2. Present the results clearly\n3. Highlight any important findings\n4. Offer to extract specific information if needed\n\nAlways be precise, thorough, and helpful."

  /** The agent `_create_agent` registers: orchestration model, name, instructions and the one
      OCR function tool; `agentId` is the id the service gave it. */
  datatype AgentDefinition = AgentDefinition(agentId: string, model: string, name: string, instructions: string, tools: seq<string>)

  /** `DocumentOCRAgentFramework`: the registered agent and the OCR tool, both set once. */
  datatype Orchestrator = Orchestrator(agent: AgentDefinition, tool: OcrTool)

  /** `__init__` with the service's id for the new agent. */
  function NewOrchestrator(agentId: string, endpoint: string, apiKey: string, modelName: string, agentName: string): (r: Orchestrator)
    ensures r.agent.name == agentName && r.agent.model == OrchestrationModel && r.agent.tools == [ImageToolName]
    ensures r.agent.instructions == AgentInstructions && r.agent.agentId == agentId
    ensures r.tool == OcrTool(endpoint, apiKey, modelName)
  {
    Orchestrator(AgentDefinition(agentId, OrchestrationModel, agentName, AgentInstructions, [ImageToolName]),
                 OcrTool(endpoint, apiKey, modelName))
  }

  /** What the service does with a thread whose user message has the given content: the
      thread's id, the snapshots of the run one poll after another, and the thread's messages
      once the run has settled. */
  datatype ServiceRun = ServiceRun(threadId: string, polls: seq<RunSnapshot>, messages: seq<ThreadMessage>)

  type AgentService = string -> ServiceRun

  datatype DocumentResult = DocumentResult(markdown: string, agentId: string, threadId: string, runId: string, status: RunStatus)

  /** The run's polls settle, for the content this document would be sent with. */
  predicate Settles(service: AgentService, content: string)
  {
    SettledFrom(service(content).polls, 0).Some?
  }

  /** The reply `process_document` reads from a settled run, or the exception it raises. */
  function ReadReply(o: Orchestrator, run: ServiceRun, last: RunSnapshot): (r: Outcome<DocumentResult>)
    ensures last.status.Failed? ==> r == Failure(Exception(GenericError, RunFailedPrefix + last.lastError))
    ensures !last.status.Failed? && FirstAssistant(run.messages).None? ==> r == Failure(Exception(GenericError, NoResponseMessage))
    ensures r.Success? ==>
      && !last.status.Failed? && FirstAssistant(run.messages).Some?
      && r.value == DocumentResult(TextOf(run.messages[FirstAssistant(run.messages).value].content),
                                   o.agent.agentId, run.threadId, last.runId, last.status)
  {
    if last.status == Failed then Failure(Exception(GenericError, RunFailedPrefix + last.lastError))
    else
      match FirstAssistant(run.messages)
      case None => Failure(Exception(GenericError, NoResponseMessage))
      case Some(k) => Success(DocumentResult(TextOf(run.messages[k].content), o.agent.agentId, run.threadId, last.runId, last.status))
  }

  /** `process_document`: encode the image, send the message, poll the run, read the reply. */
  function ProcessDocumentResult(o: Orchestrator, input: ImageInput, given: Option<string>, tables: bool, formatting: bool,
                                 read: FileReader, service: AgentService, loads: ArgsParser, complete: Completion): Outcome<DocumentResult>
    requires EncodeImage(input, read).Success? ==> Settles(service, MessageContent(UserMessage(given, tables, formatting)))
  {
    match EncodeImage(input, read)
    case Failure(e) => Failure(e)
    case Success(_) =>
      var run := service(MessageContent(UserMessage(given, tables, formatting)));
      var poll := PollFrom(o.tool, run.polls, 0, loads, complete);
      match poll.outcome
      case Failure(e) => Failure(e)
      case Success(last) => ReadReply(o, run, last)
  }

  /** A successful result reports a run that has settled without failing, and the text of the
      first assistant message of the thread. */
  lemma ProcessDocumentSettled(o: Orchestrator, input: ImageInput, given: Option<string>, tables: bool, formatting: bool,
                               read: FileReader, service: AgentService, loads: ArgsParser, complete: Completion)
    requires EncodeImage(input, read).Success? ==> Settles(service, MessageContent(UserMessage(given, tables, formatting)))
    ensures var r := ProcessDocumentResult(o, input, given, tables, formatting, read, service, loads, complete);
      var run := service(MessageContent(UserMessage(given, tables, formatting)));
      r.Success? ==>
        && EncodeImage(input, read).Success?
        && !Active(r.value.status) && !r.value.status.Failed?
        && r.value.runId == run.polls[SettledFrom(run.polls, 0).value].runId
        && FirstAssistant(run.messages).Some?
        && r.value.markdown == TextOf(run.messages[FirstAssistant(run.messages).value].content)
    ensures EncodeImage(input, read).Failure? ==>
              ProcessDocumentResult(o, input, given, tables, formatting, read, service, loads, complete)
                == Failure(EncodeImage(input, read).error)
  {
    if EncodeImage(input, read).Success? {
      var run := service(MessageContent(UserMessage(given, tables, formatting)));
      PollEndsSettled(o.tool, run.polls, 0, loads, complete);
    }
  }

  /** The encoded image is computed but never sent: any two images that can be encoded give the
      same result of `process_document`. */
  lemma MessageOmitsImage(o: Orchestrator, input1: ImageInput, input2: ImageInput, given: Option<string>,
                          tables: bool, formatting: bool,
                          read: FileReader, service: AgentService, loads: ArgsParser, complete: Completion)
    requires EncodeImage(input1, read).Success? && EncodeImage(input2, read).Success?
    requires Settles(service, MessageContent(UserMessage(given, tables, formatting)))
    ensures ProcessDocumentResult(o, input1, given, tables, formatting, read, service, loads, complete)
            == ProcessDocumentResult(o, input2, given, tables, formatting, read, service, loads, complete)
  {
  }

  /** The steps of `process_document` (agent_framework_version.py:237-317) one by one; the
      function `ProcessDocumentResult` is what they compute. */
  method ProcessDocument(o: Orchestrator, input: ImageInput, given: Option<string>, tables: bool, formatting: bool,
                         read: FileReader, service: AgentService, loads: ArgsParser, complete: Completion)
    returns (r: Outcome<DocumentResult>, submitted: seq<seq<ToolOutput>>)
    requires EncodeImage(input, read).Success? ==> Settles(service, MessageContent(UserMessage(given, tables, formatting)))
    ensures r == ProcessDocumentResult(o, input, given, tables, formatting, read, service, loads, complete)
    ensures EncodeImage(input, read).Success? ==>
              submitted == PollFrom(o.tool, service(MessageContent(UserMessage(given, tables, formatting))).polls, 0, loads, complete).submitted
  {
    submitted := [];
    var imageBase64 := EncodeImage(input, read);
    if imageBase64.Failure? {
      return Failure(imageBase64.error), submitted;
    }
    var userMessage := BuildUserMessage(given, tables, formatting);
    var run := service(userMessage + ImageDataNote);
    var outcome;
    submitted, outcome := PollRun(o.tool, run.polls, loads, complete);
    if outcome.Failure? {
      return Failure(outcome.error), submitted;
    }
    var last := outcome.value;
    if last.status == Failed {
      return Failure(Exception(GenericError, RunFailedPrefix + last.lastError)), submitted;
    }
    var assistantMessage := FindAssistantMessage(run.messages);
    if assistantMessage.None? {
      return Failure(Exception(GenericError, NoResponseMessage)), submitted;
    }
    var markdown := CollectText(assistantMessage.value.content);
    r := Success(DocumentResult(markdown, o.agent.agentId, run.threadId, last.runId, last.status));
  }

  datatype ChatResult = ChatResult(response: string, threadId: string, runId: string, status: RunStatus)

  /** `chat`: like `process_document` but on a given or a new thread, with the message sent as
      it is; a failed run is not an error, and no assistant message gives an empty response. */
  function ChatReply(o: Orchestrator, message: string, threadId: Option<string>,
                     service: AgentService, loads: ArgsParser, complete: Completion): (r: Outcome<ChatResult>)
    requires Settles(service, message)
    ensures r.Failure? <==> PollFrom(o.tool, service(message).polls, 0, loads, complete).outcome.Failure?
    ensures r.Failure? ==> r.error == PollFrom(o.tool, service(message).polls, 0, loads, complete).outcome.error
    ensures r.Success? ==>
      var run := service(message);
      var last := run.polls[SettledFrom(run.polls, 0).value];
      && r.value.status == last.status && r.value.runId == last.runId
      && r.value.threadId == (if threadId.Some? then threadId.value else run.threadId)
      && !Active(r.value.status)
      && r.value.response == (if FirstAssistant(run.messages).Some? then TextOf(run.messages[FirstAssistant(run.messages).value].content) else "")
  {
    var run := service(message);
    var id := if threadId.Some? then threadId.value else run.threadId;
    var poll := PollFrom(o.tool, run.polls, 0, loads, complete);
    PollEndsSettled(o.tool, run.polls, 0, loads, complete);
    match poll.outcome
    case Failure(e) => Failure(e)
    case Success(last) =>
      var response := match FirstAssistant(run.messages)
        case None => ""
        case Some(k) => TextOf(run.messages[k].content);
      Success(ChatResult(response, id, last.runId, last.status))
  }

  /** The steps of `chat` (agent_framework_version.py:330-380) one by one; the function
      `ChatReply` is what they compute. */
  method Chat(o: Orchestrator, message: string, threadId: Option<string>,
              service: AgentService, loads: ArgsParser, complete: Completion)
    returns (r: Outcome<ChatResult>, submitted: seq<seq<ToolOutput>>)
    requires Settles(service, message)
    ensures r == ChatReply(o, message, threadId, service, loads, complete)
    ensures submitted == PollFrom(o.tool, service(message).polls, 0, loads, complete).submitted
  {
    var run := service(message);
    var id := if threadId.Some? then threadId.value else run.threadId;
    var outcome;
    submitted, outcome := PollRun(o.tool, run.polls, loads, complete);
    if outcome.Failure? {
      return Failure(outcome.error), submitted;
    }
    var assistantMessage := FindAssistantMessage(run.messages);
    var responseText := "";
    if assistantMessage.Some? {
      responseText := CollectText(assistantMessage.value.content);
    }
    r := Success(ChatResult(responseText, id, outcome.value.runId, outcome.value.status));
  }

  // ---------------------------------------------------------------------------
  // create_ocr_agent_with_framework

  const MissingEnvMessage := "Missing required environment variables: AZURE_AI_PROJECT_CONNECTION_STRING, MISTRAL_OCR_ENDPOINT, MISTRAL_OCR_KEY"

  datatype Settings = Settings(connectionString: string, endpoint: string, apiKey: string, modelName: string, agentName: string)

  /** The settings read from the environment (None for an unset variable). */
  function SettingsFromEnv(connVar: Option<string>, endpointVar: Option<string>, keyVar: Option<string>,
                           modelVar: Option<string>, agentNameVar: Option<string>): (r: Outcome<Settings>)
    ensures r.Success? <==> Present(connVar) && Present(endpointVar) && Present(keyVar)
    ensures r.Failure? ==> r.error == Exception(ValueError, MissingEnvMessage)
    ensures r.Success? ==>
      && r.value.connectionString == connVar.value && r.value.endpoint == endpointVar.value && r.value.apiKey == keyVar.value
      && r.value.modelName == (if modelVar.Some? then modelVar.value else DefaultModelName)
      && r.value.agentName == (if agentNameVar.Some? then agentNameVar.value else DefaultAgentName)
  {
    if !(Present(connVar) && Present(endpointVar) && Present(keyVar)) then Failure(Exception(ValueError, MissingEnvMessage))
    else Success(Settings(connVar.value, endpointVar.value, keyVar.value,
                          if modelVar.Some? then modelVar.value else DefaultModelName,
                          if agentNameVar.Some? then agentNameVar.value else DefaultAgentName))
  }
}
