# Smart document OCR on Azure: a verified model of the client-side logic

The repository wraps a Mistral OCR deployment on Azure in three Python clients. This project
models, in Dafny, what those clients do with texts, lists and JSON around the remote calls:

- **`SimpleOCR`** (`simple_ocr.py`, module `SimpleOcr`). It checks its configuration and picks a
  MIME type from the lower-cased file extension. It encodes the file as a base64 `data:` URL
  and builds the `/v1/ocr` request, whose `document` kind is `document_url` for PDFs and
  `image_url` otherwise. It accepts only status 200. It then turns the paginated JSON reply into
  one markdown text. Blank pages are dropped and headings carry the original page numbers.
  A reply that is not an object, has no `pages`, or whose `pages` has no length or length 0
  falls back to the JSON dump. A non-empty `pages` that is a string or an object, a page that
  is not an object, or a `markdown` that is not a string raises AttributeError, which the
  `except` clause does not catch.
- **`MistralOCRTool` / `DocumentOCRAgent`** (`agent/ocr_agent.py`, module `OcrAgent`). It
  builds the system prompt from flags, in a fixed order. It encodes the image and calls the
  chat model. It combines several images into numbered sections, and a failing image only
  spoils its own section. It parses the comma-separated path list of the agent's tool. The
  agent is created lazily, once, and every message goes through it.
- **`DocumentOCRAgentFramework`** (`agent_framework_version.py`, module `FrameworkAgent`). It
  builds the default user message from two flags and answers the service's tool calls addressed
  to the OCR tool. It polls the run while it is queued, in progress or requires action.
  `process_document` raises on a failed run, while `chat` returns the failed run with its
  status. The reply is the text items of the first assistant message, concatenated.

Shared pieces live in their own modules:

- `Wrappers`: Option, Result and the Python exceptions.
- `Text`: `join`, `split`, `strip`, `lower` and decimal formatting, with their laws.
- `Base64`: the standard alphabet with padding from section 4 of RFC 4648, with a strict decoder
  (non-zero padding bits are rejected, as section 3.5 of RFC 4648 allows) and the
  round trip.
- `DataUrl`: the base64 form of the `data:` URL from RFC 2397, with a parser and the round trip.
- `MistralChat`: the `_encode_image` dispatch and the chat request. Both agent files carry
  identical copies of them.

Everything remote or environmental is an input to the model:

| source behaviour | model input |
|---|---|
| reading a file | `FileReader` |
| `requests.post` | `Post` |
| `ChatCompletionsClient.complete` | `Completion` |
| `json.dumps` | `Dump` |
| `json.loads` of the tool arguments | `ArgsParser` |
| `agent.run` | `AgentRun` |
| the Azure AI Agent Service | `AgentService`: the run snapshots it reports, poll after poll, and the thread's messages |
| environment variables | `Option<string>` parameters |

Each of these inputs except `AgentService` can fail with the exception the real call would
raise. `AgentService` never fails; "## Left out" says what that leaves out.

For a multi-page reply the code (simple_ocr.py:100 and 106) puts `"\n\n## Page N\n\n"` in front of each page and joins
them with `"\n\n"`. Its output therefore starts with two newlines, and neighbouring pages are four
newlines apart. `SimpleOcr.TwoPages` proves exactly that text.

## Model

| member | source | states |
|---|---|---|
| SimpleOcr.New | simple_ocr.py:18-25 | construction succeeds exactly when endpoint and key are both set and non-empty, else ValueError with the fixed message; the model name defaults to `mistral-ocr-2503` |
| SimpleOcr.Components | simple_ocr.py:29 | the path components kept are the non-empty ones other than `.`, each one of the split parts |
| SimpleOcr.ComponentsAppend | simple_ocr.py:29 | the components of two runs of parts are those of the first followed by those of the second, so with `ComponentsSingle` every part other than "" and `.` is kept, in order |
| SimpleOcr.ComponentsSingle | simple_ocr.py:29 | a single part is kept exactly when it is neither empty nor `.` |
| SimpleOcr.Name | simple_ocr.py:29 | reference definition of `Path(p).name` (no contract of its own): the last kept component, or ""; `NameAfterDirectory` states what it gives |
| SimpleOcr.NameAfterDirectory | simple_ocr.py:29 | the name of a path made of a directory (empty or ending in `/`) and a component without `/` is that component |
| SimpleOcr.LastIndexOf | simple_ocr.py:29 | the position found holds the character and no later position does; None means the character does not occur |
| SimpleOcr.LastIndexOfAt | simple_ocr.py:29 | the last occurrence of a character is found wherever it is |
| SimpleOcr.Suffix | simple_ocr.py:29 | a non-empty suffix is a proper tail of the name, starts with its only dot and has at least one character after it; when the last dot is neither the first nor the last character the suffix is the name from that dot; with no dot or a leading last dot it is "" |
| SimpleOcr.SuffixAfterStem | simple_ocr.py:29 | the suffix of `stem.ext`, for a non-empty stem and a non-empty `ext` without a dot, is `.ext` |
| SimpleOcr.Extension | simple_ocr.py:29 | reference definition of `Path(file_path).suffix.lower()` (no contract of its own); `ExtensionOf` states what it gives |
| SimpleOcr.ExtensionOf | simple_ocr.py:29 | a file `stem.ext` in any directory has the extension `.ext` lower-cased |
| SimpleOcr.LowerPdf | simple_ocr.py:29 | `.PDF` lower-cases to `.pdf` |
| SimpleOcr.UpperCasePdf | simple_ocr.py:29-65 | `scans/Invoice.PDF` has the extension `.pdf`, so it is sent as `application/pdf` with the `document_url` kind |
| SimpleOcr.MimeType | simple_ocr.py:35-42 | the MIME type is always one of `application/pdf`, `image/png`, `image/jpeg` and never holds `;` |
| SimpleOcr.MimeTypeTable | simple_ocr.py:35-42 | `.pdf` and only `.pdf` gives `application/pdf`; `.jpg`/`.jpeg` and only they give `image/jpeg`; every other extension, `.png` included, gives `image/png` |
| SimpleOcr.EncodeFile | simple_ocr.py:27-42 | reference definition of `encode_file` (no contract of its own): `data:` + MIME type + `;base64,` + the base64 of the bytes; `EncodeFileRoundTrip` states what it carries |
| SimpleOcr.EncodeFileRoundTrip | simple_ocr.py:27-42 | the data URL of a file parses back to the extension's MIME type and exactly the file's bytes |
| SimpleOcr.DocumentKind | simple_ocr.py:58-75 | the kind is `document_url` exactly for `.pdf` and `image_url` exactly otherwise |
| SimpleOcr.BuildRequest | simple_ocr.py:51-78 | the URL is the endpoint plus `/v1/ocr`; the headers are the Bearer key and JSON content type; the payload names the configured model; the document has exactly the keys `type` and that kind, and the key named by `type` holds the file's data URL; the timeout is 60 s |
| SimpleOcr.RequestFailedRoundTrip | simple_ocr.py:84 | the failure message carries the status code and the body text, both recoverable from it |
| SimpleOcr.StatusAndTextRoundTrip | simple_ocr.py:84 | the status digits followed by ` - ` and the body text read back as that status and text |
| SimpleOcr.ProcessFile | simple_ocr.py:44-84 | a read error or transport error is raised unchanged; status 200 gives the parsed body; any other status raises with the status code and body text |
| SimpleOcr.TypeName | simple_ocr.py:96-97 | Python's type name of a decoded JSON value, `int` and `float` told apart (no contract of its own); `FloatPageRaises` uses it |
| SimpleOcr.FloatPageRaises | simple_ocr.py:92-97 | a reply whose only page is a JSON float raises AttributeError for `get`, naming the type `float` |
| SimpleOcr.PageMarkdown | simple_ocr.py:96-97 | a page yields markdown exactly when it is an object whose `markdown`, if present, is a string; otherwise AttributeError |
| SimpleOcr.Markdowns | simple_ocr.py:95-97 | the markdowns of all pages, in order and one per page, exactly when every page has one; otherwise an AttributeError |
| SimpleOcr.Heading | simple_ocr.py:100 | reference definition of the page heading (no contract of its own); `FirstHeadings` and `MultiPageHeadings` state its text |
| SimpleOcr.Sections | simple_ocr.py:94-103 | reference definition of `all_markdown` (no contract of its own); `SectionsAtKeptIndices`, `AllBlankGivesEmpty` and `MultiPageHeadings` state what it holds |
| SimpleOcr.KeptIndices | simple_ocr.py:95-97 | reference definition of the positions of the kept pages (no contract of its own); `KeptIndicesIncreasing` and `KeptIndicesNonBlank` characterise it |
| SimpleOcr.Combined | simple_ocr.py:94-107 | reference definition of the combined markdown (no contract of its own); `SinglePageVerbatim`, `TwoPages`, `BlankThenPage` and `MultiPageHeadings` state its text |
| SimpleOcr.Normalize | simple_ocr.py:91-114 | reference definition of the `try` block (no contract of its own); `NormalizeFallback`, `NormalizeRaisesOnlyAttributeError` and `NormalizeWellFormed` state its cases |
| SimpleOcr.Extracted | simple_ocr.py:86-114 | reference definition of `extract_text` (no contract of its own): `ProcessFile`, then `Normalize`; `ExtractText` is proved to compute it |
| SimpleOcr.ExtractText | simple_ocr.py:86-114 | the result is that of `extract_text`: fetch errors propagate, an unusable reply gives the dump, a non-list page container raises AttributeError, a page list is combined |
| SimpleOcr.CombinePages | simple_ocr.py:94-107 | the loop stops with the first page's error, or returns the combination of all page markdowns |
| SimpleOcr.MarkdownsFirstFailure | simple_ocr.py:95-97 | the error reported is the one of the first page without markdown |
| SimpleOcr.SectionsAtKeptIndices | simple_ocr.py:95-103 | each kept page yields the section for its original index, and there is one section per kept page |
| SimpleOcr.KeptIndicesIncreasing | simple_ocr.py:95-97 | the kept pages appear in their original order |
| SimpleOcr.KeptIndicesNonBlank | simple_ocr.py:97 | a page is kept exactly when its markdown does not strip to empty |
| SimpleOcr.SinglePageVerbatim | simple_ocr.py:102-103 | a single-page reply is that page's markdown verbatim, with no heading and no stripping, or "" when blank |
| SimpleOcr.AllBlankGivesEmpty | simple_ocr.py:97-106 | when every page is blank nothing is kept, so the result is "" and not the dump |
| SimpleOcr.MultiPageHeadings | simple_ocr.py:99-106 | with more than one page each kept section begins with the heading of its original page number, and a non-empty result begins with `\n\n## Page ` |
| SimpleOcr.NormalizeFallback | simple_ocr.py:92-114 | a reply that is not an object, has no `pages`, or whose `pages` has no length or length 0 gives the JSON dump of the whole reply |
| SimpleOcr.NormalizeRaisesOnlyAttributeError | simple_ocr.py:111-114 | the only exception that escapes the normalisation is AttributeError |
| SimpleOcr.NormalizeWellFormed | simple_ocr.py:92-107 | a non-empty list of well-formed pages is combined, never dumped |
| SimpleOcr.SectionsOfTwoPages | simple_ocr.py:95-103 | two non-blank pages give the sections headed Page 1 and Page 2 |
| SimpleOcr.SectionsOfBlankPage | simple_ocr.py:97 | a blank page gives no section |
| SimpleOcr.SectionsOfBlankThenPage | simple_ocr.py:95-103 | after a blank first page the second keeps its own number, 2 |
| SimpleOcr.TwoPages | simple_ocr.py:100-106 | two non-blank pages combine to `"\n\n## Page 1\n\n" + a + "\n\n" + "\n\n## Page 2\n\n" + b` |
| SimpleOcr.BlankThenPage | simple_ocr.py:97-106 | a blank first page and a non-blank second give `"\n\n## Page 2\n\n" + b` |
| SimpleOcr.FirstHeadings | simple_ocr.py:100 | the headings of pages 1 and 2 are the literal texts `\n\n## Page 1\n\n` and `\n\n## Page 2\n\n` |
| Text.Split | agent/ocr_agent.py:283 | `split` always yields at least one piece |
| Text.SplitFree | agent/ocr_agent.py:283 | text without the separator splits into itself alone |
| Text.SplitAtSeparator | simple_ocr.py:29 | splitting at a separator gives the pieces before it followed by the pieces after it |
| Text.SplitCount | agent/ocr_agent.py:283 | `split` yields one more piece than there are separators |
| Text.SplitPiecesFree | agent/ocr_agent.py:283 | no piece holds the separator |
| Text.SplitJoin | agent/ocr_agent.py:283 | joining the pieces with the separator gives back the text that was split |
| Text.SplitOfJoin | agent/ocr_agent.py:283 | splitting separator-free pieces joined by the separator gives those pieces back |
| Text.Join | simple_ocr.py:106 | reference definition of `sep.join(parts)` (no contract of its own); `JoinSnoc`, `JoinLength`, `SplitJoin` and `SplitOfJoin` state its laws |
| Text.JoinSnoc | agent/ocr_agent.py:180 | joining one more part appends the separator and that part, and a single part is joined to itself |
| Text.JoinLength | simple_ocr.py:106 | the joined text is as long as the parts plus one separator between each neighbour |
| Text.TrimStartSpec | simple_ocr.py:97 | the text left after leading whitespace is removed is a suffix that does not start with whitespace, and only whitespace was removed |
| Text.TrimEndSpec | simple_ocr.py:97 | the text left after trailing whitespace is removed is a prefix that does not end with whitespace, and only whitespace was removed |
| Text.Strip | simple_ocr.py:97 | reference definition of `str.strip()` (no contract of its own); `StripBlank`, `StripSpan` and `StripChars` characterise it |
| Text.StripBlank | simple_ocr.py:97 | `strip()` is empty exactly for all-whitespace text; otherwise it neither starts nor ends with whitespace |
| Text.StripSpan | agent/ocr_agent.py:283 | `strip()` is a contiguous piece of the text with only whitespace cut off on either side |
| Text.StripChars | agent/ocr_agent.py:283 | stripping introduces no character the text did not have |
| Text.Lower | simple_ocr.py:29 | lower-casing keeps the length and maps each character on its own |
| Text.LowerIdempotent | simple_ocr.py:29 | lower-casing twice is lower-casing once, and no ASCII capital is left |
| Text.NatToStringDigits | simple_ocr.py:100 | the decimal text of a number is all digits, with a leading `0` only for zero |
| Text.NatToString | simple_ocr.py:100 | the decimal text of a number is never empty; `NatToStringDigits` and `NatToStringRoundTrip` characterise it |
| Text.DigitRun | simple_ocr.py:84 | the leading digit run ends at the first non-digit |
| Text.DigitRunOf | simple_ocr.py:84 | a digit run followed by a non-digit is read up to exactly that non-digit |
| Text.NatToStringRoundTrip | simple_ocr.py:84-100 | reading the decimal text back gives the number |
| Text.NatToStringInjective | agent/ocr_agent.py:176 | different numbers have different decimal texts |
| Text.NumberAfterPrefix | agent/ocr_agent.py:176 | a number written between a fixed prefix and a non-digit is read back unambiguously |
| Base64.CharOf | simple_ocr.py:32 | an alphabet character is never the padding `=` |
| Base64.ValueOf | simple_ocr.py:32 | a recognised character's value is below 64 and maps back to that character |
| Base64.ValueOfCharOf | simple_ocr.py:32 | every 6-bit value's character is recognised as that value |
| Base64.Encode | simple_ocr.py:32 | reference definition of `base64.b64encode(...).decode()` (no contract of its own); `EncodeLength`, `EncodeAlphabet` and `DecodeEncode` characterise it |
| Base64.Decode | simple_ocr.py:32 | a strict base64 decoder that rejects non-zero padding bits (no contract of its own); `DecodeEncode` and `EncodeDecode` prove it is exactly the inverse of `Encode` |
| Base64.EncodeLength | simple_ocr.py:32 | the encoding has 4 characters for every started group of 3 bytes |
| Base64.DecodeEncode | simple_ocr.py:32 | decoding the encoding of any bytes gives back exactly those bytes |
| Base64.EncodeAlphabet | simple_ocr.py:32 | the encoding uses only the 64-character alphabet and `=`, and `=` only in the last two positions |
| Base64.EncodeDecode | simple_ocr.py:32 | only canonical text decodes: any text that decodes is the encoding of the bytes it gives |
| Base64.EncodeDecodeGroup | simple_ocr.py:32 | every four-character group that decodes is the encoding of its one, two or three bytes |
| Base64.EncodeInjective | simple_ocr.py:32 | different byte strings have different encodings |
| DataUrl.IndexOfChar | simple_ocr.py:36-42 | the position found is the first occurrence of the character; None means it does not occur |
| DataUrl.IndexOfCharAt | simple_ocr.py:36-42 | the first occurrence is found wherever it is |
| DataUrl.ParseDataUri | simple_ocr.py:36-42 | `data:<mime>;base64,<b64 of bytes>` parses back to that MIME type and those bytes |
| MistralChat.EncodeImage | agent/ocr_agent.py:46-71 | encoding succeeds exactly when the input's bytes can be had, and the result is the base64 encoding of those bytes and decodes back to them; otherwise it raises the same exception |
| MistralChat.ImageBytes | agent/ocr_agent.py:56-69 | reference definition of the bytes `_encode_image` encodes per input kind (no contract of its own); `EncodeImageDispatch` states each case |
| MistralChat.EncodeImageDispatch | agent_framework_version.py:173-187 | a path is read and its bytes or its read error are used; bytes are used unchanged; a PIL image contributes its PNG bytes; any other type raises ValueError `Unsupported image input type` |
| MistralChat.OcrRequest | agent/ocr_agent.py:118-146 | the request holds the system prompt, then one user message with the image URL and the conversion text; a parsable URL announces `image/png`; temperature 0.0 and at most 4096 tokens for the configured model |
| MistralChat.ImageUrlLabel | agent/ocr_agent.py:129 | whatever the payload, a parsable image URL is labelled `image/png` |
| MistralChat.ImageUrlCarriesBytes | agent/ocr_agent.py:115-129 | for an encodable input the image URL parses to `image/png` and exactly the input's bytes, whatever its real format |
| OcrAgent.BuildSystemPrompt | agent/ocr_agent.py:92-112 | the prompt assembled by successive `+=` is the base prompt, then the tables line iff asked, then the formatting line iff asked, then the custom line iff non-empty, in that order |
| OcrAgent.SystemPrompt | agent/ocr_agent.py:92-112 | reference definition of the prompt (no contract of its own); `PromptOptionsRoundTrip` and `SystemPromptInjective` state that it records exactly its options |
| OcrAgent.CustomOptionsOf | agent/ocr_agent.py:111-112 | the custom line reads back as the non-empty instructions, and its absence as none |
| OcrAgent.OptionsAfterTablesOf | agent/ocr_agent.py:107-112 | after the tables line, the formatting flag and custom instructions read back as given |
| OcrAgent.TailAfterTables | agent/ocr_agent.py:105-112 | what follows the place of the tables line differs from that line, so the tables line cannot be mistaken |
| OcrAgent.OptionsAfterBaseOf | agent/ocr_agent.py:105-112 | after the base prompt, all three options read back as given |
| OcrAgent.PromptOptionsRoundTrip | agent/ocr_agent.py:92-112 | reading a prompt back gives exactly the flags and the custom instructions it was built from, empty instructions counting as none |
| OcrAgent.SystemPromptInjective | agent/ocr_agent.py:92-112 | different options give different prompts |
| OcrAgent.ImageRequest | agent/ocr_agent.py:114-138 | a readable image gives the request with the flags' prompt, the model name and a URL carrying exactly the file's bytes as PNG; an unreadable one raises the read error |
| OcrAgent.ImageText | agent/ocr_agent.py:114-151 | a read error is raised unchanged; otherwise the result is the model's answer to that request |
| OcrAgent.ExtractTextFromImage | agent/ocr_agent.py:73-151 | the method gives the result of `extract_text_from_image` |
| OcrAgent.ImageResults | agent/ocr_agent.py:170-175 | one result per path, each extracted with tables and formatting on and the custom instructions |
| OcrAgent.PageSection | agent/ocr_agent.py:176-178 | reference definition of one section (no contract of its own); `MultiImageSections` and `PageSectionHeading` state its text and number |
| OcrAgent.PageSections | agent/ocr_agent.py:170-178 | reference definition of `all_pages_markdown` (no contract of its own); `PageSectionsPointwise` characterises it |
| OcrAgent.MultiImageText | agent/ocr_agent.py:168-181 | reference definition of the combined text (no contract of its own); `MultiImageTextSnoc` and `MultiImageSections` state it |
| OcrAgent.PageSectionsLength | agent/ocr_agent.py:170-178 | one section per result |
| OcrAgent.PageSectionAt | agent/ocr_agent.py:170-178 | the k-th section is numbered k+1 and holds the k-th result |
| OcrAgent.PageSectionsPointwise | agent/ocr_agent.py:170-178 | one section per result, in order, each numbered from 1 and holding only its own result, so a failure neither stops the batch nor touches other sections |
| OcrAgent.MultiImageSections | agent/ocr_agent.py:170-178 | the k-th section is `## Page k+1` followed by the k-th image's text, or by `Error processing image: ` and its exception message |
| OcrAgent.PageSectionsSnoc | agent/ocr_agent.py:170-178 | one more result adds its numbered section at the end |
| OcrAgent.ImageResultsSnoc | agent/ocr_agent.py:170-175 | one more path adds its result at the end |
| OcrAgent.MultiImageTextSnoc | agent/ocr_agent.py:168-181 | no images give ""; one more image adds the `---` separator and its section |
| OcrAgent.PageSectionHeading | agent/ocr_agent.py:176-178 | equal sections carry the same page number |
| OcrAgent.ExtractTextFromMultipleImages | agent/ocr_agent.py:153-181 | the loop's result is the numbered sections of all images, joined by `\n\n---\n\n` |
| OcrAgent.StripAll | agent/ocr_agent.py:283 | every piece is stripped, in place and in order |
| OcrAgent.ParsePaths | agent/ocr_agent.py:283 | there are as many paths as commas plus one; each is its stripped piece of the split, holds no comma, and neither starts nor ends with whitespace |
| OcrAgent.ParsePathsJoin | agent/ocr_agent.py:283 | stripped, comma-free paths written as a comma-separated list parse back to themselves |
| OcrAgent.MultipleImagesTool | agent/ocr_agent.py:268-287 | the tool combines the parsed paths, one section per comma plus one |
| OcrAgent.AgentInstructions | agent/ocr_agent.py:221-236 | given instructions, even empty ones, are kept; the default is used only when none are given |
| OcrAgent.FullMessage | agent/ocr_agent.py:319-323 | reference definition of the message sent (no contract of its own); `FullMessageKeepsPath` states what it keeps |
| OcrAgent.FullMessageKeepsPath | agent/ocr_agent.py:319-323 | the message sent starts with the user's text and shows whether a non-empty path was given and which one |
| OcrAgent.DocumentOcrAgent.constructor | agent/ocr_agent.py:187-237 | a new agent holds the tool configuration and the chosen instructions, and no chat agent yet |
| OcrAgent.DocumentOcrAgent.EnsureAgent | agent/ocr_agent.py:316-317 | afterwards the agent exists; an existing agent is kept and never re-created, a missing one is created once with the instructions |
| OcrAgent.DocumentOcrAgent.ProcessDocument | agent/ocr_agent.py:301-327 | the agent is created at most once over the object's life, and the reply is the agent's answer to the message with the image note added only for a non-empty path |
| OcrAgent.DocumentOcrAgent.Chat | agent/ocr_agent.py:329-343 | the agent is created at most once, and the reply is its answer to the message as it is |
| OcrAgent.ConfigFromEnv | agent/ocr_agent.py:364-372 | configuration succeeds exactly when endpoint and key are set and non-empty, else ValueError with the fixed message; the model defaults to `mistral-ocr-2503` |
| OcrAgent.CreateFromEnv | agent/ocr_agent.py:354-381 | a complete environment gives a fresh agent with that configuration, the default instructions and no chat agent yet; otherwise the configuration error |
| FrameworkAgent.ToolPrompt | agent_framework_version.py:49-57 | instructions that are missing or empty are replaced by the default prompt; others are used as given |
| FrameworkAgent.ToolRequest | agent_framework_version.py:59-81 | the request holds that prompt and the image URL with the conversion text, for the configured model at temperature 0.0 and 4096 tokens; a missing image is written as `None` |
| FrameworkAgent.ToolRequestCarriesImage | agent_framework_version.py:66 | the base64 of some bytes is sent as a URL that parses to exactly those bytes, labelled PNG |
| FrameworkAgent.OcrCalls | agent_framework_version.py:193-194 | the selected calls are no more than the calls |
| FrameworkAgent.OcrCallsFilter | agent_framework_version.py:193-194 | only calls named `extract_text_from_image` are selected, each one of the calls |
| FrameworkAgent.OcrCallsAppend | agent_framework_version.py:193-194 | the OCR calls of two runs of calls are those of the first followed by those of the second |
| FrameworkAgent.OcrCallsSingle | agent_framework_version.py:193-194 | a single call is selected exactly when it is named `extract_text_from_image`; with `OcrCallsAppend` the selection is exactly the named calls, in order |
| FrameworkAgent.OcrCallsKeepsNamed | agent_framework_version.py:193-194 | every call named `extract_text_from_image` is selected: none is skipped |
| FrameworkAgent.ToolOutputs | agent_framework_version.py:191-207 | reference definition of `tool_outputs` (no contract of its own); `ToolOutputsSucceed` and `ToolOutputsMatchCalls` characterise it |
| FrameworkAgent.AllSucceedSnoc | agent_framework_version.py:193-207 | all of a list plus one call succeed exactly when the list does and that call does |
| FrameworkAgent.ToolOutputsSucceed | agent_framework_version.py:189-207 | handling succeeds exactly when every OCR call's arguments parse and its completion succeeds |
| FrameworkAgent.ToolOutputsMatchCalls | agent_framework_version.py:193-207 | a successful handling gives one output per OCR call, in order, each with its own call's id and result; other calls give nothing |
| FrameworkAgent.HandleToolCalls | agent_framework_version.py:189-215 | the loop raises the first failing call's exception; otherwise it submits the outputs once when there are any and nothing otherwise |
| FrameworkAgent.FailureStops | agent_framework_version.py:193-202 | once handling a prefix of the calls fails, handling all of them fails the same way |
| FrameworkAgent.SettledFrom | agent_framework_version.py:273 | the snapshot found is the first from that point whose status is neither queued, in progress nor requiring action |
| FrameworkAgent.Handled | agent_framework_version.py:274-276 | reference definition of one turn's submissions (no contract of its own); `PollStep` and `PollWithoutAction` state its use |
| FrameworkAgent.PollFrom | agent_framework_version.py:273-284 | reference definition of the polling loop (no contract of its own); `PollEndsSettled`, `PollWithoutAction` and `PollStep` characterise it |
| FrameworkAgent.PollEndsSettled | agent_framework_version.py:273-284 | a loop that ends normally ends on the first settled snapshot, whose status is outside the polling set |
| FrameworkAgent.PollWithoutAction | agent_framework_version.py:273-276 | a run that never requires action before it settles submits nothing and ends on its first settled snapshot |
| FrameworkAgent.PollStep | agent_framework_version.py:273-284 | one turn: an active snapshot's submissions come before the rest of the loop's, unless handling its tool calls raises |
| FrameworkAgent.PollRun | agent_framework_version.py:273-284 | the loop submits and ends as the polling definition says: tool calls handled only for snapshots requiring action, stopping at the first settled one or the first raised exception |
| FrameworkAgent.FirstAssistant | agent_framework_version.py:293-297 | the position found holds an assistant message and no earlier one does; None means there is none |
| FrameworkAgent.FindAssistantMessage | agent_framework_version.py:293-297 | the loop with `break` picks the first assistant message, or none |
| FrameworkAgent.TextOf | agent_framework_version.py:303-306 | reference definition of the message text (no contract of its own); `TextOfAppend`, `TextOfIgnoresOthers` and `TextOfContainsItems` characterise it |
| FrameworkAgent.TextOfAppend | agent_framework_version.py:303-306 | the text of two runs of items is the first's text followed by the second's |
| FrameworkAgent.TextOfIgnoresOthers | agent_framework_version.py:305 | items without text contribute nothing |
| FrameworkAgent.TextOfContainsItems | agent_framework_version.py:303-306 | each text item's value appears whole, right after the text of the items before it |
| FrameworkAgent.CollectText | agent_framework_version.py:303-306 | the loop's text is the concatenation of the text items' values, in order |
| FrameworkAgent.UserMessageCases | agent_framework_version.py:240-251 | a given message is used unchanged; otherwise the default request, then `, ` and the phrases asked for joined by ` and ` (tables first) when there are any, then `.` |
| FrameworkAgent.UserMessage | agent_framework_version.py:240-251 | reference definition of the user message (no contract of its own); `UserMessageCases` states it for every choice of flags |
| FrameworkAgent.BuildUserMessage | agent_framework_version.py:240-251 | the message built by appending to the instruction list is the user message of the flags |
| FrameworkAgent.MessageContentParts | agent_framework_version.py:258 | the content sent is the user message followed by the image-data note |
| FrameworkAgent.MessageOmitsImage | agent_framework_version.py:237-264 | any two images that can be encoded give the same result of `process_document`: the encoded image is never sent to the service |
| FrameworkAgent.NewOrchestrator | agent_framework_version.py:110-171 | the agent is registered with the `gpt-4o` model, the given name, the fixed instructions and the one OCR tool; the OCR tool holds the given configuration |
| FrameworkAgent.ReadReply | agent_framework_version.py:286-317 | a FAILED run raises with its last error; no assistant message raises `No response from agent`; otherwise the result is the text of the first assistant message with the agent, thread and run ids and the status |
| FrameworkAgent.ProcessDocumentResult | agent_framework_version.py:217-317 | reference definition of `process_document` (no contract of its own); `ProcessDocumentSettled`, `MessageOmitsImage` and `ReadReply` state its cases |
| FrameworkAgent.ProcessDocumentSettled | agent_framework_version.py:217-317 | a successful result reports the first settled snapshot, which did not fail, and the text of the first assistant message; an image that cannot be encoded raises its error |
| FrameworkAgent.ProcessDocument | agent_framework_version.py:217-317 | the method gives the result of `process_document`, and what it submitted is what the polling loop submits |
| FrameworkAgent.ChatReply | agent_framework_version.py:319-380 | chat fails exactly when handling tool calls during polling raises, with that exception; a FAILED run is returned with its status, not raised; a successful chat reports the given thread or the new one, the first settled snapshot's run id and status, and the first assistant message's text or "" when there is none |
| FrameworkAgent.Chat | agent_framework_version.py:319-380 | the method gives the result of `chat`, and what it submitted is what the polling loop submits |
| FrameworkAgent.SettingsFromEnv | agent_framework_version.py:397-411 | the settings succeed exactly when the connection string, endpoint and key are all set and non-empty, else ValueError with the fixed message; model and agent name have their defaults |

## Left out

- HTTP and SDK calls are not modelled. This covers `requests.post`, `ChatCompletionsClient.complete`, `agent.run` and the `project_client.agents.*` calls. Each is a function-valued input. `requests.post`, `complete` and `agent.run` return a value or the exception they raise. The `project_client.agents.*` calls are one `AgentService` input that cannot fail; the lines on `FrameworkAgent.ProcessDocument` and `FrameworkAgent.Chat` below say what that leaves out.
- File reads and `json.dumps` are the inputs `FileReader` and `Dump`. The JSON library's formatting is not modelled.
- `response.json()` is not modelled. The reply carries its decoded body, or the decoding error, as a value.
- PIL loading and PNG saving are not modelled. A PIL image is represented by the bytes its PNG encoder writes.
- `dotenv` loading and `os.getenv` are not modelled. The environment values are `Option<string>` parameters.
- `time.sleep`, `async`/`await` scheduling and OpenTelemetry setup (`setup_observability`) are not modelled. They concern timing, concurrency and tracing, not the logic.
- The `print` calls in `process_file` and `extract_text` are not modelled. They are console output only.
- `cleanup` and the Azure credential objects are not modelled. They are remote side effects with no effect on the results.
- FrameworkAgent.ProcessDocument: the `create_thread`, `create_message`, `create_run`, `get_run`, `list_messages` and `delete_thread` calls are taken never to raise, because `AgentService` has no failure case. In the source each of them can raise, and a raising `delete_thread` (agent_framework_version.py:309) turns an otherwise successful result into that exception.
- FrameworkAgent.Chat: the `create_thread`, `get_thread`, `create_message`, `create_run`, `get_run` and `list_messages` calls are likewise taken never to raise.
- OcrAgent.DocumentOcrAgent.EnsureAgent: `_create_agent` is taken never to fail. In the source `AzureAIAgentClient(...)` and `create_agent` can raise, and the agent then stays unset.
- The `telemetry` and `credential` attributes of the agents are not modelled.
- FrameworkAgent.PollRun: it requires the reported statuses to settle eventually. The Python loop would poll forever otherwise, and a non-terminating poll is not modelled.
- FrameworkAgent.ProcessDocument: it requires the run to settle, for the same reason.
- FrameworkAgent.Chat: it requires the run to settle, for the same reason.
- FrameworkAgent.ProcessDocument: the service is modelled as a function of the message content alone. The model does not capture how the service reacts to the submitted tool outputs, nor the thread id passed to `chat`.
- MistralChat.EncodeImage: a PIL image whose `save` raises is not modelled, since PIL is out.
- OcrAgent.ImageText: the model's reply is taken to be a string. A `None` content, which Python would format as `None` in the multi-image sections, is not modelled.
- Text.Lower: it lower-cases ASCII letters only. Python's `str.lower` also folds other scripts, but no non-ASCII character lower-cases to a letter of `.pdf`, `.png`, `.jpg` or `.jpeg`, so the MIME choice is the same.
- SimpleOcr.Components: `Path(...)` is modelled as a POSIX path. Windows drive and backslash handling are not modelled.
- app.py, simple_app.py, demo.py, demo_script.py, simple_demo.py, infra/__main__.py and agent/__init__.py are not part of this model. They hold the UI, demos, infrastructure declarations and re-exports.
