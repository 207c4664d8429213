/** What the two agent variants share with each other: the `_encode_image` input dispatch and
    the chat request they send to the Mistral OCR deployment (agent/ocr_agent.py and
    agent_framework_version.py carry identical copies of both). */
module MistralChat {
  import opened Wrappers
  import opened Base64
  import DataUrl

  const DefaultModelName := "mistral-ocr-2503"
  const UnsupportedInputMessage := "Unsupported image input type"
  const ConvertInstruction := "Please convert this document to detailed markdown format."
  const MaxTokens := 4096

  /** The configuration of a `MistralOCRTool`; its `__init__` sets it once. */
  datatype OcrTool = OcrTool(endpoint: string, apiKey: string, modelName: string)

  /** What `_encode_image` may be handed. A PIL image is represented by the bytes its PNG
      encoder writes; any other Python type only by its name. */
  datatype ImageInput =
    | FilePath(path: string)
    | RawBytes(data: seq<byte>)
    | PilImage(pngBytes: seq<byte>)
    | OtherType(typeName: string)

  /** Reading a file: its bytes, or the exception `open`/`read` raises. */
  type FileReader = string -> Outcome<seq<byte>>

  /** The bytes `_encode_image` encodes for each kind of input. */
  function ImageBytes(input: ImageInput, read: FileReader): Outcome<seq<byte>>
  {
    match input
    case FilePath(p) => read(p)
    case RawBytes(d) => Success(d)
    case PilImage(png) => Success(png)
    case OtherType(_) => Failure(Exception(ValueError, UnsupportedInputMessage))
  }

  /** `_encode_image`: the base64 text of the input's bytes. */
  function EncodeImage(input: ImageInput, read: FileReader): (r: Outcome<string>)
    ensures r.Success? <==> ImageBytes(input, read).Success?
    ensures r.Success? ==> r.value == Encode(ImageBytes(input, read).value)
    ensures r.Success? ==> Decode(r.value) == Some(ImageBytes(input, read).value)
    ensures r.Failure? ==> r.error == ImageBytes(input, read).error
  {
    match ImageBytes(input, read)
    case Failure(e) => Failure(e)
    case Success(bytes) => DecodeEncode(bytes); Success(Encode(bytes))
  }

  /** Per kind of input: a path is read, bytes are used unchanged, a PIL image contributes its
      PNG bytes, and any other type raises ValueError. */
  lemma EncodeImageDispatch(input: ImageInput, read: FileReader)
    ensures input.FilePath? ==>
      (EncodeImage(input, read).Success? <==> read(input.path).Success?) &&
      (read(input.path).Failure? ==> EncodeImage(input, read) == Failure(read(input.path).error)) &&
      (read(input.path).Success? ==> Decode(EncodeImage(input, read).value) == Some(read(input.path).value))
    ensures input.RawBytes? ==> Decode(EncodeImage(input, read).value) == Some(input.data)
    ensures input.PilImage? ==> Decode(EncodeImage(input, read).value) == Some(input.pngBytes)
    ensures input.OtherType? ==> EncodeImage(input, read) == Failure(Exception(ValueError, UnsupportedInputMessage))
  {
  }

  // ---------------------------------------------------------------------------
  // The chat completion request sent to the OCR model

  datatype ChatMessage =
    | SystemMessage(content: string)
    | UserImageMessage(imageUrl: string, text: string)

  datatype ChatRequest = ChatRequest(messages: seq<ChatMessage>, model: string, temperature: real, maxTokens: nat)

  /** `ChatCompletionsClient.complete`: `choices[0].message.content` of the reply, or the
      exception the call raises. */
  type Completion = ChatRequest -> Outcome<string>

  /** The data URL of the image, always labelled `image/png` whatever the input's format. */
  function ImageUrl(imageBase64: string): string
  {
    DataUrl.DataUri("image/png", imageBase64)
  }

  /** The request: the system prompt, then one user message holding the image and the
      conversion instruction; deterministic sampling and at most 4096 tokens. */
  function OcrRequest(systemPrompt: string, imageBase64: string, model: string): (r: ChatRequest)
    ensures |r.messages| == 2 && r.messages[0] == SystemMessage(systemPrompt)
    ensures r.messages[1].UserImageMessage?
    ensures DataUrl.Parse(r.messages[1].imageUrl).Some? ==>
              DataUrl.Parse(r.messages[1].imageUrl).value.0 == "image/png"
    ensures r.model == model && r.temperature == 0.0 && r.maxTokens == MaxTokens
  {
    var url := ImageUrl(imageBase64);
    ImageUrlLabel(imageBase64);
    ChatRequest([SystemMessage(systemPrompt), UserImageMessage(url, ConvertInstruction)], model, 0.0, MaxTokens)
  }

  /** Whatever the payload, a parsable image URL announces `image/png`. */
  lemma ImageUrlLabel(imageBase64: string)
    ensures DataUrl.Parse(ImageUrl(imageBase64)).Some? ==>
              DataUrl.Parse(ImageUrl(imageBase64)).value.0 == "image/png"
  {
    var rest := ImageUrl(imageBase64)[|DataUrl.Scheme|..];
    assert rest == "image/png" + DataUrl.Base64Marker + imageBase64;
    assert rest[..9] == "image/png";
    assert rest[9] == ';';
    DataUrl.IndexOfCharAt(rest, ';', 9);
  }

  /** For an encodable input, the image URL carries exactly the input's bytes, as PNG. */
  lemma ImageUrlCarriesBytes(input: ImageInput, read: FileReader)
    requires EncodeImage(input, read).Success?
    ensures DataUrl.Parse(ImageUrl(EncodeImage(input, read).value)) == Some(("image/png", ImageBytes(input, read).value))
  {
    DataUrl.ParseDataUri("image/png", ImageBytes(input, read).value);
  }
}
