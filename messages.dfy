/**
 * The data the adapters translate between: generic chat messages made of
 * typed content blocks on one side, the chat-completions wire format on the
 * other, and the translation itself, which all three adapter variants share.
 * The variants differ only in how a message's role becomes a string and in
 * what happens to an image payload they do not recognise; both are parameters
 * here, fixed by each variant's own module.
 */
module Messages {
  import opened Wrappers
  import Base64

  /** What an image block holds, told apart by its run-time type. */
  datatype Payload =
    | Bytes(data: seq<Base64.byte>)  // a `bytes` object: raw image data
    | Str(s: string)                 // a `str`: meant to be a data URI already
    | Other                          // anything else, such as no image at all

  /** One content block of a chat message. */
  datatype Block =
    | Text(text: string)
    | Image(image: Payload)
    | Unknown(kind: string)  // a block of any other type; no branch handles it

  /** A chat message: a role (string or enumerated, per variant) and ordered blocks. */
  datatype Message<R> = Message(role: R, content: seq<Block>)

  /** The roles of an enumerated chat message. */
  datatype MessageRole = System | User | Assistant

  /** The string value of an enumerated role, as sent on the wire. */
  function RoleValue(role: MessageRole): (s: string)
    ensures s == "system" || s == "user" || s == "assistant"
    ensures role == System <==> s == "system"
    ensures role == User <==> s == "user"
    ensures role == Assistant <==> s == "assistant"
  {
    match role
    case System => "system"
    case User => "user"
    case Assistant => "assistant"
  }

  /** Distinct roles have distinct wire values, so the wire role names the message's role. */
  lemma RoleValueInjective(a: MessageRole, b: MessageRole)
    requires RoleValue(a) == RoleValue(b)
    ensures a == b
  {
  }

  /** One entry of a wire message's content list. */
  datatype WireItem =
    | TextItem(text: string)     // {"type": "text", "text": text}
    | ImageUrlItem(url: string)  // {"type": "image_url", "image_url": {"url": url}}

  /** One entry of the request's message list: {"role": role, "content": content}. */
  datatype WireMessage = WireMessage(role: string, content: seq<WireItem>)

  /** Keyword overrides forwarded to the backend as further keyword arguments. */
  type Options = map<string, string>

  /**
   * Options that name a parameter of `chat(self, messages, **kwargs)` itself:
   * binding the call's arguments fails, before `chat` runs at all.
   */
  predicate RepeatsChatParameter(kwargs: Options) {
    "self" in kwargs || "messages" in kwargs
  }

  /**
   * Options that repeat one of the two keyword arguments `chat` passes to the
   * backend itself, so that the call is rejected before it reaches the backend.
   * Only `model` can get this far: `messages` is caught by `RepeatsChatParameter`.
   */
  predicate ClashesWithNamedArguments(kwargs: Options) {
    "model" in kwargs || "messages" in kwargs
  }

  /** A request to the backend's chat-completions operation. */
  datatype Request = Request(model: string, messages: seq<WireMessage>, options: Options)

  /** One candidate reply; only the text of its message is modelled. */
  datatype Choice = Choice(content: string)

  /** The backend's response: its ordered choices and its other fields, kept opaque. */
  datatype Completion = Completion(choices: seq<Choice>, fields: map<string, string>)

  /** A failure of the backend call itself (transport, authentication, limits). */
  datatype BackendError = BackendError(description: string)

  /** Why a chat call fails. */
  datatype ChatError =
    | UnsupportedImageFormat        // the ValueError raised on an unrecognised image
    | BackendFailure(cause: BackendError)  // a backend failure, passed on unchanged
    | NoChoices                     // the reply had no first choice to index
    | DuplicateKeyword              // the TypeError of a keyword argument given twice

  /** What a chat call returns: one assistant message and the untouched backend response. */
  datatype ChatResponse<R> = ChatResponse(message: Message<R>, raw: Completion)

  /** The static description an adapter gives of its model. */
  datatype LLMMetadata = LLMMetadata(modelName: string, isChatModel: bool, multimodal: bool)

  /** What a variant does with an image payload it does not recognise. */
  datatype ImagePolicy = RaiseUnsupported | DropUnsupported

  /** The prefix that marks a string payload as an inline image already. */
  const DataImagePrefix: string := "data:image"

  /** The data URI prefix put in front of base 64 encoded raw bytes (RFC 2397); always PNG. */
  const PngBase64Prefix: string := "data:image/png;base64,"

  /** Python's `str.startswith`. */
  predicate StartsWith(s: string, prefix: string) {
    |prefix| <= |s| && s[..|prefix|] == prefix
  }

  /** An image payload the translation recognises: raw bytes, or a `data:image` string. */
  predicate IsSupportedImage(p: Payload) {
    p.Bytes? || (p.Str? && StartsWith(p.s, DataImagePrefix))
  }

  /** The image bytes a PNG base 64 data URI carries, if the URL is one. */
  function PngDataUriBytes(url: string): Option<seq<Base64.byte>> {
    if StartsWith(url, PngBase64Prefix) then Base64.Decode(url[|PngBase64Prefix|..]) else None
  }

  /** What translating a single block contributes to its message's content list. */
  datatype BlockOutcome = Emit(item: WireItem) | Skip | Reject

  /**
   * The translation of one content block. A text block becomes a text entry; an
   * image given as bytes becomes a PNG data URI whose base 64 part decodes back
   * to those bytes; a `data:image` string is passed through as the URL
   * unchanged; any other image is rejected or skipped according to the policy;
   * a block of any other type is skipped.
   */
  function TranslateBlock(b: Block, policy: ImagePolicy): (r: BlockOutcome)
    ensures r.Emit? <==> b.Text? || (b.Image? && IsSupportedImage(b.image))
    ensures r.Reject? <==> policy == RaiseUnsupported && b.Image? && !IsSupportedImage(b.image)
    ensures b.Text? ==> r == Emit(TextItem(b.text))
    ensures b.Image? && b.image.Bytes? ==>
      r.Emit? && r.item.ImageUrlItem? &&
      r.item.url == PngBase64Prefix + Base64.Encode(b.image.data) &&
      StartsWith(r.item.url, DataImagePrefix) &&
      PngDataUriBytes(r.item.url) == Some(b.image.data)
    ensures b.Image? && b.image.Str? && StartsWith(b.image.s, DataImagePrefix) ==>
      r == Emit(ImageUrlItem(b.image.s))
  {
    match b
    case Text(t) => Emit(TextItem(t))
    case Image(p) =>
      if p.Bytes? then
        var url := PngBase64Prefix + Base64.Encode(p.data);
        assert url[..|PngBase64Prefix|] == PngBase64Prefix;
        assert url[|PngBase64Prefix|..] == Base64.Encode(p.data);
        assert url[..|DataImagePrefix|] == DataImagePrefix;
        Base64.DecodeEncode(p.data);
        Emit(ImageUrlItem(url))
      else if p.Str? && StartsWith(p.s, DataImagePrefix) then Emit(ImageUrlItem(p.s))
      else if policy == RaiseUnsupported then Reject
      else Skip
    case Unknown(_) => Skip
  }

  /**
   * The content list of one message: the blocks translated in order, the
   * first rejected block failing the whole message. It fails exactly when
   * some block is rejected, and never lists more entries than there are blocks.
   */
  function TranslateBlocks(blocks: seq<Block>, policy: ImagePolicy): (r: Result<seq<WireItem>, ChatError>)
    ensures r.Failure? <==> exists i :: 0 <= i < |blocks| && TranslateBlock(blocks[i], policy).Reject?
    ensures r.Failure? ==> r.error == UnsupportedImageFormat
    ensures r.Success? ==> |r.value| <= |blocks|
    decreases |blocks|
  {
    if blocks == [] then Success([])
    else
      var init, last := blocks[..|blocks| - 1], blocks[|blocks| - 1];
      assert forall i :: 0 <= i < |init| ==> init[i] == blocks[i];
      match TranslateBlocks(init, policy)
      case Failure(e) => Failure(e)
      case Success(items) =>
        match TranslateBlock(last, policy)
        case Emit(item) => Success(items + [item])
        case Skip => Success(items)
        case Reject => Failure(UnsupportedImageFormat)
  }

  /**
   * The request's message list: one wire message per input message, in the
   * same order, each carrying its message's role as `roleOf` renders it and
   * its translated content. It fails exactly when some message's content fails.
   */
  function TranslateMessages<R>(messages: seq<Message<R>>, roleOf: R -> string, policy: ImagePolicy)
    : (r: Result<seq<WireMessage>, ChatError>)
    ensures r.Success? ==> |r.value| == |messages|
    ensures r.Success? ==> forall i :: 0 <= i < |messages| ==>
      r.value[i].role == roleOf(messages[i].role) &&
      TranslateBlocks(messages[i].content, policy) == Success(r.value[i].content)
    ensures r.Failure? <==>
      exists i :: 0 <= i < |messages| && TranslateBlocks(messages[i].content, policy).Failure?
    ensures r.Failure? ==> r.error == UnsupportedImageFormat
    decreases |messages|
  {
    if messages == [] then Success([])
    else
      var init, last := messages[..|messages| - 1], messages[|messages| - 1];
      assert forall i :: 0 <= i < |init| ==> init[i] == messages[i];
      match TranslateMessages(init, roleOf, policy)
      case Failure(e) => Failure(e)
      case Success(wire) =>
        match TranslateBlocks(last.content, policy)
        case Failure(e) => Failure(e)
        case Success(items) => Success(wire + [WireMessage(roleOf(last.role), items)])
  }

  /**
   * The nested loops of `chat` that build the request's message list: for
   * each message, for each block, append the block's entry to the content
   * list, raising on a rejected block before anything is sent.
   */
  method BuildMessages<R>(messages: seq<Message<R>>, roleOf: R -> string, policy: ImagePolicy)
    returns (r: Result<seq<WireMessage>, ChatError>)
    ensures r == TranslateMessages(messages, roleOf, policy)
  {
    var oaiMessages: seq<WireMessage> := [];
    var i := 0;
    while i < |messages|
      invariant 0 <= i <= |messages|
      invariant TranslateMessages(messages[..i], roleOf, policy) == Success(oaiMessages)
    {
      var m := messages[i];
      var contentItems: seq<WireItem> := [];
      var j := 0;
      while j < |m.content|
        invariant 0 <= j <= |m.content|
        invariant TranslateBlocks(m.content[..j], policy) == Success(contentItems)
      {
        BlocksPrefixStep(m.content, j, policy);
        var outcome := TranslateBlock(m.content[j], policy);
        if outcome.Reject? {
          MessagesFailWith(messages, i, roleOf, policy);
          return Failure(UnsupportedImageFormat);
        }
        if outcome.Emit? {
          contentItems := contentItems + [outcome.item];
        }
        j := j + 1;
      }
      assert m.content[..j] == m.content;
      MessagesPrefixStep(messages, i, roleOf, policy);
      oaiMessages := oaiMessages + [WireMessage(roleOf(m.role), contentItems)];
      i := i + 1;
    }
    assert messages[..i] == messages;
    r := Success(oaiMessages);
  }

  /** One more block of a message's content, given that the blocks before it translate. */
  lemma BlocksPrefixStep(blocks: seq<Block>, j: int, policy: ImagePolicy)
    requires 0 <= j < |blocks| && TranslateBlocks(blocks[..j], policy).Success?
    ensures var items := TranslateBlocks(blocks[..j], policy).value;
      match TranslateBlock(blocks[j], policy)
      case Emit(item) => TranslateBlocks(blocks[..j + 1], policy) == Success(items + [item])
      case Skip => TranslateBlocks(blocks[..j + 1], policy) == Success(items)
      case Reject => TranslateBlocks(blocks, policy).Failure?
  {
    assert blocks[..j + 1][..j] == blocks[..j];
    assert blocks[..j + 1][j] == blocks[j];
  }

  /** One more message, given that the messages before it and its own content translate. */
  lemma MessagesPrefixStep<R>(messages: seq<Message<R>>, i: int, roleOf: R -> string, policy: ImagePolicy)
    requires 0 <= i < |messages|
    requires TranslateMessages(messages[..i], roleOf, policy).Success?
    requires TranslateBlocks(messages[i].content, policy).Success?
    ensures TranslateMessages(messages[..i + 1], roleOf, policy) ==
      Success(TranslateMessages(messages[..i], roleOf, policy).value +
              [WireMessage(roleOf(messages[i].role), TranslateBlocks(messages[i].content, policy).value)])
  {
    assert messages[..i + 1][..i] == messages[..i];
    assert messages[..i + 1][i] == messages[i];
  }

  /** A message whose content fails makes the whole message list fail. */
  lemma MessagesFailWith<R>(messages: seq<Message<R>>, i: int, roleOf: R -> string, policy: ImagePolicy)
    requires 0 <= i < |messages| && TranslateBlocks(messages[i].content, policy).Failure?
    ensures TranslateMessages(messages, roleOf, policy) == Failure(UnsupportedImageFormat)
  {
  }

  /**
   * How a chat call wraps the backend's answer: a backend failure passes
   * through unchanged, a reply without choices fails (indexing its first
   * choice), and otherwise the first choice's text, verbatim, becomes the
   * only block of an assistant message, with the response kept as `raw`.
   */
  function WrapReply<R>(answer: Result<Completion, BackendError>, assistant: R): (r: Result<ChatResponse<R>, ChatError>)
    ensures r.Success? <==> answer.Success? && |answer.value.choices| > 0
    ensures answer.Failure? ==> r == Failure(BackendFailure(answer.error))
    ensures answer.Success? && answer.value.choices == [] ==> r == Failure(NoChoices)
    ensures r.Success? ==>
      r.value.raw == answer.value &&
      r.value.message.role == assistant &&
      r.value.message.content == [Text(answer.value.choices[0].content)]
  {
    match answer
    case Failure(e) => Failure(BackendFailure(e))
    case Success(resp) =>
      if |resp.choices| == 0 then Failure(NoChoices)
      else Success(ChatResponse(Message(assistant, [Text(resp.choices[0].content)]), resp))
  }
}
