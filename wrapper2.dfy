/**
 * The adapter of Wrapper2.py, HostedOpenAIToLlamaIndex. Its messages carry an
 * enumerated role whose string value goes on the wire (`m.role.value`);
 * blocks are text blocks, image blocks or of another type; an image that is
 * neither bytes nor a `data:image` string raises ValueError; its metadata
 * advertises multimodality.
 */
module Wrapper2 {
  import opened Wrappers
  import opened Messages
  import Backend
  import Base64
  import TranslationLaws

  /**
   * The message list this adapter's chat sends: one wire message per message,
   * in order, each with its role's string value. It fails exactly when some
   * block of some message is an image in a form the adapter does not recognise.
   */
  function Translate(messages: seq<Message<MessageRole>>): (r: Result<seq<WireMessage>, ChatError>)
    ensures r.Success? ==> |r.value| == |messages|
    ensures r.Success? ==> forall i :: 0 <= i < |messages| ==>
      r.value[i].role == RoleValue(messages[i].role) &&
      TranslateBlocks(messages[i].content, RaiseUnsupported) == Success(r.value[i].content)
    ensures r.Failure? <==> (exists i, j :: 0 <= i < |messages| && 0 <= j < |messages[i].content| &&
                                 messages[i].content[j].Image? && !IsSupportedImage(messages[i].content[j].image))
    ensures r.Failure? ==> r.error == UnsupportedImageFormat
  {
    TranslateMessages(messages, RoleValue, RaiseUnsupported)
  }

  /**
   * A user message holding an image as raw bytes and then a text: the request
   * holds one user message whose content is the PNG data URI and then the
   * text, in that order.
   */
  lemma ImageThenText(blob: seq<Base64.byte>, text: string)
    ensures Translate([Message(User, [Image(Bytes(blob)), Text(text)])]) ==
      Success([WireMessage("user", [ImageUrlItem(PngBase64Prefix + Base64.Encode(blob)), TextItem(text)])])
  {
    var url := PngBase64Prefix + Base64.Encode(blob);
    var blocks := [Image(Bytes(blob)), Text(text)];
    TranslationLaws.TranslateBlocksPointwise(blocks, RaiseUnsupported);
    var items := TranslateBlocks(blocks, RaiseUnsupported).value;
    assert items == [ImageUrlItem(url), TextItem(text)];
    var messages := [Message(User, blocks)];
    assert messages[..0] == [];
    assert [] + [WireMessage("user", items)] == [WireMessage("user", items)];
  }

  class HostedOpenAIToLlamaIndex {
    const client: Backend.Client
    const model: string

    constructor (client: Backend.Client, model: string)
      ensures this.client == client && this.model == model
    {
      this.client := client;
      this.model := model;
    }

    /**
     * Translates the messages, sends them with the model fixed at
     * construction and the caller's options, and wraps the first choice's
     * text as an assistant message. Options naming `self` or `messages` fail
     * the call when its arguments are bound, an unrecognised image fails it
     * next, and options naming `model` fail it at the backend call; in each
     * of these cases no request is recorded.
     */
    method Chat(messages: seq<Message<MessageRole>>, kwargs: Options)
      returns (r: Result<ChatResponse<MessageRole>, ChatError>)
      modifies client
      ensures RepeatsChatParameter(kwargs) ==>
        r == Failure(DuplicateKeyword) && client.requests == old(client.requests)
      ensures !RepeatsChatParameter(kwargs) && Translate(messages).Failure? ==>
        r == Failure(UnsupportedImageFormat) && client.requests == old(client.requests)
      ensures !RepeatsChatParameter(kwargs) && Translate(messages).Success? && ClashesWithNamedArguments(kwargs) ==>
        r == Failure(DuplicateKeyword) && client.requests == old(client.requests)
      ensures !RepeatsChatParameter(kwargs) && Translate(messages).Success? && !ClashesWithNamedArguments(kwargs) ==>
        client.requests == old(client.requests) + [Request(model, Translate(messages).value, kwargs)] &&
        r == WrapReply(client.answer, Assistant)
    {
      if RepeatsChatParameter(kwargs) {
        return Failure(DuplicateKeyword);
      }
      var oaiMessages := BuildMessages(messages, RoleValue, RaiseUnsupported);
      if oaiMessages.Failure? {
        return Failure(oaiMessages.error);
      }
      if ClashesWithNamedArguments(kwargs) {
        return Failure(DuplicateKeyword);
      }
      var resp := client.Create(Request(model, oaiMessages.value, kwargs));
      if resp.Failure? {
        return Failure(BackendFailure(resp.error));
      }
      if |resp.value.choices| == 0 {
        return Failure(NoChoices);
      }
      var textOut := resp.value.choices[0].content;
      r := Success(ChatResponse(Message(Assistant, [Text(textOut)]), resp.value));
    }

    /** The model name fixed at construction; a chat model; multimodal. */
    function Metadata(): (md: LLMMetadata)
      ensures md.modelName == model && md.isChatModel && md.multimodal
    {
      LLMMetadata(model, true, true)
    }
  }
}
