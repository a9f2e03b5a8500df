/**
 * The adapter of wrapper3.py, HostedOpenAIToLlamaIndex: the same as Wrapper2
 * except that an image that is neither bytes nor a `data:image` string is
 * dropped silently, so the translation never fails and every call reaches
 * the backend. Its fields are `_client` and `_model` in the source; Dafny
 * names may not begin with an underscore, so here they are `client` and `model`.
 */
module Wrapper3 {
  import opened Wrappers
  import opened Messages
  import Backend
  import TranslationLaws

  /**
   * The message list this adapter's chat sends: always built, one wire
   * message per message, in order, each with its role's string value; a
   * message keeps its place even when every one of its blocks is dropped.
   */
  function Translate(messages: seq<Message<MessageRole>>): (r: Result<seq<WireMessage>, ChatError>)
    ensures r.Success? && |r.value| == |messages|
    ensures forall i :: 0 <= i < |messages| ==>
      r.value[i].role == RoleValue(messages[i].role) &&
      TranslateBlocks(messages[i].content, DropUnsupported) == Success(r.value[i].content)
  {
    TranslateMessages(messages, RoleValue, DropUnsupported)
  }

  /**
   * A message none of whose blocks produces an entry (each is of an unknown
   * type or an unrecognised image) still yields its wire message, with the
   * right role and an empty content list.
   */
  lemma DroppedMessageKeepsItsPlace(messages: seq<Message<MessageRole>>, i: nat)
    requires i < |messages|
    requires forall j :: 0 <= j < |messages[i].content| ==>
      messages[i].content[j].Unknown? ||
      (messages[i].content[j].Image? && !IsSupportedImage(messages[i].content[j].image))
    ensures Translate(messages).value[i] == WireMessage(RoleValue(messages[i].role), [])
  {
    TranslationLaws.AllSkippedTranslatesEmpty(messages[i].content, DropUnsupported);
  }

  class HostedOpenAIToLlamaIndex {
    const client: Backend.Client
    const model: string

    constructor (client: Backend.Client, model: string)
      ensures this.client == client && this.model == model
    {
      this.client := client;
      this.model := model;
    }

    /**
     * Translates the messages, sends them with the model fixed at
     * construction and the caller's options, and wraps the first choice's
     * text as an assistant message. The translation never fails, so the
     * client is called unless the options name `self` or `messages` (the call's
     * arguments cannot be bound) or `model` (the backend call cannot be made);
     * those fail the call with no request recorded.
     */
    method Chat(messages: seq<Message<MessageRole>>, kwargs: Options)
      returns (r: Result<ChatResponse<MessageRole>, ChatError>)
      modifies client
      ensures RepeatsChatParameter(kwargs) || ClashesWithNamedArguments(kwargs) ==>
        r == Failure(DuplicateKeyword) && client.requests == old(client.requests)
      ensures !RepeatsChatParameter(kwargs) && !ClashesWithNamedArguments(kwargs) ==>
        client.requests == old(client.requests) + [Request(model, Translate(messages).value, kwargs)] &&
        r == WrapReply(client.answer, Assistant)
    {
      if RepeatsChatParameter(kwargs) {
        return Failure(DuplicateKeyword);
      }
      var oaiMessages := BuildMessages(messages, RoleValue, DropUnsupported);
      if ClashesWithNamedArguments(kwargs) {
        return Failure(DuplicateKeyword);
      }
      var resp := client.Create(Request(model, oaiMessages.value, kwargs));
      if resp.Failure? {
        return Failure(BackendFailure(resp.error));
      }
      if |resp.value.choices| == 0 {
        return Failure(NoChoices);
      }
      var textOut := resp.value.choices[0].content;
      r := Success(ChatResponse(Message(Assistant, [Text(textOut)]), resp.value));
    }

    /** The model name fixed at construction; a chat model; multimodal. */
    function Metadata(): (md: LLMMetadata)
      ensures md.modelName == model && md.isChatModel && md.multimodal
    {
      LLMMetadata(model, true, true)
    }
  }
}
