/**
 * The adapter of Wrapper-glm.py, HostedOpenAIToLlamaIndexMM. Its messages
 * carry their role as given, and it is sent on the wire unchanged (`m.role`);
 * items are told apart by their `type` tag ("text", "image", anything else);
 * an image that is neither bytes nor a `data:image` string raises ValueError;
 * its metadata does not advertise multimodality.
 */
module WrapperGlm {
  import opened Wrappers
  import opened Messages
  import Backend

  /** `m.role`: the role goes on the wire exactly as the message holds it. */
  function RoleAsGiven(role: string): string { role }

  /**
   * The message list this adapter's chat sends: one wire message per message,
   * in order, each with its role unchanged. It fails exactly when some block
   * of some message is an image in a form the adapter does not recognise.
   */
  function Translate(messages: seq<Message<string>>): (r: Result<seq<WireMessage>, ChatError>)
    ensures r.Success? ==> |r.value| == |messages|
    ensures r.Success? ==> forall i :: 0 <= i < |messages| ==>
      r.value[i].role == messages[i].role &&
      TranslateBlocks(messages[i].content, RaiseUnsupported) == Success(r.value[i].content)
    ensures r.Failure? <==> (exists i, j :: 0 <= i < |messages| && 0 <= j < |messages[i].content| &&
                                 messages[i].content[j].Image? && !IsSupportedImage(messages[i].content[j].image))
    ensures r.Failure? ==> r.error == UnsupportedImageFormat
  {
    TranslateMessages(messages, RoleAsGiven, RaiseUnsupported)
  }

  class HostedOpenAIToLlamaIndexMM {
    const client: Backend.Client
    const model: string

    constructor (openaiClient: Backend.Client, model: string)
      ensures client == openaiClient && this.model == model
    {
      client := openaiClient;
      this.model := model;
    }

    /**
     * Translates the messages, sends them with the model fixed at
     * construction and the caller's options, and wraps the first choice's
     * text as an assistant message. Options naming `self` or `messages` fail
     * the call when its arguments are bound, an unrecognised image fails it
     * next, and options naming `model` fail it at the backend call; in each
     * of these cases no request is recorded.
     */
    method Chat(messages: seq<Message<string>>, kwargs: Options) returns (r: Result<ChatResponse<string>, ChatError>)
      modifies client
      ensures RepeatsChatParameter(kwargs) ==>
        r == Failure(DuplicateKeyword) && client.requests == old(client.requests)
      ensures !RepeatsChatParameter(kwargs) && Translate(messages).Failure? ==>
        r == Failure(UnsupportedImageFormat) && client.requests == old(client.requests)
      ensures !RepeatsChatParameter(kwargs) && Translate(messages).Success? && ClashesWithNamedArguments(kwargs) ==>
        r == Failure(DuplicateKeyword) && client.requests == old(client.requests)
      ensures !RepeatsChatParameter(kwargs) && Translate(messages).Success? && !ClashesWithNamedArguments(kwargs) ==>
        client.requests == old(client.requests) + [Request(model, Translate(messages).value, kwargs)] &&
        r == WrapReply(client.answer, "assistant")
    {
      if RepeatsChatParameter(kwargs) {
        return Failure(DuplicateKeyword);
      }
      var oaiMessages := BuildMessages(messages, RoleAsGiven, RaiseUnsupported);
      if oaiMessages.Failure? {
        return Failure(oaiMessages.error);
      }
      if ClashesWithNamedArguments(kwargs) {
        return Failure(DuplicateKeyword);
      }
      var resp := client.Create(Request(model, oaiMessages.value, kwargs));
      if resp.Failure? {
        return Failure(BackendFailure(resp.error));
      }
      if |resp.value.choices| == 0 {
        return Failure(NoChoices);
      }
      var content := resp.value.choices[0].content;
      r := Success(ChatResponse(Message("assistant", [Text(content)]), resp.value));
    }

    /** The model name fixed at construction; a chat model; multimodality not advertised. */
    function Metadata(): (md: LLMMetadata)
      ensures md.modelName == model && md.isChatModel && !md.multimodal
    {
      LLMMetadata(model, true, false)
    }
  }
}
