# Hosted OpenAI to LlamaIndex chat adapter, modelled in Dafny

The repository holds one adapter in three near-identical copies. Each lets code written against
LlamaIndex chat messages (a role plus ordered text and image content blocks) talk to a hosted
OpenAI-compatible chat-completions endpoint. `chat` turns the messages into the endpoint's wire
format. Text blocks become `{"type": "text"}` entries. Images given as raw bytes become
`data:image/png;base64,` data URIs (RFC 2397) over their base 64 encoding (section 4 of RFC 4648).
Strings that already start with `data:image` are passed through unchanged. `chat` then calls
`chat.completions.create` with the model fixed at construction, and wraps the first choice's text
as an assistant message, keeping the response as `raw`. `metadata` describes the model.

The variants differ in three ways, and the model keeps each difference explicit:

| variant | role on the wire | unrecognised image | metadata advertises multimodal |
|---|---|---|---|
| `Wrapper-glm.py` (`WrapperGlm`) | `m.role`, unchanged (`RoleAsGiven`) | raises `ValueError` (`RaiseUnsupported`) | no |
| `Wrapper2.py` (`Wrapper2`) | `m.role.value` (`RoleValue`) | raises `ValueError` (`RaiseUnsupported`) | yes |
| `wrapper3.py` (`Wrapper3`) | `m.role.value` (`RoleValue`) | dropped silently (`DropUnsupported`) | yes |

Modules:

- `Base64` (base64.dfy): the padded encoder, a decoder, and the round trip `Decode(Encode(d)) == Some(d)`.
- `Messages` (messages.dfy): the data model; the per-block, per-message-content and per-message
  translation functions; `BuildMessages`, the nested loops of `chat`, proved equal to the
  translation function; and `WrapReply`, the reply wrapping.
- `TranslationLaws` (translation_laws.dfy): order preservation, the pointwise shape of the
  translation, the all-dropped case, agreement of the two image policies, and idempotence of
  image translation.
- `Backend` (backend.dfy): the client as a spy. It records every request and answers with a
  fixed reply, either a completion or a backend error.
- `WrapperGlm`, `Wrapper2`, `Wrapper3` (wrapper_glm.dfy, wrapper2.dfy, wrapper3.dfy): one
  adapter class each, with its constructor, `Chat` and `Metadata`.
- `Variants` (variants.dfy): how the three variants' requests relate.

Modelling choices:

- Dispatch on run-time types becomes a sum type. `Block` is `Text`, `Image` or `Unknown`, and
  an image's `Payload` is `Bytes`, `Str` or `Other`. Wrapper-glm.py tells items apart by their
  `type` tag: "text" maps to `Text`, "image" to `Image`, any other tag to `Unknown`.
- The four exceptions of `chat` become a `ChatError` value. `UnsupportedImageFormat` is the
  `ValueError`. `DuplicateKeyword` is the `TypeError` of a keyword argument given twice, raised
  at one of two points. Options naming `self` or `messages` (`RepeatsChatParameter`) repeat a
  parameter of `chat(self, messages, **kwargs)` itself, so Python rejects the call while binding
  its arguments, before any translation. Options naming `model` (`ClashesWithNamedArguments`)
  repeat the keyword `chat` passes to `create`, so that call fails after the translation and
  before any request. `BackendFailure` is an error raised by the client, passed
  on unchanged. `NoChoices` is the `IndexError` of `resp.choices[0]` when the reply has no
  choices; the source does not guard that index.
- `**kwargs` is an opaque map of options. Unless it names `self`, `messages` or `model`, it is
  forwarded to the client unchanged.
- `wrapper3.py:27-28` breaks `elif isinstance` across two lines. Python rejects that as a
  syntax error, so the file as written cannot be imported. The model follows the evident
  intent, the same `data:image` pass-through as the other two files.
- The attribute names `_client` and `_model` of wrapper3.py are `client` and `model` here,
  because Dafny names cannot begin with an underscore.

## Model

| member | source | states |
|---|---|---|
| `Base64.Encode` | Wrapper-glm.py:34 | the base 64 text of `data` has four characters per started group of three bytes, all from the RFC 4648 alphabet or `=`, and no `=` at all when the length is a multiple of three |
| `Base64.DecodeEncode` | Wrapper-glm.py:34 | decoding the encoding of any byte string gives back that byte string (section 4 of RFC 4648) |
| `Base64.Rfc4648TestVectors` | Wrapper-glm.py:34 | the encodings of "", "f", "fo", "foo", "foob" and "foobar" are the test vectors of section 10 of RFC 4648, which fixes the alphabet, the bit order and the padding |
| `Base64.EncodeInjective` | Wrapper-glm.py:34 | two byte strings with the same encoding are equal |
| `Messages.RoleValue` | Wrapper2.py:32 | an enumerated role's wire value is "system", "user" or "assistant", each exactly for the role of that name |
| `Messages.RoleValueInjective` | Wrapper2.py:32 | distinct roles have distinct wire values |
| `Messages.TranslateBlock` | Wrapper-glm.py:29-46 | a block yields an entry iff it is text or a bytes / `data:image` image; it is rejected iff the policy raises and the image is neither; text keeps its text; bytes become `data:image/png;base64,` + base64(bytes), a URL that starts with `data:image` and decodes back to the bytes; a `data:image` string is the URL unchanged |
| `Messages.TranslateBlocks` | Wrapper-glm.py:27-46 | a message's content list fails iff some block is rejected, the failure being the unsupported-image error, and has at most one entry per block |
| `Messages.TranslateMessages` | Wrapper-glm.py:25-47 | the request has one wire message per message, in order, with the rendered role and the translated content of that message; it fails iff some message's content fails |
| `Messages.BuildMessages` | Wrapper2.py:15-32 | the nested loops over messages and blocks produce exactly the translation of the messages, failing on the first unrecognised image |
| `Messages.WrapReply` | Wrapper2.py:41-49 | a backend failure passes through unchanged; a reply without choices fails; otherwise the response is an assistant message whose only block is the first choice's text verbatim, with `raw` the unmodified response |
| `TranslationLaws.TranslateBlocksAppend` | Wrapper2.py:17-31 | the content list of two runs of blocks is the first run's list followed by the second's, so block order is preserved |
| `TranslationLaws.TranslateBlocksPointwise` | Wrapper2.py:18-29 | when every block yields an entry, there is exactly one entry per block and the i-th entry is the i-th block's |
| `TranslationLaws.TextBlocksTranslate` | Wrapper2.py:18-20 | text-only content gives one text entry per block, with the same text, in the same order |
| `TranslationLaws.AllSkippedTranslatesEmpty` | wrapper3.py:16-30 | content whose every block is dropped translates to an empty content list, not a failure |
| `TranslationLaws.BlockPoliciesAgree` | wrapper3.py:20-29 | content that translates under the raising policy translates identically under the dropping policy |
| `TranslationLaws.MessagePoliciesAgree` | wrapper3.py:15-30 | the same agreement for whole message lists |
| `TranslationLaws.EncodedUrlPassesThrough` | Wrapper-glm.py:33-44 | the URL made from bytes, given back as a string payload, yields the same entry |
| `TranslationLaws.SameRenderingSameRequest` | Wrapper-glm.py:47 | message lists that pair up with equal content and equal rendered role strings give the same request, whatever the role type |
| `Backend.Client.Create` | Wrapper-glm.py:50-54 | the request is appended to the client's record and the endpoint's answer is returned |
| `WrapperGlm.Translate` | Wrapper-glm.py:25-47 | one wire message per message, in order, with `m.role` unchanged and that message's content translated under the raising policy; fails, with the unsupported-image error, iff some block is an image that is neither bytes nor a `data:image` string |
| `WrapperGlm.HostedOpenAIToLlamaIndexMM.constructor` | Wrapper-glm.py:15-17 | the client and model are the ones given |
| `WrapperGlm.HostedOpenAIToLlamaIndexMM.Chat` | Wrapper-glm.py:19-61 | options naming `self` or `messages` fail the call with the duplicate-keyword error before any translation, and the client receives nothing; otherwise, on an unrecognised image the call fails with the unsupported-image error and the client receives nothing; when the translation succeeds but the options name `model`, it fails with the duplicate-keyword error and the client receives nothing; otherwise the client receives exactly one request (the stored model, the translated messages, the caller's options) and the result is the wrapped reply with role "assistant" |
| `WrapperGlm.HostedOpenAIToLlamaIndexMM.Metadata` | Wrapper-glm.py:63-65 | the model name fixed at construction, a chat model, multimodality not advertised |
| `Wrapper2.Translate` | Wrapper2.py:15-32 | one wire message per message, in order, with the role's string value and that message's content translated under the raising policy; fails, with the unsupported-image error, iff some block is an image that is neither bytes nor a `data:image` string |
| `Wrapper2.ImageThenText` | Wrapper2.py:15-32 | a user message with a bytes image and then a text yields one "user" wire message holding the PNG data URI and then the text |
| `Wrapper2.HostedOpenAIToLlamaIndex.constructor` | Wrapper2.py:8-11 | the client and model are the ones given |
| `Wrapper2.HostedOpenAIToLlamaIndex.Chat` | Wrapper2.py:13-49 | options naming `self` or `messages` fail the call with the duplicate-keyword error before any translation, and the client receives nothing; otherwise, on an unrecognised image the call fails with the unsupported-image error and the client receives nothing; when the translation succeeds but the options name `model`, it fails with the duplicate-keyword error and the client receives nothing; otherwise exactly one request with the stored model, the translated messages and the options, and the wrapped reply with role `Assistant` |
| `Wrapper2.HostedOpenAIToLlamaIndex.Metadata` | Wrapper2.py:51-53 | the model name fixed at construction, a chat model, multimodal |
| `Wrapper3.Translate` | wrapper3.py:14-30 | never fails; one wire message per message, in order, with the role's string value and that message's content translated under the dropping policy |
| `Wrapper3.DroppedMessageKeepsItsPlace` | wrapper3.py:16-30 | a message whose blocks are all unknown or unrecognised images still yields its wire message, with its role and an empty content list |
| `Wrapper3.HostedOpenAIToLlamaIndex.constructor` | wrapper3.py:9-11 | the client and model are the ones given |
| `Wrapper3.HostedOpenAIToLlamaIndex.Chat` | wrapper3.py:13-46 | when the options name `self`, `messages` or `model` the call fails with the duplicate-keyword error and the client receives nothing; otherwise the client receives exactly one request with the stored model, the translated messages and the options; the result is the wrapped reply with role `Assistant` |
| `Wrapper3.HostedOpenAIToLlamaIndex.Metadata` | wrapper3.py:48-50 | the model name fixed at construction, a chat model, multimodal |
| `Variants.DroppingAgreesWhenNothingRaises` | wrapper3.py:20-29 | wherever Wrapper2 builds a request, wrapper3 builds the identical one |
| `Variants.RoleRenderingsAgree` | Wrapper-glm.py:47 | Wrapper-glm, given the roles' string values, builds the same request as Wrapper2 given the enumerated roles |

## Left out

- The driver script after the class in Wrapper-glm.py: client construction, reading `cat.png`, printing. It is example glue and I/O.
- The OpenAI client's transport, authentication, rate limits and endpoint behaviour. The client is a spy that records requests and returns a fixed answer; its errors pass through unchanged.
- The `super().__init__(model=model)` call of Wrapper2.py and the LlamaIndex base classes. They are foreign library code.
- The contents of the response beyond its choices' texts, which are kept only as an opaque map; `raw` is the response itself.
- A choice whose message content is null. Each choice's content is modelled as a string.
- Roles beyond system, user and assistant in LlamaIndex's `MessageRole` enumeration. That enumeration is not part of this model.
- The message text `"Unsupported image format"` of the `ValueError`. The error is modelled by its kind alone.
- Concurrent `chat` calls on one adapter. Each call is modelled as a single sequential step.
