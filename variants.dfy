/**
 * How the three adapter variants relate. Wrapper2 and wrapper3 send the same
 * request whenever Wrapper2 does not raise; Wrapper-glm sends the same
 * request as Wrapper2 for messages whose role strings are the enumerated
 * roles' values. So the variants differ only in role rendering and in what
 * happens to an unrecognised image.
 */
module Variants {
  import opened Messages
  import TranslationLaws
  import WrapperGlm
  import Wrapper2
  import Wrapper3

  /** Where Wrapper2 builds a request, wrapper3 builds the identical one. */
  lemma DroppingAgreesWhenNothingRaises(messages: seq<Message<MessageRole>>)
    requires Wrapper2.Translate(messages).Success?
    ensures Wrapper3.Translate(messages) == Wrapper2.Translate(messages)
  {
    TranslationLaws.MessagePoliciesAgree(messages, RoleValue);
  }

  /** The same messages with each enumerated role replaced by its string value. */
  function WithRoleValues(messages: seq<Message<MessageRole>>): (r: seq<Message<string>>)
    ensures |r| == |messages|
    ensures forall i :: 0 <= i < |messages| ==>
      r[i].role == RoleValue(messages[i].role) && r[i].content == messages[i].content
  {
    seq(|messages|, i requires 0 <= i < |messages| => Message(RoleValue(messages[i].role), messages[i].content))
  }

  /** Copying a role string unchanged and taking an enumerated role's value agree. */
  lemma RoleRenderingsAgree(messages: seq<Message<MessageRole>>)
    ensures WrapperGlm.Translate(WithRoleValues(messages)) == Wrapper2.Translate(messages)
  {
    TranslationLaws.SameRenderingSameRequest(
      WithRoleValues(messages), WrapperGlm.RoleAsGiven, messages, RoleValue, RaiseUnsupported);
  }
}
