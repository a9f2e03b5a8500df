/**
 * Laws of the block and message translation: how it treats concatenation
 * (order is kept), what it gives when every block has an entry, when every
 * block is dropped, and how the two image policies relate.
 */
module TranslationLaws {
  import opened Wrappers
  import opened Messages
  import Base64

  /** Joins the translations of two consecutive runs of blocks; the earlier failure wins. */
  function Then(first: Result<seq<WireItem>, ChatError>, second: Result<seq<WireItem>, ChatError>)
    : Result<seq<WireItem>, ChatError>
  {
    if first.Failure? then first
    else if second.Failure? then second
    else Success(first.value + second.value)
  }

  /**
   * Order preservation: the content list of `a + b` is that of `a` followed
   * by that of `b`, so no block's entry moves past another's.
   */
  lemma {:induction false} TranslateBlocksAppend(a: seq<Block>, b: seq<Block>, policy: ImagePolicy)
    ensures TranslateBlocks(a + b, policy) == Then(TranslateBlocks(a, policy), TranslateBlocks(b, policy))
    decreases |b|
  {
    if b == [] {
      assert a + b == a;
      if TranslateBlocks(a, policy).Success? {
        assert TranslateBlocks(a, policy).value + [] == TranslateBlocks(a, policy).value;
      }
    } else {
      var b', last := b[..|b| - 1], b[|b| - 1];
      assert (a + b)[..|a + b| - 1] == a + b';
      assert (a + b)[|a + b| - 1] == last;
      TranslateBlocksAppend(a, b', policy);
      if TranslateBlocks(a, policy).Success? && TranslateBlocks(b', policy).Success? {
        var x, y := TranslateBlocks(a, policy).value, TranslateBlocks(b', policy).value;
        match TranslateBlock(last, policy)
        case Emit(item) => assert (x + y) + [item] == x + (y + [item]);
        case Skip =>
        case Reject =>
      }
    }
  }

  /**
   * When every block has an entry (text, or a recognised image), the content
   * list has exactly one entry per block, the i-th being the i-th block's.
   */
  lemma {:induction false} TranslateBlocksPointwise(blocks: seq<Block>, policy: ImagePolicy)
    requires forall i :: 0 <= i < |blocks| ==> TranslateBlock(blocks[i], policy).Emit?
    ensures TranslateBlocks(blocks, policy).Success?
    ensures |TranslateBlocks(blocks, policy).value| == |blocks|
    ensures forall i :: 0 <= i < |blocks| ==>
      TranslateBlocks(blocks, policy).value[i] == TranslateBlock(blocks[i], policy).item
    decreases |blocks|
  {
    if blocks != [] {
      var init, last := blocks[..|blocks| - 1], blocks[|blocks| - 1];
      assert forall i :: 0 <= i < |init| ==> init[i] == blocks[i];
      TranslateBlocksPointwise(init, policy);
      EmittedBlockAppends(blocks, policy);
      var items, all := TranslateBlocks(init, policy).value, TranslateBlocks(blocks, policy).value;
      assert all == items + [TranslateBlock(last, policy).item];
      forall i | 0 <= i < |blocks|
        ensures all[i] == TranslateBlock(blocks[i], policy).item
      {
        if i < |init| {
          assert all[i] == items[i];
        }
      }
    }
  }

  /** A last block that yields an entry appends that entry to the rest's content list. */
  lemma EmittedBlockAppends(blocks: seq<Block>, policy: ImagePolicy)
    requires blocks != []
    requires TranslateBlocks(blocks[..|blocks| - 1], policy).Success?
    requires TranslateBlock(blocks[|blocks| - 1], policy).Emit?
    ensures TranslateBlocks(blocks, policy) ==
      Success(TranslateBlocks(blocks[..|blocks| - 1], policy).value + [TranslateBlock(blocks[|blocks| - 1], policy).item])
  {
  }

  /** A message of text blocks only: one text entry per block, same text, same order. */
  lemma TextBlocksTranslate(blocks: seq<Block>, policy: ImagePolicy)
    requires forall i :: 0 <= i < |blocks| ==> blocks[i].Text?
    ensures TranslateBlocks(blocks, policy).Success?
    ensures |TranslateBlocks(blocks, policy).value| == |blocks|
    ensures forall i :: 0 <= i < |blocks| ==>
      TranslateBlocks(blocks, policy).value[i] == TextItem(blocks[i].text)
  {
    TranslateBlocksPointwise(blocks, policy);
  }

  /**
   * When every block is dropped (blocks of unknown type, or unrecognised
   * images under the dropping policy), the message still translates, to an
   * empty content list.
   */
  lemma {:induction false} AllSkippedTranslatesEmpty(blocks: seq<Block>, policy: ImagePolicy)
    requires forall i :: 0 <= i < |blocks| ==> TranslateBlock(blocks[i], policy).Skip?
    ensures TranslateBlocks(blocks, policy) == Success([])
    decreases |blocks|
  {
    if blocks != [] {
      var init := blocks[..|blocks| - 1];
      assert forall i :: 0 <= i < |init| ==> init[i] == blocks[i];
      AllSkippedTranslatesEmpty(init, policy);
    }
  }

  /**
   * The two image policies agree whenever raising does not happen: a content
   * list that translates under the raising policy translates identically
   * under the dropping one.
   */
  lemma {:induction false} BlockPoliciesAgree(blocks: seq<Block>)
    requires TranslateBlocks(blocks, RaiseUnsupported).Success?
    ensures TranslateBlocks(blocks, DropUnsupported) == TranslateBlocks(blocks, RaiseUnsupported)
    decreases |blocks|
  {
    if blocks != [] {
      var init, last := blocks[..|blocks| - 1], blocks[|blocks| - 1];
      assert TranslateBlock(last, RaiseUnsupported) == TranslateBlock(last, DropUnsupported);
      BlockPoliciesAgree(init);
    }
  }

  /** The same agreement for whole message lists, whatever the role rendering. */
  lemma {:induction false} MessagePoliciesAgree<R>(messages: seq<Message<R>>, roleOf: R -> string)
    requires TranslateMessages(messages, roleOf, RaiseUnsupported).Success?
    ensures TranslateMessages(messages, roleOf, DropUnsupported) == TranslateMessages(messages, roleOf, RaiseUnsupported)
    decreases |messages|
  {
    if messages != [] {
      var init, last := messages[..|messages| - 1], messages[|messages| - 1];
      assert forall i :: 0 <= i < |init| ==> init[i] == messages[i];
      BlockPoliciesAgree(last.content);
      MessagePoliciesAgree(init, roleOf);
    }
  }

  /**
   * The URL made from raw bytes is itself a `data:image` string, so feeding it
   * back as a string payload yields the very same entry: translating an
   * image twice changes nothing.
   */
  lemma EncodedUrlPassesThrough(data: seq<Base64.byte>, policy: ImagePolicy)
    ensures var url := TranslateBlock(Image(Bytes(data)), policy).item.url;
      TranslateBlock(Image(Str(url)), policy) == TranslateBlock(Image(Bytes(data)), policy)
  {
  }

  /**
   * Only the rendered role strings and the blocks matter: two message lists
   * of equal length whose messages pair up with the same content and the same
   * role string translate to the same request, whatever their role types.
   */
  lemma {:induction false} SameRenderingSameRequest<R, S>(
    ms: seq<Message<R>>, roleOf: R -> string, ns: seq<Message<S>>, roleOf': S -> string, policy: ImagePolicy)
    requires |ms| == |ns|
    requires forall i :: 0 <= i < |ms| ==>
      ms[i].content == ns[i].content && roleOf(ms[i].role) == roleOf'(ns[i].role)
    ensures TranslateMessages(ms, roleOf, policy) == TranslateMessages(ns, roleOf', policy)
    decreases |ms|
  {
    if ms != [] {
      var mi, ni := ms[..|ms| - 1], ns[..|ns| - 1];
      assert forall i :: 0 <= i < |mi| ==> mi[i] == ms[i] && ni[i] == ns[i];
      SameRenderingSameRequest(mi, roleOf, ni, roleOf', policy);
    }
  }
}
