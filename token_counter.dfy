/** Token accounting for one conversation (fine_tuning_data_checker.py:6-40).
    The tokenizer is a parameter `tok`: it maps a text to the number of
    tokens it encodes to, and nothing else is assumed about it. */
module TokenCounter {
  import opened Json

  /** The tokens the chat format appends after the last message to prime
      the reply. */
  const ReplyPrimingTokens: nat := 3
  const DefaultTokensPerMessage: nat := 3
  const DefaultTokensPerName: nat := 1

  // ---------------------------------------------------------------------
  // Total count

  /** A message the total counter can encode: a dictionary all of whose
      values are text (any other value makes the encoder raise). */
  predicate EncodableMessage(m: JVal)
  {
    m.JObject? && AllValuesAreStrings(m.fields)
  }

  predicate EncodableConversation(messages: seq<JVal>)
  {
    forall i :: 0 <= i < |messages| ==> EncodableMessage(messages[i])
  }

  /** Sum of the token lengths of the values of a message. */
  function TextTokens(fields: seq<(string, JVal)>, tok: string -> nat): nat
    requires AllValuesAreStrings(fields)
  {
    if fields == [] then 0
    else TextTokens(fields[..|fields| - 1], tok) + tok(fields[|fields| - 1].1.s)
  }

  /** The per-name overhead, once for each member whose key is `name`. */
  function NameTokens(fields: seq<(string, JVal)>, tokensPerName: nat): nat
  {
    if fields == [] then 0
    else NameTokens(fields[..|fields| - 1], tokensPerName) + (if fields[|fields| - 1].0 == "name" then tokensPerName else 0)
  }

  /** Cost of one message: the per-message overhead, the tokens of every
      value, and the per-name overhead for each `name` member. */
  function MessageTokens(m: JVal, tokensPerMessage: nat, tokensPerName: nat, tok: string -> nat): nat
    requires EncodableMessage(m)
  {
    tokensPerMessage + TextTokens(m.fields, tok) + NameTokens(m.fields, tokensPerName)
  }

  function MessagesTokens(messages: seq<JVal>, tokensPerMessage: nat, tokensPerName: nat, tok: string -> nat): nat
    requires EncodableConversation(messages)
  {
    if messages == [] then 0
    else MessagesTokens(messages[..|messages| - 1], tokensPerMessage, tokensPerName, tok)
         + MessageTokens(messages[|messages| - 1], tokensPerMessage, tokensPerName, tok)
  }

  /** Token cost of a whole conversation. */
  function ConversationTokens(messages: seq<JVal>, tokensPerMessage: nat, tokensPerName: nat, tok: string -> nat): nat
    requires EncodableConversation(messages)
  {
    MessagesTokens(messages, tokensPerMessage, tokensPerName, tok) + ReplyPrimingTokens
  }

  /** number_of_tokens_from_messages: one accumulator, updated per message
      and per member as the source's two nested loops do. */
  method NumberOfTokensFromMessages(messages: seq<JVal>, tok: string -> nat,
                                    tokensPerMessage: nat := DefaultTokensPerMessage,
                                    tokensPerName: nat := DefaultTokensPerName)
    returns (numberOfTokens: nat)
    requires EncodableConversation(messages)
    ensures numberOfTokens == ConversationTokens(messages, tokensPerMessage, tokensPerName, tok)
  {
    numberOfTokens := 0;
    for i := 0 to |messages|
      invariant numberOfTokens == MessagesTokens(messages[..i], tokensPerMessage, tokensPerName, tok)
    {
      var fields := messages[i].fields;
      ghost var before := numberOfTokens;
      numberOfTokens := numberOfTokens + tokensPerMessage;
      for j := 0 to |fields|
        invariant numberOfTokens == before + tokensPerMessage + TextTokens(fields[..j], tok)
                                    + NameTokens(fields[..j], tokensPerName)
      {
        var (key, value) := fields[j];
        assert fields[..j + 1][..j] == fields[..j];
        numberOfTokens := numberOfTokens + tok(value.s);
        if key == "name" {
          numberOfTokens := numberOfTokens + tokensPerName;
        }
      }
      assert fields[..|fields|] == fields;
      assert messages[..i + 1][..i] == messages[..i];
    }
    assert messages[..|messages|] == messages;
    numberOfTokens := numberOfTokens + ReplyPrimingTokens;
  }

  // ---------------------------------------------------------------------
  // Assistant-only count

  predicate IsAssistant(m: JVal)
  {
    Get(m, "role") == JString("assistant")
  }

  /** A message the assistant counter can read: a dictionary with a `role`
      member (it is indexed unconditionally), whose `content` is text when
      the role is `assistant`. */
  predicate ReadableMessage(m: JVal)
  {
    m.JObject? && HasKey(m, "role") && (IsAssistant(m) ==> Get(m, "content").JString?)
  }

  predicate ReadableConversation(messages: seq<JVal>)
  {
    forall i :: 0 <= i < |messages| ==> ReadableMessage(messages[i])
  }

  /** Tokens of the `content` of the assistant messages only. */
  function AssistantTokens(messages: seq<JVal>, tok: string -> nat): nat
    requires ReadableConversation(messages)
  {
    if messages == [] then 0
    else
      var m := messages[|messages| - 1];
      AssistantTokens(messages[..|messages| - 1], tok)
      + (if IsAssistant(m) then tok(Get(m, "content").s) else 0)
  }

  /** number_of_assistant_tokens_from_messages. */
  method NumberOfAssistantTokensFromMessages(messages: seq<JVal>, tok: string -> nat)
    returns (numberOfTokens: nat)
    requires ReadableConversation(messages)
    ensures numberOfTokens == AssistantTokens(messages, tok)
  {
    numberOfTokens := 0;
    for i := 0 to |messages|
      invariant numberOfTokens == AssistantTokens(messages[..i], tok)
    {
      assert messages[..i + 1][..i] == messages[..i];
      if Get(messages[i], "role") == JString("assistant") {
        numberOfTokens := numberOfTokens + tok(Get(messages[i], "content").s);
      }
    }
    assert messages[..|messages|] == messages;
  }

  // ---------------------------------------------------------------------
  // Properties

  /** Every message costs at least its overhead, and the reply priming is
      always added. */
  lemma {:induction false} ConversationTokensLowerBound(messages: seq<JVal>, tokensPerMessage: nat,
                                                        tokensPerName: nat, tok: string -> nat)
    requires EncodableConversation(messages)
    ensures ConversationTokens(messages, tokensPerMessage, tokensPerName, tok)
            >= ReplyPrimingTokens + tokensPerMessage * |messages|
  {
    MessagesTokensLowerBound(messages, tokensPerMessage, tokensPerName, tok);
  }

  lemma {:induction false} MessagesTokensLowerBound(messages: seq<JVal>, tokensPerMessage: nat,
                                                    tokensPerName: nat, tok: string -> nat)
    requires EncodableConversation(messages)
    ensures MessagesTokens(messages, tokensPerMessage, tokensPerName, tok) >= tokensPerMessage * |messages|
  {
    if messages != [] {
      var init := messages[..|messages| - 1];
      MessagesTokensLowerBound(init, tokensPerMessage, tokensPerName, tok);
      OverheadStep(tokensPerMessage, |init|);
    }
  }

  lemma OverheadStep(perMessage: nat, n: nat)
    ensures perMessage * (n + 1) == perMessage * n + perMessage
  {
  }

  /** The value bound to a key is one of the values whose tokens
      TextTokens adds up. */
  lemma {:induction false} LookupTokensBounded(fields: seq<(string, JVal)>, key: string, tok: string -> nat)
    requires AllValuesAreStrings(fields)
    requires Lookup(fields, key).JString?
    ensures tok(Lookup(fields, key).s) <= TextTokens(fields, tok)
  {
    LookupBinding(fields, key);
    var i :| 0 <= i < |fields| && fields[i] == (key, Lookup(fields, key));
    ElementTokensBounded(fields, i, tok);
  }

  /** An assistant message's content is one of the values the total
      counts. */
  lemma AssistantContentBounded(m: JVal, tok: string -> nat)
    requires EncodableMessage(m) && ReadableMessage(m)
    ensures (if IsAssistant(m) then tok(Get(m, "content").s) else 0) <= TextTokens(m.fields, tok)
  {
    if IsAssistant(m) {
      LookupTokensBounded(m.fields, "content", tok);
    }
  }

  lemma {:induction false} ElementTokensBounded(fields: seq<(string, JVal)>, i: nat, tok: string -> nat)
    requires AllValuesAreStrings(fields)
    requires i < |fields|
    ensures tok(fields[i].1.s) <= TextTokens(fields, tok)
  {
    if i < |fields| - 1 {
      ElementTokensBounded(fields[..|fields| - 1], i, tok);
    }
  }

  /** The assistant-only count never exceeds the total: each assistant
      message's content is one of its values, and the total adds the
      overheads on top. */
  lemma {:induction false} AssistantTokensBounded(messages: seq<JVal>, tokensPerMessage: nat,
                                                  tokensPerName: nat, tok: string -> nat)
    requires EncodableConversation(messages) && ReadableConversation(messages)
    ensures AssistantTokens(messages, tok) + tokensPerMessage * |messages|
            <= MessagesTokens(messages, tokensPerMessage, tokensPerName, tok)
    ensures AssistantTokens(messages, tok) + ReplyPrimingTokens + tokensPerMessage * |messages|
            <= ConversationTokens(messages, tokensPerMessage, tokensPerName, tok)
  {
    if messages != [] {
      var init, m := messages[..|messages| - 1], messages[|messages| - 1];
      assert EncodableConversation(init) && ReadableConversation(init);
      AssistantTokensBounded(init, tokensPerMessage, tokensPerName, tok);
      var own := if IsAssistant(m) then tok(Get(m, "content").s) else 0;
      AssistantContentBounded(m, tok);
      assert AssistantTokens(messages, tok) == AssistantTokens(init, tok) + own;
      assert MessagesTokens(messages, tokensPerMessage, tokensPerName, tok)
             == MessagesTokens(init, tokensPerMessage, tokensPerName, tok)
                + MessageTokens(m, tokensPerMessage, tokensPerName, tok);
      OverheadStep(tokensPerMessage, |init|);
    }
  }

  lemma {:induction false} MessagesTokensAppend(a: seq<JVal>, b: seq<JVal>, tokensPerMessage: nat,
                                                tokensPerName: nat, tok: string -> nat)
    requires EncodableConversation(a) && EncodableConversation(b)
    ensures EncodableConversation(a + b)
    ensures MessagesTokens(a + b, tokensPerMessage, tokensPerName, tok)
            == MessagesTokens(a, tokensPerMessage, tokensPerName, tok)
               + MessagesTokens(b, tokensPerMessage, tokensPerName, tok)
  {
    if b == [] {
      assert a + b == a;
    } else {
      var init := b[..|b| - 1];
      MessagesTokensAppend(a, init, tokensPerMessage, tokensPerName, tok);
      assert (a + b)[..|a + b| - 1] == a + init;
    }
  }

  /** The total is a sum over messages, so it does not depend on their
      order: any permutation of a conversation costs the same. */
  lemma {:induction false} ConversationTokensReorder(a: seq<JVal>, b: seq<JVal>, tokensPerMessage: nat,
                                                     tokensPerName: nat, tok: string -> nat)
    requires EncodableConversation(a)
    requires multiset(a) == multiset(b)
    ensures EncodableConversation(b)
    ensures ConversationTokens(a, tokensPerMessage, tokensPerName, tok)
            == ConversationTokens(b, tokensPerMessage, tokensPerName, tok)
  {
    MessagesTokensReorder(a, b, tokensPerMessage, tokensPerName, tok);
  }

  lemma {:induction false} MessagesTokensReorder(a: seq<JVal>, b: seq<JVal>, tokensPerMessage: nat,
                                                 tokensPerName: nat, tok: string -> nat)
    requires EncodableConversation(a)
    requires multiset(a) == multiset(b)
    ensures EncodableConversation(b)
    ensures MessagesTokens(a, tokensPerMessage, tokensPerName, tok)
            == MessagesTokens(b, tokensPerMessage, tokensPerName, tok)
    decreases |a|
  {
    EncodablePermutation(a, b);
    if a == [] {
      assert |multiset(b)| == 0;
    } else {
      var init, x := a[..|a| - 1], a[|a| - 1];
      assert a == init + [x];
      assert x in multiset(b);
      var k :| 0 <= k < |b| && b[k] == x;
      var rest := b[..k] + b[k + 1..];
      MultisetRemoveAt(b, k);
      assert multiset(a) == multiset(init) + multiset{x};
      assert multiset(init) == multiset(rest);
      EncodablePermutation(b, rest + [x]);
      MessagesTokensReorder(init, rest, tokensPerMessage, tokensPerName, tok);
      MessagesTokensRemoveAt(b, k, tokensPerMessage, tokensPerName, tok);
    }
  }

  lemma EncodablePermutation(a: seq<JVal>, b: seq<JVal>)
    requires EncodableConversation(a)
    requires multiset(b) <= multiset(a)
    ensures EncodableConversation(b)
  {
    forall i | 0 <= i < |b| ensures EncodableMessage(b[i]) {
      assert b[i] in multiset(a);
    }
  }

  lemma MultisetRemoveAt(b: seq<JVal>, k: nat)
    requires k < |b|
    ensures multiset(b[..k] + b[k + 1..]) == multiset(b) - multiset{b[k]}
  {
    assert b == b[..k] + [b[k]] + b[k + 1..];
  }

  /** Taking one message out of a conversation removes exactly its cost. */
  lemma MessagesTokensRemoveAt(b: seq<JVal>, k: nat, tokensPerMessage: nat,
                               tokensPerName: nat, tok: string -> nat)
    requires EncodableConversation(b)
    requires k < |b|
    ensures EncodableConversation(b[..k] + b[k + 1..])
    ensures MessagesTokens(b, tokensPerMessage, tokensPerName, tok)
            == MessagesTokens(b[..k] + b[k + 1..], tokensPerMessage, tokensPerName, tok)
               + MessageTokens(b[k], tokensPerMessage, tokensPerName, tok)
  {
    var left, x, right := b[..k], b[k], b[k + 1..];
    assert b == left + [x] + right;
    assert EncodableConversation(left) && EncodableConversation(right);
    MessagesTokensAppend(left, right, tokensPerMessage, tokensPerName, tok);
    MessagesTokensAppend(left, [x], tokensPerMessage, tokensPerName, tok);
    MessagesTokensAppend(left + [x], right, tokensPerMessage, tokensPerName, tok);
    assert [x][..0] == [];
  }
}
