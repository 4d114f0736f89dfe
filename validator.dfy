/** The per-record validation pass of run_check
    (fine_tuning_data_checker.py:59-129): a sequential scan over the decoded
    records that counts categorized errors, remembers the 1-based line of
    each, and collects three size statistics. */
module Validator {
  import opened Json
  import opened TokenCounter

  datatype Option<T> = None | Some(value: T)

  /** The error categories, keyed in the report by their labels. */
  datatype Category =
    | DataTypeError
    | MissingMessagesList
    | MessageMissingKey
    | MessageUnrecognizedKey
    | UnrecognizedRole
    | MissingContent
    | MissingAssistantMessage

  /** The key under which the report's dictionaries file category `c`. */
  function Label(c: Category): string
  {
    match c
    case DataTypeError => "Data Type Error"
    case MissingMessagesList => "Missing Messages List"
    case MessageMissingKey => "Message Missing Key"
    case MessageUnrecognizedKey => "Message Unrecognized Key"
    case UnrecognizedRole => "Unrecognized Role"
    case MissingContent => "Missing Content"
    case MissingAssistantMessage => "Missing Assistant Message"
  }

  /** The labels name the categories one to one, so keying the report by
      category is keying it by label. */
  lemma LabelsDistinct(c: Category, d: Category)
    ensures Label(c) == Label(d) <==> c == d
  {
  }

  const RecognizedKeys: seq<string> := ["role", "content", "name", "function_call"]
  const RecognizedRoles: seq<string> := ["system", "user", "assistant", "function"]

  /** The state of the scan: the two default-dictionaries of the report,
      keyed by category where the source keys them by its `Label` (a
      category is a key only once it has fired), and the three statistics
      lists. */
  datatype Validation = Validation(
    errors: map<Category, nat>,
    errorLines: map<Category, seq<nat>>,
    messagesPerExample: seq<nat>,
    convoLens: seq<nat>,
    assistantMessageLens: seq<nat>)

  const Initial: Validation := Validation(map[], map[], [], [], [])

  /** `errors[c]` read through the default-dictionary. */
  function Count(v: Validation, c: Category): nat
  {
    if c in v.errors then v.errors[c] else 0
  }

  /** `error_lines[c]` read through the default-dictionary. */
  function Lines(v: Validation, c: Category): seq<nat>
  {
    if c in v.errorLines then v.errorLines[c] else []
  }

  /** `errors[c] += 1` on a default-dictionary of counts. */
  function Increment(errors: map<Category, nat>, c: Category): map<Category, nat>
  {
    errors[c := (if c in errors then errors[c] else 0) + 1]
  }

  /** `error_lines[c].append(line)` on a default-dictionary of lists. */
  function AppendLine(errorLines: map<Category, seq<nat>>, c: Category, line: nat): map<Category, seq<nat>>
  {
    errorLines[c := (if c in errorLines then errorLines[c] else []) + [line]]
  }

  /** Records one error of category `c` on `line`. */
  function AddError(v: Validation, c: Category, line: nat): Validation
  {
    v.(errors := Increment(v.errors, c), errorLines := AppendLine(v.errorLines, c, line))
  }

  // ---------------------------------------------------------------------
  // The five message checks

  /** The message lacks a `role` or a `content` key. */
  predicate LacksRoleOrContent(m: JVal)
  {
    !HasKey(m, "role") || !HasKey(m, "content")
  }

  /** Some key outside role, content, name and function_call. */
  predicate HasUnrecognizedKey(m: JVal)
  {
    m.JObject? && exists i :: 0 <= i < |m.fields| && m.fields[i].0 !in RecognizedKeys
  }

  /** The role, defaulting to `None`, is not one of the four roles. */
  predicate HasUnrecognizedRole(m: JVal)
  {
    var role := Get(m, "role");
    !(role.JString? && role.s in RecognizedRoles)
  }

  /** No usable content: neither content nor function call is truthy, or
      the content is not text. */
  predicate LacksContent(m: JVal)
  {
    var content := Get(m, "content");
    var functionCall := Get(m, "function_call");
    (!Truthy(content) && !Truthy(functionCall)) || !content.JString?
  }

  predicate HasAssistant(conversation: seq<JVal>)
  {
    exists i :: 0 <= i < |conversation| && IsAssistant(conversation[i])
  }

  /** What the five checks find for one message, in source order. */
  datatype Checks = Checks(missingKey: bool, unrecognizedKey: bool, unrecognizedRole: bool,
                           missingContent: bool, missingAssistant: bool)

  function Evaluate(m: JVal, conversation: seq<JVal>): Checks
  {
    Checks(LacksRoleOrContent(m), HasUnrecognizedKey(m), HasUnrecognizedRole(m),
           LacksContent(m), !HasAssistant(conversation))
  }

  /** Whether the findings `k` report category `c`: each message-level
      category has its own check, the two record-level ones none. */
  predicate Flag(c: Category, k: Checks)
  {
    match c
    case DataTypeError => false
    case MissingMessagesList => false
    case MessageMissingKey => k.missingKey
    case MessageUnrecognizedKey => k.unrecognizedKey
    case UnrecognizedRole => k.unrecognizedRole
    case MissingContent => k.missingContent
    case MissingAssistantMessage => k.missingAssistant
  }

  /** Whether category `c` fires for message `m` of `conversation`. */
  predicate Fires(c: Category, m: JVal, conversation: seq<JVal>)
  {
    Flag(c, Evaluate(m, conversation))
  }

  /** A conversation both token counters can process without raising. */
  predicate Countable(conversation: seq<JVal>)
  {
    EncodableConversation(conversation) && ReadableConversation(conversation)
  }

  // ---------------------------------------------------------------------
  // The scan as functions

  /** Records an error of category `c` on `line` when `fired` holds. */
  function AddIf(v: Validation, fired: bool, c: Category, line: nat): Validation
  {
    if fired then AddError(v, c, line) else v
  }

  /** Records the findings `k` of the five checks, in source order. */
  function ApplyChecks(v: Validation, k: Checks, line: nat): Validation
  {
    var v1 := AddIf(v, k.missingKey, MessageMissingKey, line);
    var v2 := AddIf(v1, k.unrecognizedKey, MessageUnrecognizedKey, line);
    var v3 := AddIf(v2, k.unrecognizedRole, UnrecognizedRole, line);
    var v4 := AddIf(v3, k.missingContent, MissingContent, line);
    AddIf(v4, k.missingAssistant, MissingAssistantMessage, line)
  }

  /** The five message checks of lines 98-125. */
  function CheckMessage(v: Validation, m: JVal, conversation: seq<JVal>, line: nat): Validation
  {
    ApplyChecks(v, Evaluate(m, conversation), line)
  }

  /** One entry in each statistics list, computed for the whole
      conversation. */
  function AppendStatistics(v: Validation, conversation: seq<JVal>, tok: string -> nat): Validation
    requires Countable(conversation)
  {
    v.(messagesPerExample := v.messagesPerExample + [|conversation|],
       convoLens := v.convoLens
                    + [ConversationTokens(conversation, DefaultTokensPerMessage, DefaultTokensPerName, tok)],
       assistantMessageLens := v.assistantMessageLens + [AssistantTokens(conversation, tok)])
  }

  /** One iteration of the message loop: the checks, then the statistics
      appended at the end of the loop body. */
  function MessageStep(v: Validation, m: JVal, conversation: seq<JVal>, line: nat, tok: string -> nat): Validation
    requires Countable(conversation)
  {
    AppendStatistics(CheckMessage(v, m, conversation, line), conversation, tok)
  }

  /** The message loop over the first messages `done` of `conversation`. */
  function MessagesStep(v: Validation, done: seq<JVal>, conversation: seq<JVal>, line: nat, tok: string -> nat): Validation
    requires Countable(conversation)
  {
    if done == [] then v
    else MessageStep(MessagesStep(v, done[..|done| - 1], conversation, line, tok), done[|done| - 1], conversation, line, tok)
  }

  /** A record that reaches the message loop: a dictionary with a truthy
      `messages`. */
  predicate StructurallyValid(record: JVal)
  {
    record.JObject? && Truthy(Get(record, "messages"))
  }

  /** Whether processing `record` raises: `messages` is truthy but not a
      list (iterating it yields strings, and `.get` on a string raises, or
      it is not iterable at all), or a message that the checks or the
      counters cannot handle. */
  predicate Raises(record: JVal)
  {
    StructurallyValid(record) &&
    var messages := Get(record, "messages");
    !messages.JArray? || !Countable(messages.items)
  }

  /** One iteration of the record loop on line `line`; None when the
      record raises, which ends the whole run. */
  function RecordStep(v: Validation, record: JVal, line: nat, tok: string -> nat): Option<Validation>
  {
    if !record.JObject? then Some(AddError(v, DataTypeError, line))
    else
      var messages := Get(record, "messages");
      if !Truthy(messages) then Some(AddError(v, MissingMessagesList, line))
      else if Raises(record) then None
      else Some(MessagesStep(v, messages.items, messages.items, line, tok))
  }

  /** The whole scan over a dataset; lines are numbered from 1. */
  function ValidateAll(dataset: seq<JVal>, tok: string -> nat): Option<Validation>
  {
    if dataset == [] then Some(Initial)
    else
      match ValidateAll(dataset[..|dataset| - 1], tok)
      case None => None
      case Some(v) => RecordStep(v, dataset[|dataset| - 1], |dataset|, tok)
  }

  /** A record's contribution to the length of each statistics list. */
  function RecordMessages(record: JVal): nat
  {
    if StructurallyValid(record) && Get(record, "messages").JArray?
    then |Get(record, "messages").items| else 0
  }

  /** Number of messages over all structurally valid records. */
  function ValidMessages(dataset: seq<JVal>): nat
  {
    if dataset == [] then 0
    else ValidMessages(dataset[..|dataset| - 1]) + RecordMessages(dataset[|dataset| - 1])
  }

  /** Number of errors of every category together. */
  function TotalErrors(v: Validation): nat
  {
    Count(v, DataTypeError) + Count(v, MissingMessagesList) + Count(v, MessageMissingKey)
    + Count(v, MessageUnrecognizedKey) + Count(v, UnrecognizedRole) + Count(v, MissingContent)
    + Count(v, MissingAssistantMessage)
  }

  function Indicator(b: bool): nat { if b then 1 else 0 }

  /** How many of the findings `k` are errors. */
  function FlagCount(k: Checks): nat
  {
    Indicator(k.missingKey) + Indicator(k.unrecognizedKey) + Indicator(k.unrecognizedRole)
    + Indicator(k.missingContent) + Indicator(k.missingAssistant)
  }

  /** How many of the five message checks fire for `m`. */
  function FiredChecks(m: JVal, conversation: seq<JVal>): nat
  {
    FlagCount(Evaluate(m, conversation))
  }

  /** How many of the messages `done` fire the check of category `c`. */
  function Firings(c: Category, done: seq<JVal>, conversation: seq<JVal>): nat
  {
    if done == [] then 0
    else Firings(c, done[..|done| - 1], conversation) + Indicator(Fires(c, done[|done| - 1], conversation))
  }

  // ---------------------------------------------------------------------
  // Invariants of the report

  /** Each count is the length of its list of lines, and the two
      dictionaries have the same keys, each bound to a non-empty list. */
  ghost predicate CountsMatchLines(v: Validation)
  {
    && (forall c :: Count(v, c) == |Lines(v, c)|)
    && (forall c :: c in v.errors <==> c in v.errorLines)
    && (forall c :: c in v.errorLines ==> v.errorLines[c] != [])
  }

  /** Every recorded line lies in 1..n. */
  ghost predicate LinesWithin(v: Validation, n: nat)
  {
    forall c, i :: 0 <= i < |Lines(v, c)| ==> 1 <= Lines(v, c)[i] <= n
  }

  /** Every list of lines is nondecreasing. */
  ghost predicate LinesSorted(v: Validation)
  {
    forall c, i, j :: 0 <= i <= j < |Lines(v, c)| ==> Lines(v, c)[i] <= Lines(v, c)[j]
  }

  ghost predicate StatsAligned(v: Validation)
  {
    |v.messagesPerExample| == |v.convoLens| == |v.assistantMessageLens|
  }

  ghost predicate WellFormed(v: Validation, n: nat)
  {
    CountsMatchLines(v) && LinesWithin(v, n) && LinesSorted(v) && StatsAligned(v)
  }

  // ---------------------------------------------------------------------
  // The scan as the source writes it

  /** The validation loop of run_check, with the report and the statistics
      as local state updated in place. None when a record raises. */
  method Validate(dataset: seq<JVal>, tok: string -> nat) returns (r: Option<Validation>)
    ensures r == ValidateAll(dataset, tok)
    ensures r.Some? ==> WellFormed(r.value, |dataset|)
    ensures r.Some? ==> |r.value.convoLens| == ValidMessages(dataset)
  {
    var errors: map<Category, nat> := map[];
    var errorLines: map<Category, seq<nat>> := map[];
    var numberOfMessagesPerExample: seq<nat> := [];
    var convoLens: seq<nat> := [];
    var assistantMessageLens: seq<nat> := [];
    var lineNumber: nat := 0;
    for k := 0 to |dataset|
      invariant lineNumber == k
      invariant ValidateAll(dataset[..k], tok)
                == Some(Validation(errors, errorLines, numberOfMessagesPerExample, convoLens, assistantMessageLens))
    {
      var example := dataset[k];
      assert dataset[..k + 1][..k] == dataset[..k];
      lineNumber := lineNumber + 1;
      if !example.JObject? {
        errors := Increment(errors, DataTypeError);
        errorLines := AppendLine(errorLines, DataTypeError, lineNumber);
        continue;
      }
      var messages := Get(example, "messages");
      if !Truthy(messages) {
        errors := Increment(errors, MissingMessagesList);
        errorLines := AppendLine(errorLines, MissingMessagesList, lineNumber);
        continue;
      }
      if !messages.JArray? || !Countable(messages.items) {
        assert Raises(example);
        AbortIsFinal(dataset, k + 1, tok);
        return None;
      }
      assert !Raises(example);
      errors, errorLines, numberOfMessagesPerExample, convoLens, assistantMessageLens :=
        ScanMessages(errors, errorLines, numberOfMessagesPerExample, convoLens, assistantMessageLens,
                     messages.items, lineNumber, tok);
    }
    assert dataset[..|dataset|] == dataset;
    r := Some(Validation(errors, errorLines, numberOfMessagesPerExample, convoLens, assistantMessageLens));
    ValidateAllWellFormed(dataset, tok);
    ValidateAllStatistics(dataset, tok);
  }

  /** The message loop of lines 96-129 over one conversation, on local
      state the caller passes in and takes back. */
  method ScanMessages(errors: map<Category, nat>, errorLines: map<Category, seq<nat>>,
                      numberOfMessagesPerExample: seq<nat>, convoLens: seq<nat>, assistantMessageLens: seq<nat>,
                      conversation: seq<JVal>, lineNumber: nat, tok: string -> nat)
    returns (errors': map<Category, nat>, errorLines': map<Category, seq<nat>>,
             numberOfMessagesPerExample': seq<nat>, convoLens': seq<nat>, assistantMessageLens': seq<nat>)
    requires Countable(conversation)
    ensures MessagesStep(Validation(errors, errorLines, numberOfMessagesPerExample, convoLens, assistantMessageLens),
                         conversation, conversation, lineNumber, tok)
            == Validation(errors', errorLines', numberOfMessagesPerExample', convoLens', assistantMessageLens')
  {
    ghost var before := Validation(errors, errorLines, numberOfMessagesPerExample, convoLens, assistantMessageLens);
    errors', errorLines' := errors, errorLines;
    numberOfMessagesPerExample', convoLens', assistantMessageLens' :=
      numberOfMessagesPerExample, convoLens, assistantMessageLens;
    for j := 0 to |conversation|
      invariant MessagesStep(before, conversation[..j], conversation, lineNumber, tok)
                == Validation(errors', errorLines', numberOfMessagesPerExample', convoLens', assistantMessageLens')
    {
      var message := conversation[j];
      errors', errorLines' := CheckMessageInPlace(errors', errorLines', message, conversation, lineNumber);
      numberOfMessagesPerExample' := numberOfMessagesPerExample' + [|conversation|];
      var total := NumberOfTokensFromMessages(conversation, tok);
      convoLens' := convoLens' + [total];
      var assistant := NumberOfAssistantTokensFromMessages(conversation, tok);
      assistantMessageLens' := assistantMessageLens' + [assistant];
      assert conversation[..j + 1][..j] == conversation[..j];
    }
    assert conversation[..|conversation|] == conversation;
  }

  /** Lines 98-125 for one message: the five checks updating the two
      dictionaries of the report in place. */
  method CheckMessageInPlace(errors: map<Category, nat>, errorLines: map<Category, seq<nat>>,
                             message: JVal, conversation: seq<JVal>, lineNumber: nat)
    returns (errors': map<Category, nat>, errorLines': map<Category, seq<nat>>)
    ensures forall p: seq<nat>, q: seq<nat>, t: seq<nat> ::
      CheckMessage(Validation(errors, errorLines, p, q, t), message, conversation, lineNumber)
      == Validation(errors', errorLines', p, q, t)
  {
    ghost var k := Evaluate(message, conversation);
    errors', errorLines' := errors, errorLines;
    if !HasKey(message, "role") || !HasKey(message, "content") {
      errors' := Increment(errors', MessageMissingKey);
      errorLines' := AppendLine(errorLines', MessageMissingKey, lineNumber);
    }
    ghost var e1, l1 := errors', errorLines';
    if HasUnrecognizedKey(message) {
      errors' := Increment(errors', MessageUnrecognizedKey);
      errorLines' := AppendLine(errorLines', MessageUnrecognizedKey, lineNumber);
    }
    ghost var e2, l2 := errors', errorLines';
    if HasUnrecognizedRole(message) {
      errors' := Increment(errors', UnrecognizedRole);
      errorLines' := AppendLine(errorLines', UnrecognizedRole, lineNumber);
    }
    ghost var e3, l3 := errors', errorLines';
    var content := Get(message, "content");
    var functionCall := Get(message, "function_call");
    if (!Truthy(content) && !Truthy(functionCall)) || !content.JString? {
      errors' := Increment(errors', MissingContent);
      errorLines' := AppendLine(errorLines', MissingContent, lineNumber);
    }
    ghost var e4, l4 := errors', errorLines';
    if !HasAssistant(conversation) {
      errors' := Increment(errors', MissingAssistantMessage);
      errorLines' := AppendLine(errorLines', MissingAssistantMessage, lineNumber);
    }
    forall p: seq<nat>, q: seq<nat>, t: seq<nat>
      ensures CheckMessage(Validation(errors, errorLines, p, q, t), message, conversation, lineNumber)
              == Validation(errors', errorLines', p, q, t)
    {
      var v0 := Validation(errors, errorLines, p, q, t);
      assert CheckMessage(v0, message, conversation, lineNumber) == ApplyChecks(v0, k, lineNumber);
      var v1 := AddIf(v0, k.missingKey, MessageMissingKey, lineNumber);
      assert v1 == Validation(e1, l1, p, q, t);
      var v2 := AddIf(v1, k.unrecognizedKey, MessageUnrecognizedKey, lineNumber);
      assert v2 == Validation(e2, l2, p, q, t);
      var v3 := AddIf(v2, k.unrecognizedRole, UnrecognizedRole, lineNumber);
      assert v3 == Validation(e3, l3, p, q, t);
      var v4 := AddIf(v3, k.missingContent, MissingContent, lineNumber);
      assert v4 == Validation(e4, l4, p, q, t);
      assert AddIf(v4, k.missingAssistant, MissingAssistantMessage, lineNumber) == Validation(errors', errorLines', p, q, t);
    }
  }

  /** Once a record raises, the run has ended: no later record changes
      that. */
  lemma {:induction false} AbortIsFinal(dataset: seq<JVal>, k: nat, tok: string -> nat)
    requires k <= |dataset|
    requires ValidateAll(dataset[..k], tok).None?
    ensures ValidateAll(dataset, tok).None?
    decreases |dataset| - k
  {
    if k < |dataset| {
      assert dataset[..k + 1][..k] == dataset[..k];
      AbortIsFinal(dataset, k + 1, tok);
    } else {
      assert dataset[..k] == dataset;
    }
  }

  // ---------------------------------------------------------------------
  // Properties of the scan

  /** What recording one error does to category `d` of the report. */
  lemma AddIfAt(v: Validation, fired: bool, c: Category, line: nat, d: Category)
    ensures var r := AddIf(v, fired, c, line);
            && Count(r, d) == Count(v, d) + (if fired && d == c then 1 else 0)
            && Lines(r, d) == Lines(v, d) + (if fired && d == c then [line] else [])
            && (d in r.errors <==> d in v.errors || (fired && d == c))
            && (d in r.errorLines <==> d in v.errorLines || (fired && d == c))
            && r.messagesPerExample == v.messagesPerExample && r.convoLens == v.convoLens
            && r.assistantMessageLens == v.assistantMessageLens
  {
  }

  lemma AddIfWellFormed(v: Validation, fired: bool, c: Category, line: nat)
    requires WellFormed(v, line) && line >= 1
    ensures WellFormed(AddIf(v, fired, c, line), line)
  {
    var r := AddIf(v, fired, c, line);
    forall d ensures Count(r, d) == |Lines(r, d)| && (d in r.errors <==> d in r.errorLines)
      ensures d in r.errorLines ==> r.errorLines[d] != []
      ensures forall i :: 0 <= i < |Lines(r, d)| ==> 1 <= Lines(r, d)[i] <= line
      ensures forall i, j :: 0 <= i <= j < |Lines(r, d)| ==> Lines(r, d)[i] <= Lines(r, d)[j]
    {
      AddIfAt(v, fired, c, line, d);
      assert d in r.errorLines ==> r.errorLines[d] == Lines(r, d);
    }
    AddIfAt(v, fired, c, line, c);
  }

  lemma WellFormedWeaken(v: Validation, n: nat, m: nat)
    requires WellFormed(v, n) && n <= m
    ensures WellFormed(v, m)
  {
  }

  /** Recording an error of another category leaves category `d` alone. */
  lemma AddIfOther(v: Validation, fired: bool, c: Category, line: nat, d: Category)
    requires d != c
    ensures var r := AddIf(v, fired, c, line);
            Count(r, d) == Count(v, d) && Lines(r, d) == Lines(v, d)
  {
  }

  lemma AddIfSame(v: Validation, fired: bool, c: Category, line: nat)
    ensures var r := AddIf(v, fired, c, line);
            && Count(r, c) == Count(v, c) + Indicator(fired)
            && Lines(r, c) == Lines(v, c) + (if fired then [line] else [])
  {
  }

  /** What recording the findings `k` does to category `d` of the report. */
  lemma ApplyChecksAt(v: Validation, k: Checks, line: nat, d: Category)
    ensures var r := ApplyChecks(v, k, line);
            && Count(r, d) == Count(v, d) + Indicator(Flag(d, k))
            && Lines(r, d) == Lines(v, d) + (if Flag(d, k) then [line] else [])
  {
    var v1 := AddIf(v, k.missingKey, MessageMissingKey, line);
    var v2 := AddIf(v1, k.unrecognizedKey, MessageUnrecognizedKey, line);
    var v3 := AddIf(v2, k.unrecognizedRole, UnrecognizedRole, line);
    var v4 := AddIf(v3, k.missingContent, MissingContent, line);
    match d
    case DataTypeError =>
      AddIfOther(v, k.missingKey, MessageMissingKey, line, d);
      AddIfOther(v1, k.unrecognizedKey, MessageUnrecognizedKey, line, d);
      AddIfOther(v2, k.unrecognizedRole, UnrecognizedRole, line, d);
      AddIfOther(v3, k.missingContent, MissingContent, line, d);
      AddIfOther(v4, k.missingAssistant, MissingAssistantMessage, line, d);
    case MissingMessagesList =>
      AddIfOther(v, k.missingKey, MessageMissingKey, line, d);
      AddIfOther(v1, k.unrecognizedKey, MessageUnrecognizedKey, line, d);
      AddIfOther(v2, k.unrecognizedRole, UnrecognizedRole, line, d);
      AddIfOther(v3, k.missingContent, MissingContent, line, d);
      AddIfOther(v4, k.missingAssistant, MissingAssistantMessage, line, d);
    case MessageMissingKey =>
      AddIfSame(v, k.missingKey, MessageMissingKey, line);
      AddIfOther(v1, k.unrecognizedKey, MessageUnrecognizedKey, line, d);
      AddIfOther(v2, k.unrecognizedRole, UnrecognizedRole, line, d);
      AddIfOther(v3, k.missingContent, MissingContent, line, d);
      AddIfOther(v4, k.missingAssistant, MissingAssistantMessage, line, d);
    case MessageUnrecognizedKey =>
      AddIfOther(v, k.missingKey, MessageMissingKey, line, d);
      AddIfSame(v1, k.unrecognizedKey, MessageUnrecognizedKey, line);
      AddIfOther(v2, k.unrecognizedRole, UnrecognizedRole, line, d);
      AddIfOther(v3, k.missingContent, MissingContent, line, d);
      AddIfOther(v4, k.missingAssistant, MissingAssistantMessage, line, d);
    case UnrecognizedRole =>
      AddIfOther(v, k.missingKey, MessageMissingKey, line, d);
      AddIfOther(v1, k.unrecognizedKey, MessageUnrecognizedKey, line, d);
      AddIfSame(v2, k.unrecognizedRole, UnrecognizedRole, line);
      AddIfOther(v3, k.missingContent, MissingContent, line, d);
      AddIfOther(v4, k.missingAssistant, MissingAssistantMessage, line, d);
    case MissingContent =>
      AddIfOther(v, k.missingKey, MessageMissingKey, line, d);
      AddIfOther(v1, k.unrecognizedKey, MessageUnrecognizedKey, line, d);
      AddIfOther(v2, k.unrecognizedRole, UnrecognizedRole, line, d);
      AddIfSame(v3, k.missingContent, MissingContent, line);
      AddIfOther(v4, k.missingAssistant, MissingAssistantMessage, line, d);
    case MissingAssistantMessage =>
      AddIfOther(v, k.missingKey, MessageMissingKey, line, d);
      AddIfOther(v1, k.unrecognizedKey, MessageUnrecognizedKey, line, d);
      AddIfOther(v2, k.unrecognizedRole, UnrecognizedRole, line, d);
      AddIfOther(v3, k.missingContent, MissingContent, line, d);
      AddIfSame(v4, k.missingAssistant, MissingAssistantMessage, line);
  }

  /** The checks leave the statistics lists alone. */
  lemma ApplyChecksKeepsStatistics(v: Validation, k: Checks, line: nat)
    ensures var r := ApplyChecks(v, k, line);
            && r.messagesPerExample == v.messagesPerExample && r.convoLens == v.convoLens
            && r.assistantMessageLens == v.assistantMessageLens
  {
  }

  /** What the five checks of one message do to category `d`: one error
      on `line` exactly when that category's check fires, and the
      statistics lists left alone. */
  lemma CheckMessageAt(v: Validation, m: JVal, conversation: seq<JVal>, line: nat, d: Category)
    ensures var r := CheckMessage(v, m, conversation, line);
            && Count(r, d) == Count(v, d) + Indicator(Fires(d, m, conversation))
            && Lines(r, d) == Lines(v, d) + (if Fires(d, m, conversation) then [line] else [])
            && r.messagesPerExample == v.messagesPerExample && r.convoLens == v.convoLens
            && r.assistantMessageLens == v.assistantMessageLens
  {
    ApplyChecksAt(v, Evaluate(m, conversation), line, d);
    ApplyChecksKeepsStatistics(v, Evaluate(m, conversation), line);
  }

  /** One iteration of the message loop, seen from category `d`. */
  lemma MessageStepAt(v: Validation, m: JVal, conversation: seq<JVal>, line: nat, tok: string -> nat, d: Category)
    requires Countable(conversation)
    ensures var r := MessageStep(v, m, conversation, line, tok);
            && Count(r, d) == Count(v, d) + Indicator(Fires(d, m, conversation))
            && Lines(r, d) == Lines(v, d) + (if Fires(d, m, conversation) then [line] else [])
  {
    var checked := CheckMessage(v, m, conversation, line);
    CheckMessageAt(v, m, conversation, line, d);
    var r := AppendStatistics(checked, conversation, tok);
    assert r.errors == checked.errors && r.errorLines == checked.errorLines;
  }

  lemma ApplyChecksWellFormed(v: Validation, k: Checks, line: nat)
    requires WellFormed(v, line) && line >= 1
    ensures WellFormed(ApplyChecks(v, k, line), line)
  {
    var v1 := AddIf(v, k.missingKey, MessageMissingKey, line);
    var v2 := AddIf(v1, k.unrecognizedKey, MessageUnrecognizedKey, line);
    var v3 := AddIf(v2, k.unrecognizedRole, UnrecognizedRole, line);
    var v4 := AddIf(v3, k.missingContent, MissingContent, line);
    AddIfWellFormed(v, k.missingKey, MessageMissingKey, line);
    AddIfWellFormed(v1, k.unrecognizedKey, MessageUnrecognizedKey, line);
    AddIfWellFormed(v2, k.unrecognizedRole, UnrecognizedRole, line);
    AddIfWellFormed(v3, k.missingContent, MissingContent, line);
    AddIfWellFormed(v4, k.missingAssistant, MissingAssistantMessage, line);
  }

  lemma MessageStepWellFormed(v: Validation, m: JVal, conversation: seq<JVal>, line: nat, tok: string -> nat)
    requires Countable(conversation)
    requires WellFormed(v, line) && line >= 1
    ensures WellFormed(MessageStep(v, m, conversation, line, tok), line)
  {
    ApplyChecksWellFormed(v, Evaluate(m, conversation), line);
    AppendStatisticsWellFormed(CheckMessage(v, m, conversation, line), conversation, line, tok);
  }

  lemma AppendStatisticsWellFormed(v: Validation, conversation: seq<JVal>, line: nat, tok: string -> nat)
    requires Countable(conversation)
    requires WellFormed(v, line)
    ensures WellFormed(AppendStatistics(v, conversation, tok), line)
  {
    var r := AppendStatistics(v, conversation, tok);
    assert r.errors == v.errors && r.errorLines == v.errorLines;
    assert forall c :: Lines(r, c) == Lines(v, c) && Count(r, c) == Count(v, c);
  }

  lemma {:induction false} MessagesStepWellFormed(v: Validation, done: seq<JVal>, conversation: seq<JVal>,
                                                  line: nat, tok: string -> nat)
    requires Countable(conversation)
    requires WellFormed(v, line) && line >= 1
    ensures WellFormed(MessagesStep(v, done, conversation, line, tok), line)
  {
    if done != [] {
      MessagesStepWellFormed(v, done[..|done| - 1], conversation, line, tok);
      MessageStepWellFormed(MessagesStep(v, done[..|done| - 1], conversation, line, tok),
                            done[|done| - 1], conversation, line, tok);
    }
  }

  /** After the scan, every count equals the number of lines recorded for
      its category, every line lies between 1 and the number of records, the
      lines of each category are in nondecreasing order, and the three
      statistics lists have the same length. */
  lemma {:induction false} ValidateAllWellFormed(dataset: seq<JVal>, tok: string -> nat)
    ensures ValidateAll(dataset, tok).Some? ==> WellFormed(ValidateAll(dataset, tok).value, |dataset|)
  {
    if dataset != [] {
      var init, record, line := dataset[..|dataset| - 1], dataset[|dataset| - 1], |dataset|;
      ValidateAllWellFormed(init, tok);
      match ValidateAll(init, tok)
      case None =>
      case Some(v) =>
        WellFormedWeaken(v, line - 1, line);
        if !record.JObject? {
          AddIfWellFormed(v, true, DataTypeError, line);
        } else if !Truthy(Get(record, "messages")) {
          AddIfWellFormed(v, true, MissingMessagesList, line);
        } else if RecordStep(v, record, line, tok).Some? {
          var items := Get(record, "messages").items;
          MessagesStepWellFormed(v, items, items, line, tok);
        }
    }
  }

  /** One message appends the conversation's figures to each list. */
  lemma MessageStepStatistics(v: Validation, m: JVal, conversation: seq<JVal>, line: nat, tok: string -> nat)
    requires Countable(conversation)
    ensures var r := MessageStep(v, m, conversation, line, tok);
            && r.messagesPerExample == v.messagesPerExample + [|conversation|]
            && r.convoLens == v.convoLens
               + [ConversationTokens(conversation, DefaultTokensPerMessage, DefaultTokensPerName, tok)]
            && r.assistantMessageLens == v.assistantMessageLens + [AssistantTokens(conversation, tok)]
  {
    CheckMessageAt(v, m, conversation, line, DataTypeError);
  }

  /** The message loop appends, for every message of the conversation,
      the conversation's own figures: each statistics list grows by as many
      copies of them as the conversation has messages. */
  lemma {:induction false} MessagesStepStatistics(v: Validation, done: seq<JVal>, conversation: seq<JVal>,
                                                  line: nat, tok: string -> nat)
    requires Countable(conversation)
    ensures var r := MessagesStep(v, done, conversation, line, tok);
            && r.messagesPerExample == v.messagesPerExample + Repeat(|conversation|, |done|)
            && r.convoLens == v.convoLens
               + Repeat(ConversationTokens(conversation, DefaultTokensPerMessage, DefaultTokensPerName, tok), |done|)
            && r.assistantMessageLens == v.assistantMessageLens + Repeat(AssistantTokens(conversation, tok), |done|)
  {
    if done != [] {
      var n := |done| - 1;
      var prev := MessagesStep(v, done[..n], conversation, line, tok);
      MessagesStepStatistics(v, done[..n], conversation, line, tok);
      var r := MessagesStep(v, done, conversation, line, tok);
      assert r == MessageStep(prev, done[n], conversation, line, tok);
      MessageStepStatistics(prev, done[n], conversation, line, tok);
      var total := ConversationTokens(conversation, DefaultTokensPerMessage, DefaultTokensPerName, tok);
      var assistant := AssistantTokens(conversation, tok);
      SnocRepeat(v.messagesPerExample, |conversation|, n);
      SnocRepeat(v.convoLens, total, n);
      SnocRepeat(v.assistantMessageLens, assistant, n);
    }
  }

  lemma SnocRepeat(s: seq<nat>, x: nat, n: nat)
    ensures s + Repeat(x, n) + [x] == s + Repeat(x, n + 1)
  {
    RepeatSnoc(x, n);
    assert s + Repeat(x, n) + [x] == s + (Repeat(x, n) + [x]);
  }

  function Repeat(x: nat, n: nat): (r: seq<nat>)
    ensures |r| == n && forall i :: 0 <= i < n ==> r[i] == x
  {
    if n == 0 then [] else [x] + Repeat(x, n - 1)
  }

  lemma RepeatSnoc(x: nat, n: nat)
    ensures Repeat(x, n + 1) == Repeat(x, n) + [x]
  {
  }

  /** The statistics lists have one entry per message of every
      structurally valid record, not one per record. */
  lemma {:induction false} ValidateAllStatistics(dataset: seq<JVal>, tok: string -> nat)
    ensures ValidateAll(dataset, tok).Some? ==> |ValidateAll(dataset, tok).value.convoLens| == ValidMessages(dataset)
  {
    if dataset != [] {
      var init, record, line := dataset[..|dataset| - 1], dataset[|dataset| - 1], |dataset|;
      ValidateAllStatistics(init, tok);
      match ValidateAll(init, tok)
      case None =>
      case Some(v) =>
        if RecordStep(v, record, line, tok).Some? && StructurallyValid(record) {
          var items := Get(record, "messages").items;
          MessagesStepStatistics(v, items, items, line, tok);
        }
    }
  }

  /** The five message checks are independent: for every category, the
      message adds one error on the current line exactly when that
      category's check fires, whatever the other checks find, and it adds
      one entry to each statistics list. */
  lemma MessageChecksIndependent(v: Validation, m: JVal, conversation: seq<JVal>, line: nat, tok: string -> nat)
    requires Countable(conversation)
    ensures var r := MessageStep(v, m, conversation, line, tok);
            && (forall c :: Count(r, c) == Count(v, c) + (if Fires(c, m, conversation) then 1 else 0))
            && (forall c :: Lines(r, c) == Lines(v, c) + (if Fires(c, m, conversation) then [line] else []))
            && |r.messagesPerExample| == |v.messagesPerExample| + 1
            && |r.convoLens| == |v.convoLens| + 1
            && |r.assistantMessageLens| == |v.assistantMessageLens| + 1
  {
    forall c ensures var r := MessageStep(v, m, conversation, line, tok);
        && Count(r, c) == Count(v, c) + (if Fires(c, m, conversation) then 1 else 0)
        && Lines(r, c) == Lines(v, c) + (if Fires(c, m, conversation) then [line] else [])
    {
      MessageStepAt(v, m, conversation, line, tok, c);
    }
    CheckMessageAt(v, m, conversation, line, DataTypeError);
  }

  /** One message adds as many errors as its checks fire, so at most
      five, all on the same line. */
  lemma MessageAddsAtMostFive(v: Validation, m: JVal, conversation: seq<JVal>, line: nat, tok: string -> nat)
    requires Countable(conversation)
    ensures TotalErrors(MessageStep(v, m, conversation, line, tok)) == TotalErrors(v) + FiredChecks(m, conversation)
    ensures TotalErrors(MessageStep(v, m, conversation, line, tok)) <= TotalErrors(v) + 5
  {
    var r := CheckMessage(v, m, conversation, line);
    CheckMessageTotal(v, m, conversation, line);
    SameErrorsSameTotal(r, AppendStatistics(r, conversation, tok));
  }

  lemma SameErrorsSameTotal(a: Validation, b: Validation)
    requires a.errors == b.errors
    ensures TotalErrors(a) == TotalErrors(b)
  {
  }

  lemma CheckMessageTotal(v: Validation, m: JVal, conversation: seq<JVal>, line: nat)
    ensures TotalErrors(CheckMessage(v, m, conversation, line)) == TotalErrors(v) + FiredChecks(m, conversation)
  {
    ApplyChecksTotal(v, Evaluate(m, conversation), line);
  }

  lemma ApplyChecksTotal(v: Validation, k: Checks, line: nat)
    ensures TotalErrors(ApplyChecks(v, k, line)) == TotalErrors(v) + FlagCount(k)
  {
    ApplyChecksAt(v, k, line, DataTypeError);
    ApplyChecksAt(v, k, line, MissingMessagesList);
    ApplyChecksAt(v, k, line, MessageMissingKey);
    ApplyChecksAt(v, k, line, MessageUnrecognizedKey);
    ApplyChecksAt(v, k, line, UnrecognizedRole);
    ApplyChecksAt(v, k, line, MissingContent);
    ApplyChecksAt(v, k, line, MissingAssistantMessage);
  }

  /** The bound is reached: a message with an unknown role, an unknown key
      and no content, alone in its conversation, fires all five checks. */
  lemma FiveErrorsOnOneMessage(v: Validation, line: nat, tok: string -> nat)
    ensures var m := JObject([("role", JString("bot")), ("extra", JString("x"))]);
            Countable([m]) && TotalErrors(MessageStep(v, m, [m], line, tok)) == TotalErrors(v) + 5
  {
    var m := JObject([("role", JString("bot")), ("extra", JString("x"))]);
    assert Get(m, "role") == JString("bot");
    assert Get(m, "content") == JNull;
    assert !HasKey(m, "content");
    assert m.fields[1].0 !in RecognizedKeys;
    assert !IsAssistant(m);
    assert !HasAssistant([m]);
    assert Countable([m]);
    assert Evaluate(m, [m]) == Checks(true, true, true, true, true);
    assert FiredChecks(m, [m]) == 5;
    MessageAddsAtMostFive(v, m, [m], line, tok);
  }

  /** A user message with an extra key reports exactly one unrecognized
      key, and no missing key, unknown role or missing content. */
  lemma ExtraKeyExample(v: Validation, conversation: seq<JVal>, line: nat, tok: string -> nat)
    requires Countable(conversation)
    ensures var m := JObject([("role", JString("user")), ("content", JString("hi")), ("extra", JString("x"))]);
            var r := MessageStep(v, m, conversation, line, tok);
            && Count(r, MessageUnrecognizedKey) == Count(v, MessageUnrecognizedKey) + 1
            && Count(r, MessageMissingKey) == Count(v, MessageMissingKey)
            && Count(r, UnrecognizedRole) == Count(v, UnrecognizedRole)
            && Count(r, MissingContent) == Count(v, MissingContent)
  {
    var m := JObject([("role", JString("user")), ("content", JString("hi")), ("extra", JString("x"))]);
    ExtraKeyFindings(conversation);
    MessageStepAt(v, m, conversation, line, tok, MessageUnrecognizedKey);
    MessageStepAt(v, m, conversation, line, tok, MessageMissingKey);
    MessageStepAt(v, m, conversation, line, tok, UnrecognizedRole);
    MessageStepAt(v, m, conversation, line, tok, MissingContent);
  }

  /** Of the four checks on the message itself, only the unrecognised key
      fires. */
  lemma ExtraKeyFindings(conversation: seq<JVal>)
    ensures var m := JObject([("role", JString("user")), ("content", JString("hi")), ("extra", JString("x"))]);
            var k := Evaluate(m, conversation);
            !k.missingKey && k.unrecognizedKey && !k.unrecognizedRole && !k.missingContent
  {
    var m := JObject([("role", JString("user")), ("content", JString("hi")), ("extra", JString("x"))]);
    assert m.fields[0] == ("role", JString("user")) && m.fields[1] == ("content", JString("hi"));
    assert Get(m, "role") == JString("user") && Get(m, "content") == JString("hi");
    assert HasKey(m, "role") && HasKey(m, "content");
    assert m.fields[2].0 !in RecognizedKeys;
  }

  /** A record that is not a dictionary, or whose `messages` is missing or
      falsy, adds exactly one error, of the matching category, on its own
      line, and nothing to the statistics. */
  lemma RejectedRecordAddsOneError(v: Validation, record: JVal, line: nat, tok: string -> nat)
    requires !StructurallyValid(record)
    ensures var c := if !record.JObject? then DataTypeError else MissingMessagesList;
            && RecordStep(v, record, line, tok).Some?
            && var r := RecordStep(v, record, line, tok).value;
            && (forall d :: Count(r, d) == Count(v, d) + (if d == c then 1 else 0))
            && (forall d :: Lines(r, d) == Lines(v, d) + (if d == c then [line] else []))
            && TotalErrors(r) == TotalErrors(v) + 1
            && r.messagesPerExample == v.messagesPerExample && r.convoLens == v.convoLens
            && r.assistantMessageLens == v.assistantMessageLens
  {
    var c := if !record.JObject? then DataTypeError else MissingMessagesList;
    assert RecordStep(v, record, line, tok) == Some(AddIf(v, true, c, line));
    forall d ensures Count(AddIf(v, true, c, line), d) == Count(v, d) + (if d == c then 1 else 0)
      ensures Lines(AddIf(v, true, c, line), d) == Lines(v, d) + (if d == c then [line] else [])
    {
      AddIfAt(v, true, c, line, d);
    }
  }

  /** Over the messages of a conversation, each category gains one error
      per message whose check fires, every one of them on the record's
      line. */
  lemma {:induction false} MessagesStepErrors(v: Validation, done: seq<JVal>, conversation: seq<JVal>,
                                              line: nat, tok: string -> nat, c: Category)
    requires Countable(conversation)
    ensures Count(MessagesStep(v, done, conversation, line, tok), c) == Count(v, c) + Firings(c, done, conversation)
    ensures Lines(MessagesStep(v, done, conversation, line, tok), c)
            == Lines(v, c) + Repeat(line, Firings(c, done, conversation))
  {
    if done != [] {
      var n := |done| - 1;
      var prev := MessagesStep(v, done[..n], conversation, line, tok);
      var k := Firings(c, done[..n], conversation);
      MessagesStepErrors(v, done[..n], conversation, line, tok, c);
      assert MessagesStep(v, done, conversation, line, tok) == MessageStep(prev, done[n], conversation, line, tok);
      MessageStepAt(prev, done[n], conversation, line, tok, c);
      if Fires(c, done[n], conversation) {
        SnocRepeat(Lines(v, c), line, k);
      } else {
        assert Lines(prev, c) + [] == Lines(prev, c);
      }
    }
  }

  /** The assistant check looks at the whole conversation but is made once
      per message: a conversation without an assistant message reports
      "Missing Assistant Message" once for each of its messages, and one
      with an assistant message never does. */
  lemma {:induction false} MissingAssistantPerMessage(done: seq<JVal>, conversation: seq<JVal>)
    ensures Firings(MissingAssistantMessage, done, conversation) == if HasAssistant(conversation) then 0 else |done|
  {
    if done != [] {
      MissingAssistantPerMessage(done[..|done| - 1], conversation);
    }
  }

  /** The record-level categories never fire inside the message loop. */
  lemma {:induction false} RecordCategoriesNeverFireOnMessages(done: seq<JVal>, conversation: seq<JVal>)
    ensures Firings(DataTypeError, done, conversation) == 0
    ensures Firings(MissingMessagesList, done, conversation) == 0
  {
    if done != [] {
      RecordCategoriesNeverFireOnMessages(done[..|done| - 1], conversation);
    }
  }

  /** A one-line dataset whose only conversation is a user saying "hi"
      reports one "Missing Assistant Message" on line 1 and nothing else,
      and is still counted in the statistics. */
  lemma UserOnlyConversationExample(tok: string -> nat)
    ensures var m := JObject([("role", JString("user")), ("content", JString("hi"))]);
            ValidateAll([JObject([("messages", JArray([m]))])], tok)
            == Some(Validation(map[MissingAssistantMessage := 1], map[MissingAssistantMessage := [1]],
                               [1], [6 + tok("user") + tok("hi")], [0]))
  {
    var m := JObject([("role", JString("user")), ("content", JString("hi"))]);
    var record := JObject([("messages", JArray([m]))]);
    var dataset := [record];
    UserGreetingFindings();
    UserGreetingTokens(tok);
    assert dataset[..0] == [];
    assert Get(record, "messages") == JArray([m]);
    assert !Raises(record);
    var checked := AddError(Initial, MissingAssistantMessage, 1);
    assert CheckMessage(Initial, m, [m], 1) == checked;
    assert [m][..0] == [];
    assert MessagesStep(Initial, [m], [m], 1, tok) == MessageStep(Initial, m, [m], 1, tok);
    assert ValidateAll(dataset[..0], tok) == Some(Initial);
    assert RecordStep(Initial, record, 1, tok) == Some(MessagesStep(Initial, [m], [m], 1, tok));
    var noLines: seq<nat> := [];
    assert noLines + [1] == [1];
    assert checked.errors == map[MissingAssistantMessage := 1];
    assert checked.errorLines == map[MissingAssistantMessage := [1]];
    assert ValidateAll(dataset, tok) == RecordStep(Initial, record, 1, tok);
    var noStats: seq<nat> := [];
    assert noStats + [1] == [1] && noStats + [0] == [0];
    assert noStats + [6 + tok("user") + tok("hi")] == [6 + tok("user") + tok("hi")];
  }

  /** The user's greeting has both keys, known keys, a known role and text
      content; only the assistant check fires. */
  lemma UserGreetingFindings()
    ensures var m := JObject([("role", JString("user")), ("content", JString("hi"))]);
            Evaluate(m, [m]) == Checks(false, false, false, false, true) && Countable([m])
  {
    var m := JObject([("role", JString("user")), ("content", JString("hi"))]);
    assert Get(m, "role") == JString("user") && Get(m, "content") == JString("hi");
    assert HasKey(m, "role") && HasKey(m, "content");
    assert !HasUnrecognizedKey(m) by {
      assert forall i :: 0 <= i < |m.fields| ==> m.fields[i].0 in RecognizedKeys;
    }
    assert !HasAssistant([m]);
  }

  /** The greeting costs the reply priming, the per-message overhead and
      the encoded role and content; it has no assistant tokens. */
  lemma UserGreetingTokens(tok: string -> nat)
    ensures var m := JObject([("role", JString("user")), ("content", JString("hi"))]);
            && EncodableConversation([m])
            && ConversationTokens([m], DefaultTokensPerMessage, DefaultTokensPerName, tok) == 6 + tok("user") + tok("hi")
            && AssistantTokens([m], tok) == 0
  {
    var m := JObject([("role", JString("user")), ("content", JString("hi"))]);
    assert [m][..0] == [];
    assert m.fields[..1][..0] == [] && m.fields[..1] == [("role", JString("user"))];
    assert TextTokens(m.fields[..1], tok) == tok("user");
    assert TextTokens(m.fields, tok) == tok("user") + tok("hi");
    assert NameTokens(m.fields[..1], DefaultTokensPerName) == 0;
    assert NameTokens(m.fields, DefaultTokensPerName) == 0;
    assert MessagesTokens([m], DefaultTokensPerMessage, DefaultTokensPerName, tok) == 3 + tok("user") + tok("hi");
    assert Get(m, "role") == JString("user");
  }

  /** A record whose `messages` is the empty list reports one "Missing
      Messages List" and is left out of the statistics. */
  lemma EmptyMessagesExample(tok: string -> nat)
    ensures ValidateAll([JObject([("messages", JArray([]))])], tok)
            == Some(Validation(map[MissingMessagesList := 1], map[MissingMessagesList := [1]], [], [], []))
  {
    var record := JObject([("messages", JArray([]))]);
    var dataset := [record];
    assert dataset[..0] == [];
    assert ValidateAll(dataset[..0], tok) == Some(Initial);
    assert Get(record, "messages") == JArray([]);
    assert RecordStep(Initial, record, 1, tok) == Some(AddError(Initial, MissingMessagesList, 1));
    assert Increment(map[], MissingMessagesList) == map[MissingMessagesList := 1];
    var noLines: seq<nat> := [];
    assert noLines + [1] == [1];
    assert AppendLine(map[], MissingMessagesList, 1) == map[MissingMessagesList := [1]];
  }

  /** The scan ends early exactly when some record raises. */
  lemma {:induction false} ValidateAllRaises(dataset: seq<JVal>, tok: string -> nat)
    ensures ValidateAll(dataset, tok).None? <==> exists i :: 0 <= i < |dataset| && Raises(dataset[i])
  {
    if dataset != [] {
      var init, last := dataset[..|dataset| - 1], dataset[|dataset| - 1];
      ValidateAllRaises(init, tok);
      RecordStepRaises(init, last, tok);
      assert dataset == init + [last];
      if exists i :: 0 <= i < |dataset| && Raises(dataset[i]) {
        var i :| 0 <= i < |dataset| && Raises(dataset[i]);
        if i < |init| {
          assert init[i] == dataset[i];
        }
      }
    }
  }

  lemma RecordStepRaises(init: seq<JVal>, last: JVal, tok: string -> nat)
    ensures ValidateAll(init + [last], tok).None? <==> ValidateAll(init, tok).None? || Raises(last)
  {
    assert (init + [last])[..|init|] == init;
  }
}
