# Fine-tuning data checker, modelled in Dafny

`fine_tuning_data_checker.py` is a pre-flight checker for chat fine-tuning
data. It reads a JSON Lines file of training examples. Each example is a
dictionary whose `messages` is a list of chat messages. For each example it
reports categorised format errors with their 1-based line numbers. It also
collects three size statistics: the number of messages, the total tokens
and the assistant tokens of a conversation. They get one entry per message,
each holding the whole conversation's figure. Finally it estimates the default
number of training epochs and the tokens that training will bill.

This project models that core on already-decoded records:

- `json.dfy` (module `Json`): decoded JSON values, plus the dynamic
  operations the checker applies to them. These are `.get` with a default,
  `key in dict` and Python truthiness.
- `token_counter.dfy` (module `TokenCounter`): the two token counters.
  - Each counter is a method with the source's accumulator loops.
  - Each is proved equal to a specification function.
  - Lemmas prove the lower bound, the assistant-versus-total bound,
    additivity and invariance under reordering.
- `validator.dfy` (module `Validator`): the record loop of `run_check`.
  - `Validate` keeps the two default-dictionaries and the three statistics
    lists as local state. `ScanMessages` and `CheckMessageInPlace` update
    them the way the source's nested loops do.
  - All three are proved against the fold `ValidateAll`.
  - Lemmas about `ValidateAll` prove the invariants of the report, how
    each check contributes, how long the statistics lists are, and when
    the run raises.
- `estimator.dfy` (module `Estimator`): the epoch and billing arithmetic
  at the end of `run_check`.
- `checker.dfy` (module `Checker`): `run_check` as a whole. It connects
  the scan, the failure of the first distribution on empty statistics, and
  the estimate.

The tokenizer is a parameter `tok: string -> nat`. It gives the number of
tokens a text encodes to, and nothing else is assumed about it.

Four behaviours of the code are easy to miss, and the model follows the
code in each:

- The three statistics appends (lines 127-129) sit inside the
  per-message loop. So every list gets one entry per *message* of each
  structurally valid record, each entry being the whole conversation's
  figure. It does not get one entry per record.
  `Validator.ValidateAllStatistics` and `Validator.MessagesStepStatistics`
  state this. The too-long count (line 147) and the billed tokens
  (line 162) are taken over the total-token list, so they count each
  conversation once per message.
- "Missing Assistant Message" (lines 122-125) is reported once per
  message of a conversation that has no assistant message
  (`Validator.MissingAssistantPerMessage`).
- run_check has no exception handler. A validation error never stops the
  scan, but the records below make it raise, and that ends the whole run
  before the error report is printed; only the example count (line 57)
  has been printed by then:
  - a truthy `messages` that is not a list;
  - a message that is not a dictionary;
  - a message value that is not text, which reaches the encoder at line 32;
  - a message without `role`, which is indexed at line 14;
  - an assistant message without `content` (line 16).

  The model returns this as an outcome (`Validator.Raises`,
  `Checker.Outcome.Raised`). It is not a precondition.
- When no record is structurally valid, the statistics lists are empty.
  `min` over the first of them raises at line 143, so no estimate is made
  (`Checker.Outcome.NoDistribution`). As a result the estimator is reached
  only with at least one record, which is what its division at line 156
  needs.

## Model

| member | source | states |
|---|---|---|
| Json.Get | fine_tuning_data_checker.py:87 | `.get(key, None)`: the default `None` whenever the dictionary has no such key, and otherwise a value the dictionary binds to that key |
| Json.Lookup | fine_tuning_data_checker.py:113-115 | a missing key gives `None`; a present key gives the value of its first binding |
| Json.LookupBinding | fine_tuning_data_checker.py:113-115 | when the key is present, the dictionary binds it to exactly the value looked up |
| TokenCounter.AssistantContentBounded | fine_tuning_data_checker.py:16 | an assistant message's content tokens are at most the tokens of all of its values |
| TokenCounter.NumberOfTokensFromMessages | fine_tuning_data_checker.py:20-40 | the nested accumulator loops compute 3 + the sum over messages of (tokens_per_message + the tokens of every value + tokens_per_name for each `name` key); requires every message to be a dictionary of texts, as the encoder does |
| TokenCounter.NumberOfAssistantTokensFromMessages | fine_tuning_data_checker.py:6-18 | the loop computes the sum of the content tokens of the messages whose role is `assistant`; requires every message to have a `role` and every assistant message a text `content`, which the source indexes |
| TokenCounter.ConversationTokensLowerBound | fine_tuning_data_checker.py:20-40 | the total is at least 3 + tokens_per_message times the number of messages |
| TokenCounter.MessagesTokensLowerBound | fine_tuning_data_checker.py:26-36 | each message costs at least tokens_per_message |
| TokenCounter.AssistantTokensBounded | fine_tuning_data_checker.py:6-40 | the assistant count plus all per-message overheads, plus the reply priming, never exceeds the total for the same conversation |
| TokenCounter.LookupTokensBounded | fine_tuning_data_checker.py:16 | the tokens of one member's value are at most the tokens of all values of the message |
| TokenCounter.MessagesTokensAppend | fine_tuning_data_checker.py:26-36 | the per-message sum is additive over concatenated conversations |
| TokenCounter.ConversationTokensReorder | fine_tuning_data_checker.py:20-40 | any permutation of a conversation is still encodable and costs the same total |
| TokenCounter.MessagesTokensReorder | fine_tuning_data_checker.py:26-36 | the per-message sum is invariant under permutation |
| TokenCounter.MessagesTokensRemoveAt | fine_tuning_data_checker.py:26-36 | removing one message from a conversation removes exactly its own cost |
| Validator.LabelsDistinct | fine_tuning_data_checker.py:82-125 | the seven error labels the report uses as dictionary keys are pairwise distinct, so categories and labels correspond one to one |
| Validator.Validate | fine_tuning_data_checker.py:59-129 | the record loop returns exactly `ValidateAll`, or no result when a record raises; the report it returns is well formed for the dataset's line numbers and has one statistics entry per message of every valid record |
| Validator.ScanMessages | fine_tuning_data_checker.py:96-129 | the message loop over one conversation leaves the state `MessagesStep` describes: the five checks and three appends per message |
| Validator.CheckMessageInPlace | fine_tuning_data_checker.py:98-125 | the five in-place dictionary updates for one message equal `CheckMessage`, whatever the statistics lists hold |
| Validator.AbortIsFinal | fine_tuning_data_checker.py:76-129 | once a prefix of the dataset raises, the whole run raises |
| Validator.ValidateAllRaises | fine_tuning_data_checker.py:76-129 | the run raises if and only if some record raises |
| Validator.RecordStepRaises | fine_tuning_data_checker.py:76-129 | adding one record makes the run raise if and only if the run had already raised or that record raises |
| Validator.ApplyChecksAt | fine_tuning_data_checker.py:98-125 | recording the five findings adds one count and one line to a category exactly when its finding is set |
| Validator.CheckMessageAt | fine_tuning_data_checker.py:98-125 | for every category, one message adds one error on the record's line exactly when that category's check fires, and leaves the statistics alone |
| Validator.MessageStepAt | fine_tuning_data_checker.py:96-129 | one iteration of the message loop changes a category's count and lines only by that category's own check |
| Validator.MessageChecksIndependent | fine_tuning_data_checker.py:96-129 | the five checks are independent, whatever the others find: each category gains one count and one line exactly when its check fires, and each statistics list grows by one |
| Validator.MessageAddsAtMostFive | fine_tuning_data_checker.py:98-125 | one message adds exactly as many errors as its checks fire, so at most five |
| Validator.CheckMessageTotal | fine_tuning_data_checker.py:98-125 | the total error count grows by the number of checks that fire |
| Validator.ApplyChecksTotal | fine_tuning_data_checker.py:98-125 | the total error count grows by the number of findings that are set |
| Validator.FiveErrorsOnOneMessage | fine_tuning_data_checker.py:98-125 | the bound of five is reached by `{"role": "bot", "extra": "x"}` alone in its conversation |
| Validator.ExtraKeyExample | fine_tuning_data_checker.py:103-106 | `{"role": "user", "content": "hi", "extra": "x"}` reports exactly one unrecognised key, and no missing key, role or content |
| Validator.RejectedRecordAddsOneError | fine_tuning_data_checker.py:80-94 | a non-dictionary record, or one whose `messages` is missing or falsy, adds exactly one error of its category on its own line, and nothing else changes |
| Validator.MessagesStepErrors | fine_tuning_data_checker.py:96-125 | over a whole conversation, each category gains one error per message whose check fires, all on the record's line |
| Validator.MissingAssistantPerMessage | fine_tuning_data_checker.py:122-125 | a conversation without an assistant message reports "Missing Assistant Message" once per message, and one with an assistant message never does |
| Validator.RecordCategoriesNeverFireOnMessages | fine_tuning_data_checker.py:80-125 | the message checks never report "Data Type Error" or "Missing Messages List" |
| Validator.AddIfWellFormed | fine_tuning_data_checker.py:82-83 | recording one error keeps counts equal to line-list lengths, lines within range and each list nondecreasing |
| Validator.ApplyChecksWellFormed | fine_tuning_data_checker.py:98-125 | the five checks keep the report well formed |
| Validator.MessageStepWellFormed | fine_tuning_data_checker.py:96-129 | one message loop iteration keeps the report well formed |
| Validator.MessagesStepWellFormed | fine_tuning_data_checker.py:96-129 | the message loop keeps the report well formed |
| Validator.ValidateAllWellFormed | fine_tuning_data_checker.py:74-129 | after the scan, each count equals the length of its line list, the two dictionaries have the same keys, every line lies in 1..len(dataset), every line list is nondecreasing and the three statistics lists have equal length |
| Validator.MessageStepStatistics | fine_tuning_data_checker.py:127-129 | one message appends the conversation's length, total tokens and assistant tokens |
| Validator.MessagesStepStatistics | fine_tuning_data_checker.py:127-129 | a conversation of n messages appends n copies of its own three figures |
| Validator.ValidateAllStatistics | fine_tuning_data_checker.py:96-129 | the statistics lists have exactly as many entries as there are messages across structurally valid records |
| Validator.UserOnlyConversationExample | fine_tuning_data_checker.py:76-129 | a dataset whose only record is a user saying "hi" reports one "Missing Assistant Message" on line 1 and nothing else, and contributes 1 message, 6 + tok("user") + tok("hi") tokens and 0 assistant tokens |
| Validator.UserGreetingTokens | fine_tuning_data_checker.py:20-40 | the greeting costs 6 + tok("user") + tok("hi") tokens in total and no assistant tokens |
| Validator.EmptyMessagesExample | fine_tuning_data_checker.py:87-94 | a record whose `messages` is `[]` reports one "Missing Messages List" and adds no statistics |
| Estimator.Epochs | fine_tuning_data_checker.py:151-160 | for at least one example, the default epoch count lies in [1, 25], and in fact in [1, 15] |
| Estimator.EstimateCost | fine_tuning_data_checker.py:147-166 | too-long count at most the number of statistics entries; billed tokens at most the untruncated total and at most 4096 per statistics entry, equal to the total exactly when none is too long; charged = epochs × billed |
| Estimator.TooLongCountBounded | fine_tuning_data_checker.py:147 | the too-long count never exceeds the number of lengths |
| Estimator.BilledTokensBounded | fine_tuning_data_checker.py:162 | billed tokens are at most the untruncated sum and at most 4096 per statistics entry |
| Estimator.BilledExactIffNoneTooLong | fine_tuning_data_checker.py:147-162 | billing charges the full length if and only if no example exceeds 4096 |
| Estimator.EpochsMonotone | fine_tuning_data_checker.py:151-160 | more examples never give more epochs |
| Estimator.DivMonotone | fine_tuning_data_checker.py:156-160 | floor division by a larger divisor never gives more |
| Estimator.EpochsNearTarget | fine_tuning_data_checker.py:151-160 | one more epoch would exceed the lower target of 15 examples seen, and the upper target of 25000 is exceeded only when one epoch already does |
| Estimator.SmallDatasetExample | fine_tuning_data_checker.py:147-166 | lengths [100, 200, 150] over 3 examples give 0 too long, 450 billed, 5 epochs and 2250 charged |
| Estimator.LargeDatasetExample | fine_tuning_data_checker.py:158-160 | 30000 examples give 1 epoch |
| Checker.RunCheck | fine_tuning_data_checker.py:49-166 | the run raises exactly when the scan does. Otherwise it reports the scan's well-formed result, and it stops at the first distribution exactly when no record was structurally valid. A complete run has at least one record and the estimate computed from the token lengths and the number of records |
| Checker.CompleteRunBounds | fine_tuning_data_checker.py:151-166 | a completed run trains for 1 to 15 epochs and is charged at most 15 × 4096 tokens per statistics entry |

## Left out

- Reading the file and decoding each line (lines 51-55) are not modelled. The model takes the decoded records, as values of `Json.JVal`.
- Duplicate keys in a JSON object are not modelled. A decoded dictionary keeps only the last binding of a key. The model assumes each key appears once: on duplicates, its lookups take the first binding and its counters count every binding.
- JSON numbers are real numbers. Non-finite values and the int/float distinction do not matter to any check, and are not modelled.
- The tiktoken encoder (lines 8, 16, 22, 32) is the parameter `tok`, assumed total. The encoder raises on texts that contain special tokens, and that failure is not modelled.
- `print_distribution` (lines 42-47) works in floating point and only prints, so it is not modelled.
- Printing (lines 57, 131-141, 149 and 164-166) and the `__main__` guard (lines 168-170) are not modelled. The report's figures are returned as values instead.
- The three distribution calls (lines 143-145) print only. The model keeps the failure of the first call on an empty list, as the `NoDistribution` outcome, and nothing else of them.
- Validator.Raises: which exception is raised, and at which line, is not recorded. All of them end the run the same way. The model also decides up front, for each record, whether its messages will raise. The source raises part-way through the message loop, after some dictionary updates, but those updates are lost with the exception, so the outcome is the same.
- TokenCounter.NumberOfTokensFromMessages, TokenCounter.NumberOfAssistantTokensFromMessages: these require the inputs for which the source does not raise. Inside the scan, `Validator.Raises` covers the inputs that do raise.
