# multi_pubsub callback registry in Dafny

This project models `baseCallback`, the callback registry of the Go package
`multi_pubsub`. The registry sits between a publish/subscribe broker and
application callbacks. A subscriber binds it to one topic. It then registers
condition sets, each with a matching strategy and a success callback, plus at
most one error callback and at most one every-event callback. For each
message, `checkCondition` tests the registrations against the payload and
calls the callbacks.

Three files, one module each:

- `text.dfy` (`Text`): the string operations dispatch uses. These are
  substring search, ASCII lower-casing, and rewriting single quotes to double
  quotes before JSON decoding.
- `matching.dfy` (`Matching`): the strategy constants `5599`, `5600` and
  `5601`, `Condition` and its dynamically typed `Data` (`Nil | Str | Opaque`),
  and the verdict of one registration on a payload. This module has a
  specification function for each strategy and a method for each of the
  three condition loops of `checkCondition`, proved against those functions.
- `registry.dfy` (`MultiPubSub`): the class `BaseCallback`. It holds the
  three parallel maps (`conditions`, `conditionsStrategy`, `conditionsFunc`),
  the two optional callback slots and the topic. Its registration methods
  update them in place. `CheckCondition` is the dispatch loop. It is proved
  equal to the specification function `Trace`, and the lemmas below state
  what a dispatch does.

Modelling choices:

- Callbacks are identities (`CallbackId`). A dispatch returns the calls it
  makes, in order, as a trace of events: `Success(key, callback, payload)`,
  `Error(callback, payload)` or `Every(callback, payload)`.
- A panic in a registration call becomes `Fail(misuse)`, and the stored state
  is left unchanged. `Message` gives the panic text for each misuse.
- A panic during dispatch becomes a final `Panic(fault)` event. The model
  has two such panics: the dereference of an unset error callback, and the
  `.(string)` assertion on data that is not a string. Dispatch therefore has
  no precondition on the callbacks. `TraceNoPanic` states when no panic
  happens. A third panic, calling a nil callback, is listed under
  "Left out".
- Go ranges over a map in random order. Dispatch takes the order as a
  parameter `order`. `IsIterationOrder` says that `order` lists every
  registration key and has exactly as many entries as there are keys.
  `IterationOrderHasNoRepeats` proves that such an order visits no key twice.
- JSON decoding is a parameter `decode: string -> Option<map<string, Data>>`.
  `None` means `json.Unmarshal` failed. Comparing two `Data` values with `==`
  stands for Go's `==` on interface values.
- Registration keys come from a counter `nextKey` instead of random strings.
  `Valid()` says that the three maps have the same keys and that every key in
  use is below the counter, so the next key is always fresh.

The every-event callback is called after each registration that does not
match, and never after a success or an error call. It is not called once per
message. The code validates only the first condition of a set.
`OnlyFirstConditionValidated` shows a set that passes validation and still
panics at dispatch.

## Model

| member | source | states |
|---|---|---|
| `Text.Contains` | multi_pubsub/interfaces.go:117 | `strings.Contains`: a string never occurs in a shorter one, and a prefix of a payload (the empty string among them) always occurs in it |
| `Text.Lower` | multi_pubsub/interfaces.go:117 | the lower-cased string has the same length, each character is lower-cased on its own, and no upper-case ASCII letter remains |
| `Text.QuotesToDouble` | multi_pubsub/interfaces.go:98 | the rewritten payload has the same length, replaces every `'` with `"`, keeps every other character, and contains no `'` |
| `Text.ContainsLower` | multi_pubsub/interfaces.go:117 | if a string occurs in a payload, its lower-cased form occurs in the lower-cased payload |
| `Matching.InsensitiveVerdict` | multi_pubsub/interfaces.go:114-125 | case-insensitive test: it matches iff every condition's data is a string whose lower-cased form occurs in the lower-cased payload; it panics only when some condition's data is not a string; it never reports a parse failure |
| `Matching.InsensitivePanicsIff` | multi_pubsub/interfaces.go:115-121 | the case-insensitive test panics iff some condition's data is not a string and every condition before it occurs, because the loop breaks at the first condition that does not occur |
| `Matching.SensitiveVerdict` | multi_pubsub/interfaces.go:126-136 | case-sensitive test: it panics iff some condition's data is not a string, because the loop has no break; otherwise it matches iff every condition's string occurs in the payload |
| `Matching.Examine` | multi_pubsub/interfaces.go:94-137 | a registration reports a parse failure iff its strategy is JSON-key and the quote-rewritten payload does not decode; only string strategies can panic; an unknown strategy never matches; under JSON-key it matches iff the decoded object has every condition's key equal to its data, a missing key reading as nil |
| `Matching.MatchJsonKeys` | multi_pubsub/interfaces.go:104-109 | the loop sets `notOk` iff some condition's key does not read as its data in the decoded object |
| `Matching.MatchInsensitive` | multi_pubsub/interfaces.go:115-121 | the case-insensitive loop, with its break and its type assertion, computes `InsensitiveVerdict` of the lower-cased payload |
| `Matching.MatchSensitive` | multi_pubsub/interfaces.go:127-132 | the case-sensitive loop, which has no break, computes `SensitiveVerdict` |
| `Matching.SensitiveMatchIsInsensitiveMatch` | multi_pubsub/interfaces.go:114-136 | a condition set that matches case-sensitively also matches case-insensitively |
| `Matching.EmptyConditionNeverFails` | multi_pubsub/interfaces.go:114-136 | a condition with data `""` occurs in every payload, with or without lower-casing, so removing it from any set leaves both the case-sensitive and the case-insensitive verdict unchanged |
| `Matching.InsensitiveIgnoresEmpty` | multi_pubsub/interfaces.go:115-121 | removing a condition that occurs in the lowered payload, at any position, leaves the case-insensitive verdict unchanged |
| `Matching.SensitiveIgnoresEmpty` | multi_pubsub/interfaces.go:127-132 | removing a condition that occurs in the payload, at any position, leaves the case-sensitive verdict unchanged |
| `Matching.MissingKeyReadsNil` | multi_pubsub/interfaces.go:105 | `Lookup`, the map index `data[condition.Key]`, reads a missing key as nil: under JSON-key a nil condition on a missing key holds and dropping it changes nothing, and any non-nil condition on a missing key makes the set fail |
| `Matching.CaseSensitivityDiffers` | multi_pubsub/interfaces.go:114-136 | the condition `"A"` matches the payload `"a"` case-insensitively but not case-sensitively |
| `MultiPubSub.Message` | multi_pubsub/interfaces.go:146-160 | a second `OnError` and a second `OnEveryEvent` panic with the same text, and no other misuse uses that text |
| `MultiPubSub.Validate` | multi_pubsub/interfaces.go:162-177 | a condition set is accepted iff it is non-empty, its first key is non-empty under JSON-key, its first data is not nil, and its first data is a string under a string strategy; an empty set and a missing JSON key are reported as such |
| `MultiPubSub.OnlyFirstConditionValidated` | multi_pubsub/interfaces.go:162-177 | validation accepts a case-sensitive set whose second condition is not a string, and that set panics at dispatch for every payload |
| `MultiPubSub.BaseCallback.constructor` | multi_pubsub/interfaces.go:63-72 | a new registry has empty maps, no callbacks and an empty topic |
| `MultiPubSub.BaseCallback.SetTopic` | multi_pubsub/interfaces.go:74-80 | fails iff a non-empty topic is already stored, and then keeps it; otherwise stores the topic; writes no other field, so setting `""` does not lock the topic |
| `MultiPubSub.BaseCallback.OnError` | multi_pubsub/interfaces.go:146-152 | fails iff an error callback is set, keeping the first one; otherwise fills only that slot |
| `MultiPubSub.BaseCallback.OnEveryEvent` | multi_pubsub/interfaces.go:154-160 | fails iff an every-event callback is set, keeping the first one; otherwise fills only that slot |
| `MultiPubSub.BaseCallback.OnEvent` | multi_pubsub/interfaces.go:162-183 | fails exactly when `Validate` rejects the set, and then no map changes; otherwise it adds one key, absent before, to all three maps, holding the conditions, the strategy and the callback; existing entries are unchanged and the maps keep the same keys |
| `MultiPubSub.BaseCallback.EveryEvents` | multi_pubsub/interfaces.go:139-142 | `n` unmatched registrations produce `n` every-event calls with the raw payload when that callback is set, and none otherwise |
| `MultiPubSub.BaseCallback.CheckCondition` | multi_pubsub/interfaces.go:86-144 | the dispatch loop writes no registry field, and its calls are exactly `Trace` of the payload and the iteration order; so the same payload and order give the same calls every time |
| `MultiPubSub.ExamineRegistration` | multi_pubsub/interfaces.go:92-137 | the strategy switch for one registration, with decoding of the quote-rewritten payload, computes `Examine` |
| `MultiPubSub.SkipUnmatched` | multi_pubsub/interfaces.go:88-143 | with the error callback set, a run of unmatched registrations adds only one every-event call each before dispatch continues |
| `MultiPubSub.DispatchClaimedBy` | multi_pubsub/interfaces.go:104-142 | the first matching registration in the order claims the message: the calls are one every-event call per earlier registration, then its own success callback with the raw payload, then nothing |
| `MultiPubSub.DispatchParseFailure` | multi_pubsub/interfaces.go:96-103 | when a JSON-key registration is reached and the payload does not decode, the error callback is called once with the raw payload and dispatch ends, with no success or every-event call after it |
| `MultiPubSub.DispatchUnclaimed` | multi_pubsub/interfaces.go:139-142 | when no registration matches, dispatch makes exactly one every-event call per registration if that callback is set, and no call otherwise |
| `MultiPubSub.UnclaimedOrderIrrelevant` | multi_pubsub/interfaces.go:88 | when no registration matches, any two iteration orders give the same calls |
| `MultiPubSub.TraceShape` | multi_pubsub/interfaces.go:100-142 | a dispatch makes at most one call per registration, and every call except the last is an every-event call; so at most one success, error or panic happens, and nothing follows it |
| `MultiPubSub.TraceCalls` | multi_pubsub/interfaces.go:100-142 | every-event calls go to the every-event callback; a success goes to the callback of a registration in the order that matches; an error call goes to the error callback and happens only when decoding failed; each call receives the raw payload |
| `MultiPubSub.TraceNoPanic` | multi_pubsub/interfaces.go:91-136 | dispatch does not panic when the error callback is set, or nothing is registered, and every string-strategy registration holds only string data |
| `MultiPubSub.IterationOrderHasNoRepeats` | multi_pubsub/interfaces.go:88 | an iteration order visits no registration twice |

## Left out

- `Subscribe` and `Unsubscribe` (multi_pubsub/interfaces.go:59-61, 82-84) are stubs that only panic. They stand in for broker transport.
- The `httpData`, `broker` and `state` fields, and the arguments of `NewCallback` that set them, are opaque values that no logic reads.
- `randomString` depends on a random UUID generator. A counter replaces it: the model needs only that each new key is unused.
- `json.Unmarshal` is a parameter, not a model of JSON. Number decoding and the grammar are not modelled. A Go `==` between two decoded values of the same incomparable type (map or slice) panics at run time. The model does not capture this, because `Data` has no such values.
- `Text.Lower` lowers ASCII letters only, where `strings.ToLower` maps all of Unicode. Full Unicode case mapping is not modelled.
- The payload is a string of characters, and `string(msg)` is treated as the identity. Byte-level UTF-8 handling is not modelled.
- `checkCondition` reads the payload through the `message` field, which no code in the file ever assigns. As written, the dereference at line 87 would always fail. The model passes the payload to `CheckCondition` as a parameter.
- Nil callbacks are not modelled: `CallbackId` has no nil value. `OnError(nil)`, `OnEveryEvent(nil)` and `OnEvent` with a nil `fun` are accepted by the code (lines 146-183 test only the slot or the conditions), and the later call of that nil function panics at line 101, 111, 123, 134 or 141. The model's traces record such a call as an ordinary event.
- Slice aliasing is not modelled: `OnEvent` stores the caller's `conditions` slice itself (line 179), so a later write through that slice changes what dispatch reads, and can undo the first-condition validation. The model stores the conditions as an immutable sequence.
- The effects of user callbacks are not modelled; they are recorded only as trace events. A callback that registers more callbacks during a dispatch is also not modelled.
- Go's random map iteration order is the parameter `order`, not a model of randomness.
- There is no concurrency to model: the code has no locks and starts no goroutines.
