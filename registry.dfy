/**
 * The callback registry `baseCallback` of multi_pubsub: a topic, three
 * parallel maps holding the registered condition sets, their strategies
 * and their success callbacks, an at-most-once error callback and an
 * at-most-once every-event callback; and its dispatch loop checkCondition.
 *
 * Callbacks are known by an identity; invoking one is recorded as an event
 * of the trace that dispatch returns. Panics are values: a registration
 * call that would panic returns Fail, a dispatch that would panic ends its
 * trace with a Panic event.
 */
module MultiPubSub {
  import opened Text
  import opened Matching

  /** A user callback `func(data []byte)`, known by an identity. */
  type CallbackId = nat

  /** Internal registration key; fresh keys come from a counter. */
  type Key = nat

  /** A registration call that the source rejects with a panic. */
  datatype Misuse =
    | TopicSetTwice
    | ErrorCallbackSetTwice
    | EveryEventCallbackSetTwice
    | NoConditions
    | MissingJsonKey
    | NilData
    | DataNotString

  /** The panic message the source raises for each misuse. */
  function Message(m: Misuse): (text: string)
    ensures m.ErrorCallbackSetTwice? || m.EveryEventCallbackSetTwice? <==> text == "you cant set on error twice"
  {
    match m
    case TopicSetTwice => "cant set topic twice"
    case ErrorCallbackSetTwice => "you cant set on error twice"
    case EveryEventCallbackSetTwice => "you cant set on error twice"
    case NoConditions => "you need to add Condition"
    case MissingJsonKey => "you need to set the first Condition"
    case NilData => "you need to set the second Condition"
    case DataNotString => "if your strategy is on string check you should put data with string"
  }

  datatype Outcome = Ok | Fail(misuse: Misuse)

  /** Why a dispatch panics. */
  datatype Fault =
    | NilErrorCallback  // the error callback pointer is dereferenced while unset
    | TypeAssertion     // a string strategy asserts `.(string)` on other data

  /** What a dispatch does, in order. */
  datatype Event =
    | Success(key: Key, callback: CallbackId, payload: string)
    | Error(callback: CallbackId, payload: string)
    | Every(callback: CallbackId, payload: string)
    | Panic(fault: Fault)

  /**
   * The validation OnEvent performs before storing a condition set; only
   * the first condition is inspected. The first failing check decides.
   */
  function Validate(conds: seq<Condition>, strategy: Strategy): (r: Option<Misuse>)
    ensures r.None? <==>
      && |conds| > 0
      && (strategy == JsonKeyStrategy ==> conds[0].key != "")
      && conds[0].data != Nil
      && (IsStringStrategy(strategy) ==> conds[0].data.Str?)
    ensures r == Some(NoConditions) <==> |conds| == 0
    ensures r == Some(MissingJsonKey) <==> |conds| > 0 && strategy == JsonKeyStrategy && conds[0].key == ""
    ensures r.Some? ==> r.value in {NoConditions, MissingJsonKey, NilData, DataNotString}
  {
    if |conds| == 0 then Some(NoConditions)
    else if strategy == JsonKeyStrategy && conds[0].key == "" then Some(MissingJsonKey)
    else if conds[0].data == Nil then Some(NilData)
    else if IsStringStrategy(strategy) && !conds[0].data.Str? then Some(DataNotString)
    else None
  }

  /** Validation looks at the first condition only: later ones may still panic at dispatch. */
  lemma OnlyFirstConditionValidated(payload: string, decode: Decoder)
    ensures Validate([Condition("", Str("a")), Condition("", Opaque(0))], CheckStringSensitiveCaseStrategy).None?
    ensures Examine(payload, [Condition("", Str("a")), Condition("", Opaque(0))], CheckStringSensitiveCaseStrategy, decode) == NotAString
  {
    assert ![Condition("", Str("a")), Condition("", Opaque(0))][1].data.Str?;
  }

  class BaseCallback {
    var conditionsFunc: map<Key, CallbackId>
    var conditionsStrategy: map<Key, Strategy>
    var conditions: map<Key, seq<Condition>>
    var onErrorFunc: Option<CallbackId>
    var onEveryEvent: Option<CallbackId>
    var topic: string
    /** Stands in for the random key generator: every key in use is below it. */
    var nextKey: Key

    /** The three maps describe the same registrations, all under used keys. */
    ghost predicate Valid()
      reads this
    {
      && conditionsFunc.Keys == conditions.Keys
      && conditionsStrategy.Keys == conditions.Keys
      && forall k :: k in conditions ==> k < nextKey
    }

    /** NewCallback: no topic, no registrations, no error or every-event callback. */
    constructor ()
      ensures Valid()
      ensures conditionsFunc == map[] && conditionsStrategy == map[] && conditions == map[]
      ensures onErrorFunc == None && onEveryEvent == None && topic == "" && nextKey == 0
    {
      conditionsFunc := map[];
      conditionsStrategy := map[];
      conditions := map[];
      onErrorFunc := None;
      onEveryEvent := None;
      topic := "";
      nextKey := 0;
    }

    /** Binds the topic; fails once a non-empty topic is stored. */
    method SetTopic(t: string) returns (r: Outcome)
      requires Valid()
      modifies this`topic
      ensures Valid()
      ensures r == (if old(topic) != "" then Fail(TopicSetTwice) else Ok)
      ensures topic == (if old(topic) != "" then old(topic) else t)
    {
      if topic != "" {
        return Fail(TopicSetTwice);
      }
      topic := t;
      r := Ok;
    }

    /** Fills the error-callback slot; a second call fails and keeps the first. */
    method OnError(fn: CallbackId) returns (r: Outcome)
      requires Valid()
      modifies this`onErrorFunc
      ensures Valid()
      ensures r == (if old(onErrorFunc).Some? then Fail(ErrorCallbackSetTwice) else Ok)
      ensures onErrorFunc == (if old(onErrorFunc).Some? then old(onErrorFunc) else Some(fn))
    {
      if onErrorFunc.Some? {
        return Fail(ErrorCallbackSetTwice);
      }
      onErrorFunc := Some(fn);
      r := Ok;
    }

    /** Fills the every-event slot; a second call fails and keeps the first. */
    method OnEveryEvent(fn: CallbackId) returns (r: Outcome)
      requires Valid()
      modifies this`onEveryEvent
      ensures Valid()
      ensures r == (if old(onEveryEvent).Some? then Fail(EveryEventCallbackSetTwice) else Ok)
      ensures onEveryEvent == (if old(onEveryEvent).Some? then old(onEveryEvent) else Some(fn))
    {
      if onEveryEvent.Some? {
        return Fail(EveryEventCallbackSetTwice);
      }
      onEveryEvent := Some(fn);
      r := Ok;
    }

    /**
     * Validates a condition set and, when it passes, stores it with its
     * strategy and callback under one fresh key in all three maps.
     */
    method OnEvent(conds: seq<Condition>, strategy: Strategy, fn: CallbackId) returns (r: Outcome)
      requires Valid()
      modifies this`conditions, this`conditionsFunc, this`conditionsStrategy, this`nextKey
      ensures Valid()
      ensures r == (if Validate(conds, strategy).Some? then Fail(Validate(conds, strategy).value) else Ok)
      ensures r.Fail? ==>
        && conditions == old(conditions)
        && conditionsStrategy == old(conditionsStrategy)
        && conditionsFunc == old(conditionsFunc)
        && nextKey == old(nextKey)
      ensures r.Ok? ==>
        && old(nextKey) !in old(conditions)
        && conditions == old(conditions)[old(nextKey) := conds]
        && conditionsStrategy == old(conditionsStrategy)[old(nextKey) := strategy]
        && conditionsFunc == old(conditionsFunc)[old(nextKey) := fn]
    {
      var invalid := Validate(conds, strategy);
      if invalid.Some? {
        return Fail(invalid.value);
      }
      var key := nextKey;
      nextKey := nextKey + 1;
      conditions := conditions[key := conds];
      conditionsFunc := conditionsFunc[key := fn];
      conditionsStrategy := conditionsStrategy[key := strategy];
      r := Ok;
    }

    /** Every key of `order` names a registration in all three maps. */
    ghost predicate Covers(order: seq<Key>)
      reads this
    {
      forall i :: 0 <= i < |order| ==> order[i] in conditions && order[i] in conditionsStrategy && order[i] in conditionsFunc
    }

    /**
     * `order` visits every registration exactly once, as one iteration of
     * the strategy map does: it lists only registered keys, misses none, and
     * is exactly as long as there are keys (so it has no repetition).
     */
    ghost predicate IsIterationOrder(order: seq<Key>)
      reads this
    {
      && (forall i :: 0 <= i < |order| ==> order[i] in conditionsStrategy)
      && (forall k :: k in conditionsStrategy ==> k in order)
      && |order| == |conditionsStrategy|
    }

    /** The every-event call made after a registration that did not match. */
    function EveryEvent(payload: string): (es: seq<Event>)
      reads this
    {
      if onEveryEvent.Some? then [Every(onEveryEvent.value, payload)] else []
    }

    /** The every-event calls made after `n` registrations that did not match. */
    function EveryEvents(payload: string, n: nat): (es: seq<Event>)
      reads this
      ensures |es| == (if onEveryEvent.Some? then n else 0)
      ensures forall i :: 0 <= i < |es| ==> onEveryEvent.Some? && es[i] == Every(onEveryEvent.value, payload)
    {
      if n == 0 then [] else EveryEvent(payload) + EveryEvents(payload, n - 1)
    }

    /**
     * The events of a dispatch of `payload` visiting registrations in
     * `order`: the error callback pointer is dereferenced first, then the
     * registration is examined; a match, a parse failure or a panic ends the
     * dispatch, and a registration that does not match is followed by the
     * every-event call.
     */
    ghost function Trace(payload: string, order: seq<Key>, decode: Decoder): seq<Event>
      reads this
      requires Covers(order)
      decreases |order|
    {
      if order == [] then []
      else if onErrorFunc.None? then [Panic(NilErrorCallback)]
      else
        var k := order[0];
        match Examine(payload, conditions[k], conditionsStrategy[k], decode)
        case Matched => [Success(k, conditionsFunc[k], payload)]
        case ParseFailed => [Error(onErrorFunc.value, payload)]
        case NotAString => [Panic(TypeAssertion)]
        case Unmatched => EveryEvent(payload) + Trace(payload, order[1..], decode)
    }

    /**
     * checkCondition: dispatches one message. It writes no field of the
     * registry, and its events are exactly Trace's for the same payload and
     * iteration order, so two dispatches with the same inputs agree.
     */
    method CheckCondition(msg: string, order: seq<Key>, decode: Decoder) returns (trace: seq<Event>)
      requires Valid()
      requires IsIterationOrder(order)
      ensures trace == Trace(msg, order, decode)
    {
      trace := [];
      var i := 0;
      while i < |order|
        invariant 0 <= i <= |order|
        invariant Covers(order[i..])
        invariant trace + Trace(msg, order[i..], decode) == Trace(msg, order, decode)
      {
        var key := order[i];
        TraceStepAt(this, msg, order, decode, i);
        var conds := conditions[key];
        var fun := conditionsFunc[key];
        if onErrorFunc.None? {
          assert Trace(msg, order[i..], decode) == [Panic(NilErrorCallback)];
          trace := trace + [Panic(NilErrorCallback)];
          return;
        }
        var onErrFun := onErrorFunc.value;
        var strategy := conditionsStrategy[key];
        var v := ExamineRegistration(msg, conds, strategy, decode);
        if v == ParseFailed {
          assert Trace(msg, order[i..], decode) == [Error(onErrFun, msg)];
          trace := trace + [Error(onErrFun, msg)];
          return;
        }
        if v == NotAString {
          assert Trace(msg, order[i..], decode) == [Panic(TypeAssertion)];
          trace := trace + [Panic(TypeAssertion)];
          return;
        }
        if v == Matched {
          assert Trace(msg, order[i..], decode) == [Success(key, fun, msg)];
          trace := trace + [Success(key, fun, msg)];
          return;
        }
        ghost var before := trace;
        if onEveryEvent.Some? {
          trace := trace + [Every(onEveryEvent.value, msg)];
        }
        assert trace == before + EveryEvent(msg);
        AppendAssociative(before, EveryEvent(msg), Trace(msg, order[i + 1..], decode));
        i := i + 1;
      }
    }

    /** The verdict of the registration under `k` on `payload`. */
    ghost function VerdictOf(payload: string, k: Key, decode: Decoder): Verdict
      reads this
      requires k in conditions && k in conditionsStrategy
    {
      Examine(payload, conditions[k], conditionsStrategy[k], decode)
    }
  }

  /**
   * The body of the dispatch loop for one registration: the strategy
   * switch, with the JSON decoding of the quote-rewritten payload and the
   * three condition loops.
   */
  method ExamineRegistration(msg: string, conds: seq<Condition>, strategy: Strategy, decode: Decoder)
    returns (v: Verdict)
    ensures v == Examine(msg, conds, strategy, decode)
  {
    v := Unmatched;
    if strategy == JsonKeyStrategy {
      var parsed := decode(QuotesToDouble(msg));
      if parsed.None? {
        return ParseFailed;
      }
      var notOk := MatchJsonKeys(parsed.value, conds);
      if !notOk {
        v := Matched;
      }
    } else if strategy == CheckStringStrategy {
      v := MatchInsensitive(msg, conds);
    } else if strategy == CheckStringSensitiveCaseStrategy {
      v := MatchSensitive(msg, conds);
    }
  }

  lemma AppendAssociative<T>(a: seq<T>, b: seq<T>, c: seq<T>)
    ensures a + (b + c) == (a + b) + c
  {
  }

  /** One step of Trace, for the first registration of `order`. */
  lemma TraceStep(r: BaseCallback, payload: string, order: seq<Key>, decode: Decoder)
    requires r.Covers(order) && order != []
    ensures r.Covers(order[1..])
    ensures var k := order[0];
      var v := Examine(payload, r.conditions[k], r.conditionsStrategy[k], decode);
      r.Trace(payload, order, decode) ==
        if r.onErrorFunc.None? then [Panic(NilErrorCallback)]
        else if v == Matched then [Success(k, r.conditionsFunc[k], payload)]
        else if v == ParseFailed then [Error(r.onErrorFunc.value, payload)]
        else if v == NotAString then [Panic(TypeAssertion)]
        else r.EveryEvent(payload) + r.Trace(payload, order[1..], decode)
  {
  }

  /** One step of Trace, for the registration at position `i` of `order`. */
  lemma TraceStepAt(r: BaseCallback, payload: string, order: seq<Key>, decode: Decoder, i: nat)
    requires i < |order| && r.Covers(order[i..])
    ensures r.Covers(order[i + 1..])
    ensures var k := order[i];
      var v := Examine(payload, r.conditions[k], r.conditionsStrategy[k], decode);
      r.Trace(payload, order[i..], decode) ==
        if r.onErrorFunc.None? then [Panic(NilErrorCallback)]
        else if v == Matched then [Success(k, r.conditionsFunc[k], payload)]
        else if v == ParseFailed then [Error(r.onErrorFunc.value, payload)]
        else if v == NotAString then [Panic(TypeAssertion)]
        else r.EveryEvent(payload) + r.Trace(payload, order[i + 1..], decode)
  {
    TraceStep(r, payload, order[i..], decode);
    assert order[i..][0] == order[i] && order[i..][1..] == order[i + 1..];
  }

  /** Registrations that do not match only contribute every-event calls. */
  lemma {:induction false} SkipUnmatched(r: BaseCallback, payload: string, order: seq<Key>, decode: Decoder, i: nat)
    requires r.Covers(order)
    requires r.onErrorFunc.Some?
    requires i <= |order|
    requires forall j :: 0 <= j < i ==> r.VerdictOf(payload, order[j], decode) == Unmatched
    ensures r.Trace(payload, order, decode) == r.EveryEvents(payload, i) + r.Trace(payload, order[i..], decode)
  {
    if i > 0 {
      TraceStep(r, payload, order, decode);
      assert forall j :: 0 <= j < i - 1 ==> order[1..][j] == order[j + 1];
      SkipUnmatched(r, payload, order[1..], decode, i - 1);
      assert order[1..][i - 1..] == order[i..];
      AppendAssociative(r.EveryEvent(payload), r.EveryEvents(payload, i - 1), r.Trace(payload, order[i..], decode));
    }
  }

  /** A registration that matches after `i` unmatched ones claims the message. */
  lemma {:induction false} DispatchClaimedBy(r: BaseCallback, payload: string, order: seq<Key>, decode: Decoder, i: nat)
    requires r.Covers(order)
    requires r.onErrorFunc.Some?
    requires i < |order|
    requires forall j :: 0 <= j < i ==> r.VerdictOf(payload, order[j], decode) == Unmatched
    requires r.VerdictOf(payload, order[i], decode) == Matched
    ensures r.Trace(payload, order, decode) ==
      r.EveryEvents(payload, i) + [Success(order[i], r.conditionsFunc[order[i]], payload)]
  {
    SkipUnmatched(r, payload, order, decode, i);
    TraceStep(r, payload, order[i..], decode);
  }

  /**
   * A JSON registration reached after `i` unmatched ones, on a payload that
   * does not decode, calls the error callback once with the raw payload and
   * ends the dispatch.
   */
  lemma {:induction false} DispatchParseFailure(r: BaseCallback, payload: string, order: seq<Key>, decode: Decoder, i: nat)
    requires r.Covers(order)
    requires r.onErrorFunc.Some?
    requires i < |order|
    requires forall j :: 0 <= j < i ==> r.VerdictOf(payload, order[j], decode) == Unmatched
    requires r.conditionsStrategy[order[i]] == JsonKeyStrategy
    requires decode(QuotesToDouble(payload)).None?
    ensures r.Trace(payload, order, decode) ==
      r.EveryEvents(payload, i) + [Error(r.onErrorFunc.value, payload)]
  {
    SkipUnmatched(r, payload, order, decode, i);
    TraceStep(r, payload, order[i..], decode);
  }

  /** When no registration matches, the every-event callback fires once per registration. */
  lemma {:induction false} DispatchUnclaimed(r: BaseCallback, payload: string, order: seq<Key>, decode: Decoder)
    requires r.Covers(order)
    requires r.onErrorFunc.Some?
    requires forall j :: 0 <= j < |order| ==> r.VerdictOf(payload, order[j], decode) == Unmatched
    ensures r.Trace(payload, order, decode) == r.EveryEvents(payload, |order|)
  {
    SkipUnmatched(r, payload, order, decode, |order|);
    assert order[|order|..] == [];
  }

  /** When no registration matches, the iteration order makes no difference. */
  lemma UnclaimedOrderIrrelevant(r: BaseCallback, payload: string, order1: seq<Key>, order2: seq<Key>, decode: Decoder)
    requires r.Valid()
    requires r.IsIterationOrder(order1) && r.IsIterationOrder(order2)
    requires r.onErrorFunc.Some?
    requires forall k :: k in r.conditions ==> r.VerdictOf(payload, k, decode) == Unmatched
    ensures r.Trace(payload, order1, decode) == r.Trace(payload, order2, decode)
  {
    DispatchUnclaimed(r, payload, order1, decode);
    DispatchUnclaimed(r, payload, order2, decode);
  }

  /**
   * Every event but the last is an every-event call, so a dispatch makes at
   * most one success, error or panic call, and nothing follows it; a
   * dispatch makes at most one call per registration it visits.
   */
  lemma {:induction false} TraceShape(r: BaseCallback, payload: string, order: seq<Key>, decode: Decoder)
    requires r.Covers(order)
    ensures var t := r.Trace(payload, order, decode);
      && |t| <= |order|
      && (forall i :: 0 <= i < |t| && !t[i].Every? ==> i == |t| - 1)
  {
    if order != [] {
      TraceStep(r, payload, order, decode);
      TraceShape(r, payload, order[1..], decode);
      var t := r.Trace(payload, order, decode);
      if r.onErrorFunc.Some? && r.VerdictOf(payload, order[0], decode) == Unmatched {
        var e := r.EveryEvent(payload);
        var rest := r.Trace(payload, order[1..], decode);
        assert t == e + rest;
        forall i | 0 <= i < |t| && !t[i].Every?
          ensures i == |t| - 1
        {
          assert i >= |e| && t[i] == rest[i - |e|];
        }
      }
    }
  }

  /**
   * What each call of a dispatch is: an every-event call goes to the
   * registered every-event callback; a success goes to the callback of a
   * registration of `order` that matches; an error call goes to the error
   * callback and means the payload did not decode; all get the raw payload.
   */
  lemma {:induction false} TraceCalls(r: BaseCallback, payload: string, order: seq<Key>, decode: Decoder)
    requires r.Covers(order)
    ensures forall e :: e in r.Trace(payload, order, decode) && e.Every? ==>
      r.onEveryEvent == Some(e.callback) && e.payload == payload
    ensures forall e :: e in r.Trace(payload, order, decode) && e.Success? ==>
      && e.key in order
      && e.key in r.conditionsFunc && e.callback == r.conditionsFunc[e.key]
      && e.payload == payload
      && e.key in r.conditions && e.key in r.conditionsStrategy
      && r.VerdictOf(payload, e.key, decode) == Matched
    ensures forall e :: e in r.Trace(payload, order, decode) && e.Error? ==>
      r.onErrorFunc == Some(e.callback) && e.payload == payload && decode(QuotesToDouble(payload)).None?
  {
    if order != [] {
      TraceStep(r, payload, order, decode);
      TraceCalls(r, payload, order[1..], decode);
      if r.onErrorFunc.Some? && r.VerdictOf(payload, order[0], decode) == Unmatched {
        var rest := r.Trace(payload, order[1..], decode);
        assert r.Trace(payload, order, decode) == r.EveryEvent(payload) + rest;
        forall e | e in rest && e.Success?
          ensures e.key in order
        {
          assert e.key in order[1..];
        }
      }
    }
  }

  /**
   * A dispatch does not panic when the error callback is set (or nothing is
   * registered) and every string-strategy registration holds only strings.
   */
  lemma {:induction false} TraceNoPanic(r: BaseCallback, payload: string, order: seq<Key>, decode: Decoder)
    requires r.Covers(order)
    requires order == [] || r.onErrorFunc.Some?
    requires forall j, c :: 0 <= j < |order| && IsStringStrategy(r.conditionsStrategy[order[j]]) && c in r.conditions[order[j]]
                ==> c.data.Str?
    ensures forall e :: e in r.Trace(payload, order, decode) ==> !e.Panic?
  {
    if order != [] {
      TraceStep(r, payload, order, decode);
      var k := order[0];
      var conds := r.conditions[k];
      if IsStringStrategy(r.conditionsStrategy[k]) {
        assert forall i :: 0 <= i < |conds| ==> conds[i].data.Str?;
      }
      TraceNoPanic(r, payload, order[1..], decode);
    }
  }

  /** The elements of a sequence of keys. */
  function Elements(s: seq<Key>): set<Key> {
    set k | k in s
  }

  /** A sequence has at most as many distinct elements as positions. */
  lemma {:induction false} ElementsBound(s: seq<Key>)
    ensures |Elements(s)| <= |s|
  {
    if s != [] {
      ElementsBound(s[1..]);
      assert Elements(s) == {s[0]} + Elements(s[1..]);
    }
  }

  /** An iteration order never visits a registration twice. */
  lemma IterationOrderHasNoRepeats(r: BaseCallback, order: seq<Key>)
    requires r.IsIterationOrder(order)
    ensures forall i, j :: 0 <= i < j < |order| ==> order[i] != order[j]
  {
    forall i, j | 0 <= i < j < |order|
      ensures order[i] != order[j]
    {
      if order[i] == order[j] {
        var shorter := order[..j] + order[j + 1..];
        assert Elements(shorter) == Elements(order) by {
          forall k | k in order ensures k in shorter {
            var m :| 0 <= m < |order| && order[m] == k;
            if m < j { assert shorter[m] == k; }
            else if m == j { assert shorter[i] == k; }
            else { assert shorter[m - 1] == k; }
          }
        }
        assert Elements(order) == r.conditionsStrategy.Keys;
        ElementsBound(shorter);
        assert false;
      }
    }
  }

  /** A client of the registry: misuse is rejected without changing what is stored. */
  method RegistrationClient() {
    var r := new BaseCallback();
    var o := r.SetTopic("orders");
    assert o == Ok;
    o := r.SetTopic("payments");
    assert o == Fail(TopicSetTwice) && r.topic == "orders";
    o := r.OnEvent([], CheckStringStrategy, 1);
    assert o == Fail(NoConditions) && r.conditions == map[];
    o := r.OnEvent([Condition("", Str("a"))], JsonKeyStrategy, 1);
    assert o == Fail(MissingJsonKey) && r.conditions == map[];
    o := r.OnError(2);
    o := r.OnError(3);
    assert o == Fail(ErrorCallbackSetTwice) && r.onErrorFunc == Some(2);
  }

  /**
   * A client of dispatch: a case-insensitive registration claims a payload
   * that differs from its condition only in case, once an error callback
   * is set; before that, dispatch panics.
   */
  method DispatchClient(decode: Decoder) {
    var r := new BaseCallback();
    var o := r.OnEvent([Condition("", Str("A"))], CheckStringStrategy, 1);
    assert o == Ok && r.conditions == map[0 := [Condition("", Str("A"))]];
    var t := r.CheckCondition("a", [0], decode);
    assert t == [Panic(NilErrorCallback)];
    o := r.OnError(2);
    CaseSensitivityDiffers(decode);
    t := r.CheckCondition("a", [0], decode);
    assert t == [Success(0, 1, "a")];
  }
}
