/**
 * Conditions, strategies and the test of one registration's condition set
 * against a message payload, as done inside the dispatch loop of
 * baseCallback.checkCondition.
 */
module Matching {
  import opened Text

  datatype Option<T> = None | Some(value: T)

  /** A matching strategy is an integer; only three values mean something. */
  type Strategy = int

  const JsonKeyStrategy: Strategy := 5599
  const CheckStringStrategy: Strategy := 5600
  const CheckStringSensitiveCaseStrategy: Strategy := 5601

  predicate IsStringStrategy(strategy: Strategy) {
    strategy == CheckStringStrategy || strategy == CheckStringSensitiveCaseStrategy
  }

  predicate IsKnownStrategy(strategy: Strategy) {
    strategy == JsonKeyStrategy || IsStringStrategy(strategy)
  }

  /**
   * The dynamically typed `Data` of a condition and the values a JSON
   * decoder yields: nil, a string, or any other comparable value, known
   * only by an identity. Equality of two `Data` is Go's `==` on interfaces.
   */
  datatype Data = Nil | Str(s: string) | Opaque(id: nat)

  datatype Condition = Condition(key: string, data: Data)

  /** A decoded JSON object. */
  type JsonObject = map<string, Data>

  /** The JSON decoder: an object, or None when decoding fails. */
  type Decoder = string -> Option<JsonObject>

  /** The outcome of testing one registration against a payload. */
  datatype Verdict =
    | Matched     // every condition holds: the success callback fires
    | Unmatched   // some condition fails, or the strategy is unknown
    | ParseFailed // the payload is not a JSON object: the error callback fires
    | NotAString  // a string strategy met non-string data: the type assertion panics

  /** Reading a key of a decoded object; a missing key reads as nil. */
  function Lookup(obj: JsonObject, key: string): Data {
    if key in obj then obj[key] else Nil
  }

  /** Every condition's key reads, in `obj`, as exactly its data. */
  predicate KeysMatch(obj: JsonObject, conds: seq<Condition>) {
    forall i :: 0 <= i < |conds| ==> Lookup(obj, conds[i].key) == conds[i].data
  }

  /** A condition's data is a string occurring in `text`. */
  predicate Occurs(text: string, c: Condition) {
    c.data.Str? && Contains(text, c.data.s)
  }

  /** A condition's data is a string whose lower-cased form occurs in `lowered`. */
  predicate OccursLowered(lowered: string, c: Condition) {
    c.data.Str? && Contains(lowered, Lower(c.data.s))
  }

  /**
   * Case-insensitive test over an already lower-cased payload: the
   * conditions are visited in order, the first failing one stops the visit,
   * and non-string data met before that point panics.
   */
  function InsensitiveVerdict(lowered: string, conds: seq<Condition>): (v: Verdict)
    ensures v != ParseFailed
    ensures v == Matched <==> forall i :: 0 <= i < |conds| ==> OccursLowered(lowered, conds[i])
    ensures v == NotAString ==> exists i :: 0 <= i < |conds| && !conds[i].data.Str?
    decreases |conds|
  {
    if conds == [] then Matched
    else if !conds[0].data.Str? then NotAString
    else if !Contains(lowered, Lower(conds[0].data.s)) then Unmatched
    else
      var v := InsensitiveVerdict(lowered, conds[1..]);
      assert forall i :: 1 <= i < |conds| ==> conds[i] == conds[1..][i - 1];
      v
  }

  /**
   * The case-insensitive test panics exactly when it reaches non-string
   * data: some condition is not a string and every condition before it
   * occurs in the payload.
   */
  lemma {:induction false} InsensitivePanicsIff(lowered: string, conds: seq<Condition>)
    ensures InsensitiveVerdict(lowered, conds) == NotAString <==>
      exists i :: 0 <= i < |conds| && !conds[i].data.Str? &&
        forall j :: 0 <= j < i ==> OccursLowered(lowered, conds[j])
  {
    if conds == [] {
    } else if !conds[0].data.Str? {
      assert !conds[0].data.Str?;
    } else if !OccursLowered(lowered, conds[0]) {
      forall i | 0 <= i < |conds| && !conds[i].data.Str?
        ensures exists j :: 0 <= j < i && !OccursLowered(lowered, conds[j])
      {
        assert i > 0;
      }
    } else {
      var rest := conds[1..];
      InsensitivePanicsIff(lowered, rest);
      assert forall i :: 1 <= i < |conds| ==> conds[i] == rest[i - 1];
      if InsensitiveVerdict(lowered, conds) == NotAString {
        var i :| 0 <= i < |rest| && !rest[i].data.Str? &&
          forall j :: 0 <= j < i ==> OccursLowered(lowered, rest[j]);
        assert forall j :: 0 <= j < i + 1 ==> OccursLowered(lowered, conds[j]);
      } else {
        forall i | 0 <= i < |conds| && !conds[i].data.Str?
          ensures exists j :: 0 <= j < i && !OccursLowered(lowered, conds[j])
        {
          assert i > 0 && rest[i - 1] == conds[i];
          var j :| 0 <= j < i - 1 && !OccursLowered(lowered, rest[j]);
          assert conds[j + 1] == rest[j];
        }
      }
    }
  }

  /**
   * Case-sensitive test: every condition is visited (there is no early
   * exit), so any non-string data panics; otherwise all must occur.
   */
  function SensitiveVerdict(payload: string, conds: seq<Condition>): (v: Verdict)
    ensures v != ParseFailed
    ensures v == Matched <==> forall i :: 0 <= i < |conds| ==> Occurs(payload, conds[i])
    ensures v == NotAString <==> exists i :: 0 <= i < |conds| && !conds[i].data.Str?
  {
    if exists i :: 0 <= i < |conds| && !conds[i].data.Str? then NotAString
    else if forall i :: 0 <= i < |conds| ==> Contains(payload, conds[i].data.s) then Matched
    else Unmatched
  }

  /**
   * One registration's verdict on a payload under its strategy. The JSON
   * strategy decodes the payload after rewriting single quotes to double
   * quotes; an unknown strategy never matches.
   */
  function Examine(payload: string, conds: seq<Condition>, strategy: Strategy, decode: Decoder): (v: Verdict)
    ensures v == ParseFailed <==> strategy == JsonKeyStrategy && decode(QuotesToDouble(payload)).None?
    ensures v == NotAString ==> IsStringStrategy(strategy)
    ensures !IsKnownStrategy(strategy) ==> v == Unmatched
    ensures strategy == JsonKeyStrategy ==>
      (v == Matched <==> exists obj :: decode(QuotesToDouble(payload)) == Some(obj) && KeysMatch(obj, conds))
  {
    if strategy == JsonKeyStrategy then
      match decode(QuotesToDouble(payload))
      case None => ParseFailed
      case Some(obj) => if KeysMatch(obj, conds) then Matched else Unmatched
    else if strategy == CheckStringStrategy then InsensitiveVerdict(Lower(payload), conds)
    else if strategy == CheckStringSensitiveCaseStrategy then SensitiveVerdict(payload, conds)
    else Unmatched
  }

  /** The JSON-equality loop: `notOk` is set at the first differing key. */
  method MatchJsonKeys(data: JsonObject, conds: seq<Condition>) returns (notOk: bool)
    ensures notOk <==> !KeysMatch(data, conds)
  {
    notOk := false;
    var j := 0;
    while j < |conds|
      invariant 0 <= j <= |conds|
      invariant forall m :: 0 <= m < j ==> Lookup(data, conds[m].key) == conds[m].data
    {
      if Lookup(data, conds[j].key) != conds[j].data {
        notOk := true;
        break;
      }
      j := j + 1;
    }
  }

  /**
   * The case-insensitive loop, with its break at the first condition that
   * does not occur; non-string data reached by the loop yields NotAString.
   */
  method MatchInsensitive(payload: string, conds: seq<Condition>) returns (v: Verdict)
    ensures v == InsensitiveVerdict(Lower(payload), conds)
  {
    var notOk := false;
    var j := 0;
    while j < |conds|
      invariant 0 <= j <= |conds|
      invariant InsensitiveVerdict(Lower(payload), conds) == InsensitiveVerdict(Lower(payload), conds[j..])
    {
      assert conds[j..][1..] == conds[j + 1..];
      if !conds[j].data.Str? {
        return NotAString;
      }
      if !Contains(Lower(payload), Lower(conds[j].data.s)) {
        notOk := true;
        break;
      }
      j := j + 1;
    }
    v := if notOk then Unmatched else Matched;
  }

  /**
   * The case-sensitive loop: it has no break, so `notOk` accumulates over
   * all conditions; non-string data yields NotAString.
   */
  method MatchSensitive(payload: string, conds: seq<Condition>) returns (v: Verdict)
    ensures v == SensitiveVerdict(payload, conds)
  {
    var notOk := false;
    var j := 0;
    while j < |conds|
      invariant 0 <= j <= |conds|
      invariant forall m :: 0 <= m < j ==> conds[m].data.Str?
      invariant notOk <==> exists m :: 0 <= m < j && !Occurs(payload, conds[m])
    {
      if !conds[j].data.Str? {
        return NotAString;
      }
      if !Contains(payload, conds[j].data.s) {
        notOk := true;
      }
      j := j + 1;
    }
    v := if notOk then Unmatched else Matched;
  }

  /** A case-sensitive match is also a case-insensitive match. */
  lemma SensitiveMatchIsInsensitiveMatch(payload: string, conds: seq<Condition>)
    requires SensitiveVerdict(payload, conds) == Matched
    ensures InsensitiveVerdict(Lower(payload), conds) == Matched
  {
    forall i | 0 <= i < |conds|
      ensures OccursLowered(Lower(payload), conds[i])
    {
      assert Occurs(payload, conds[i]);
      ContainsLower(payload, conds[i].data.s);
    }
  }

  /** `conds` without its `i`-th condition. */
  function Without(conds: seq<Condition>, i: nat): (rest: seq<Condition>)
    requires i < |conds|
    ensures |rest| == |conds| - 1
    ensures forall j :: 0 <= j < i ==> rest[j] == conds[j]
    ensures forall j :: i <= j < |rest| ==> rest[j] == conds[j + 1]
  {
    conds[..i] + conds[i + 1..]
  }

  /**
   * A condition whose data is the empty string never fails, in any set and
   * under either string strategy, since the empty string occurs everywhere:
   * removing it leaves both verdicts unchanged.
   */
  lemma EmptyConditionNeverFails(payload: string, conds: seq<Condition>, i: nat)
    requires i < |conds| && conds[i].data == Str("")
    ensures Occurs(payload, conds[i]) && OccursLowered(Lower(payload), conds[i])
    ensures SensitiveVerdict(payload, conds) == SensitiveVerdict(payload, Without(conds, i))
    ensures InsensitiveVerdict(Lower(payload), conds) == InsensitiveVerdict(Lower(payload), Without(conds, i))
  {
    assert Lower("") == "";
    SensitiveIgnoresEmpty(payload, conds, i);
    InsensitiveIgnoresEmpty(Lower(payload), conds, i);
  }

  lemma SensitiveIgnoresEmpty(payload: string, conds: seq<Condition>, i: nat)
    requires i < |conds| && Occurs(payload, conds[i])
    ensures SensitiveVerdict(payload, conds) == SensitiveVerdict(payload, Without(conds, i))
  {
    var rest := Without(conds, i);
    if exists k :: 0 <= k < |conds| && !conds[k].data.Str? {
      var k :| 0 <= k < |conds| && !conds[k].data.Str?;
      assert !rest[if k < i then k else k - 1].data.Str?;
    } else if forall j :: 0 <= j < |rest| ==> Occurs(payload, rest[j]) {
      forall j | 0 <= j < |conds|
        ensures Occurs(payload, conds[j])
      {
        if j < i {
          assert rest[j] == conds[j];
        } else if j > i {
          assert rest[j - 1] == conds[j];
        }
      }
    }
  }

  lemma {:induction false} InsensitiveIgnoresEmpty(lowered: string, conds: seq<Condition>, i: nat)
    requires i < |conds| && OccursLowered(lowered, conds[i])
    ensures InsensitiveVerdict(lowered, conds) == InsensitiveVerdict(lowered, Without(conds, i))
    decreases i
  {
    if i == 0 {
      assert Without(conds, 0) == conds[1..];
    } else {
      var rest := Without(conds, i);
      assert rest[0] == conds[0];
      if conds[0].data.Str? && Contains(lowered, Lower(conds[0].data.s)) {
        InsensitiveIgnoresEmpty(lowered, conds[1..], i - 1);
        assert rest[1..] == Without(conds[1..], i - 1);
      }
    }
  }

  /**
   * A key missing from the decoded object reads as nil: a nil condition on
   * it holds and can be dropped, and any other condition on it fails.
   */
  lemma MissingKeyReadsNil(obj: JsonObject, conds: seq<Condition>, i: nat)
    requires i < |conds| && conds[i].key !in obj
    ensures conds[i].data == Nil ==> (KeysMatch(obj, conds) <==> KeysMatch(obj, Without(conds, i)))
    ensures conds[i].data != Nil ==> !KeysMatch(obj, conds)
  {
    var rest := Without(conds, i);
    if conds[i].data == Nil && KeysMatch(obj, rest) {
      forall j | 0 <= j < |conds|
        ensures Lookup(obj, conds[j].key) == conds[j].data
      {
        if j < i {
          assert rest[j] == conds[j];
        } else if j > i {
          assert rest[j - 1] == conds[j];
        }
      }
    }
  }

  /** Case matters under one string strategy and not under the other. */
  lemma CaseSensitivityDiffers(decode: Decoder)
    ensures Examine("a", [Condition("", Str("A"))], CheckStringStrategy, decode) == Matched
    ensures Examine("a", [Condition("", Str("A"))], CheckStringSensitiveCaseStrategy, decode) == Unmatched
  {
    assert Lower("a") == "a" && Lower("A") == "a";
    assert "a" <= "a"[0..];
    assert OccursLowered(Lower("a"), Condition("", Str("A")));
    assert !Contains("a", "A") by {
      assert "a"[0..] == "a" && "a"[1..] == "";
    }
  }
}
