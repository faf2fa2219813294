/** The handlers turn a caught error into a user-facing text by an ordered
    chain of tests: the first test that holds picks the text, and when none
    holds a handler-specific fallback is used.  A chain is written here as a
    table of rules, each a disjunction of conditions. */
module ErrorRules {
  import opened Wrappers
  import opened JsString
  import opened Protocol

  datatype Condition =
    | MessageHas(part: string)   // error.message.includes(part)
    | CodeIs(code: string)       // error.code === code
    | StatusIs(status: int)      // error.response?.status === status

  datatype Rule = Rule(anyOf: seq<Condition>, text: string)

  predicate Holds(c: Condition, e: ErrorInfo) {
    match c
    case MessageHas(part) => Contains(e.message, part)
    case CodeIs(code) => e.code == Some(code)
    case StatusIs(status) => e.status == Some(status)
  }

  predicate Applies(r: Rule, e: ErrorInfo) {
    exists q :: 0 <= q < |r.anyOf| && Holds(r.anyOf[q], e)
  }

  /** No rule before index `k` applies. */
  predicate NoneBefore(rules: seq<Rule>, e: ErrorInfo, k: nat) {
    forall j :: 0 <= j < k && j < |rules| ==> !Applies(rules[j], e)
  }

  /** The index of the first rule at or after `from` that applies. */
  function FirstApplicable(rules: seq<Rule>, e: ErrorInfo, from: nat): (r: Option<nat>)
    ensures r.Some? ==> from <= r.value < |rules| && Applies(rules[r.value], e)
    ensures r.Some? ==> forall j :: from <= j < r.value ==> !Applies(rules[j], e)
    ensures r.None? ==> forall j :: from <= j < |rules| ==> !Applies(rules[j], e)
    decreases |rules| - from
  {
    if from >= |rules| then None
    else if Applies(rules[from], e) then Some(from)
    else FirstApplicable(rules, e, from + 1)
  }

  /** The text the chain gives for `e`. */
  function Classify(rules: seq<Rule>, e: ErrorInfo, fallback: string): (r: string)
    ensures (forall j :: 0 <= j < |rules| ==> !Applies(rules[j], e)) ==> r == fallback
    ensures forall k :: 0 <= k < |rules| && Applies(rules[k], e) && NoneBefore(rules, e, k) ==>
                          r == rules[k].text
  {
    match FirstApplicable(rules, e, 0)
    case Some(k) => rules[k].text
    case None => fallback
  }
}
