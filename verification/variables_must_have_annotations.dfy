/** `VariablesMustHaveAnnotations`: every variable, at any depth, must carry a
    non-empty annotation. This rule stands alone rather than extending
    `BaseStyleRule`: both queries are always set, every check replaces both
    match lists, and it stores no warnings or errors. */
module VariablesMustHaveAnnotations {
  import opened Dom
  import opened Js
  import opened Seqs
  import BaseStyleRule

  datatype VariablesRule = VariablesRule(
    xpath: Engine,
    xpathMatchAll: string,
    xpathMatchSpecific: string,
    lenientMatches: seq<Node>,
    strictMatches: seq<Node>)

  /** Every variable of the workflow. */
  const LenientQuery: string := "//xaml:Variable"
  /** The variables with a non-empty annotation: the lenient path plus the predicate. */
  const StrictQuery: string := LenientQuery + AnnotationPredicate
  const Message: string := "Variables without annotations are not allowed."

  /** The paired queries, and strict matches that are exactly the annotated lenient ones. */
  predicate Valid(rule: VariablesRule) {
    && rule.xpathMatchAll == LenientQuery
    && rule.xpathMatchSpecific == StrictQuery
    && rule.strictMatches == KeepAnnotated(rule.lenientMatches)
  }

  /** `new VariablesMustHaveAnnotations(xpath)`. */
  function New(xpath: Value): (r: Result<VariablesRule>)
    ensures r.Ok? <==> xpath.Function?
    ensures r.Throw? ==> r.error == TypeError(BaseStyleRule.XpathMessage)
    ensures r.Ok? ==> Valid(r.value) && r.value.xpath == xpath.engine
    ensures r.Ok? ==> r.value.lenientMatches == [] && r.value.strictMatches == []
  {
    var engine :- RequireFunction(xpath, BaseStyleRule.XpathMessage);
    Ok(VariablesRule(engine, LenientQuery, StrictQuery, [], []))
  }

  /** `checkStyleRule(xaml)`: reject anything but a non-empty string, then
      replace both match lists, whatever they held. */
  function CheckStyleRule(rule: VariablesRule, xaml: Value): (r: Result<VariablesRule>)
    ensures r.Ok? <==> xaml.Str? && |xaml.s| != 0
    ensures r.Throw? ==> r.error == TypeError(BaseStyleRule.XamlMessage)
    ensures r.Ok? ==> r.value == rule.(
      lenientMatches := Select(rule.xpath, rule.xpathMatchAll, Document(xaml.s)),
      strictMatches := Select(rule.xpath, rule.xpathMatchSpecific, Document(xaml.s)))
  {
    var _ :- RequireString(xaml, BaseStyleRule.XamlMessage);
    var doc := ParseFromString(xaml);
    Ok(rule.(lenientMatches := Select(rule.xpath, rule.xpathMatchAll, doc),
             strictMatches := Select(rule.xpath, rule.xpathMatchSpecific, doc)))
  }

  function GetLenientMatches(rule: VariablesRule): seq<Node> {
    rule.lenientMatches
  }

  function GetStrictMatches(rule: VariablesRule): seq<Node> {
    rule.strictMatches
  }

  /** `getWarnings()`: this rule never warns. */
  function GetWarnings(rule: VariablesRule): (warnings: seq<string>)
    ensures warnings == []
  {
    []
  }

  /** `getErrors()`: the single message when more variables matched than
      annotated ones, otherwise nothing. */
  function GetErrors(rule: VariablesRule): (errors: seq<string>)
    ensures |errors| <= 1
    ensures errors == [Message] <==> |rule.lenientMatches| > |rule.strictMatches|
    ensures errors == [] <==> |rule.lenientMatches| <= |rule.strictMatches|
  {
    if |rule.lenientMatches| - |rule.strictMatches| > 0 then [Message] else []
  }

  /** Every check keeps the rule valid, and the result does not depend on the
      match lists it replaced. */
  lemma CheckPreservesValid(rule: VariablesRule, other: VariablesRule, xaml: Value)
    requires Valid(rule)
    requires other == rule.(lenientMatches := other.lenientMatches, strictMatches := other.strictMatches)
    requires CheckStyleRule(rule, xaml).Ok?
    ensures Valid(CheckStyleRule(rule, xaml).value)
    ensures Subsequence(GetStrictMatches(CheckStyleRule(rule, xaml).value), GetLenientMatches(CheckStyleRule(rule, xaml).value))
    ensures CheckStyleRule(other, xaml) == CheckStyleRule(rule, xaml)
  {
    SelectAnnotated(rule.xpath, LenientQuery, Document(xaml.s));
  }

  /** The error is reported exactly when some variable lacks a non-empty annotation. */
  lemma ErrorIffUnannotatedVariable(rule: VariablesRule)
    requires Valid(rule)
    ensures GetErrors(rule) == [Message] <==> exists n :: n in rule.lenientMatches && !HasNonEmptyAnnotation(n)
  {
  }
}
