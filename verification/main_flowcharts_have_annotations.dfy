/** `MainFlowchartsHaveAnnotations` (declared in MainFlowchartsMustHaveAnnotations.js):
    the top-level flowchart of a workflow must carry a non-empty annotation;
    a violation is one generic error. */
module MainFlowchartsHaveAnnotations {
  import opened Dom
  import opened Js
  import opened Seqs
  import opened BaseStyleRule
  import opened AnnotationPresence

  /** The flowchart directly under the root activity. */
  const LenientQuery: string := "/xaml:Activity/xaml:Flowchart"
  /** That flowchart when it has a non-empty annotation: the lenient path plus the predicate. */
  const StrictQuery: string := LenientQuery + AnnotationPredicate
  const Message: string := "Main flowcharts without annotations are not allowed."

  predicate Valid(rule: StyleRule) {
    Invariant(rule, LenientQuery)
  }

  /** `new MainFlowchartsHaveAnnotations(xpath)`. */
  function New(xpath: Value): (r: Result<StyleRule>)
    ensures r.Ok? <==> xpath.Function?
    ensures r.Ok? ==> Valid(r.value) && r.value.xpathMatchSpecific == Some(StrictQuery)
    ensures r.Ok? ==> r.value.lenientMatches == [] && r.value.strictMatches == []
  {
    NewAnnotationRule(xpath, LenientQuery)
  }

  /** `getErrors()`: the one generic message when more flowcharts matched than
      annotated ones, otherwise nothing. */
  function GetErrors(rule: StyleRule): (errors: seq<string>)
    ensures |errors| <= 1
    ensures |rule.lenientMatches| > |rule.strictMatches| ==> errors == [Message]
    ensures |rule.lenientMatches| <= |rule.strictMatches| ==> errors == []
  {
    MissingAnnotationErrors(rule.lenientMatches, rule.strictMatches, Message)
  }

  /** A check keeps the strict matches an ordered part of the lenient ones
      and the warnings empty. */
  lemma CheckKeepsStrictWithinLenient(rule: StyleRule, xaml: Value)
    requires Valid(rule)
    requires CheckStyleRule(rule, xaml).Ok?
    ensures Valid(CheckStyleRule(rule, xaml).value)
    ensures Subsequence(GetStrictMatches(CheckStyleRule(rule, xaml).value), GetLenientMatches(CheckStyleRule(rule, xaml).value))
    ensures GetWarnings(CheckStyleRule(rule, xaml).value) == []
  {
    CheckPreservesInvariant(rule, LenientQuery, xaml);
  }

  /** The two fixtures: a document whose one main flowchart is annotated gives
      no error, one whose main flowchart is not (one lenient match, no strict
      match) gives exactly the one error; neither gives a warning. */
  lemma FixtureOutcomes(rule: StyleRule, xaml: Value, flowchart: Node)
    requires Valid(rule)
    requires CheckStyleRule(rule, xaml).Ok?
    requires rule.xpath(LenientQuery, Document(xaml.s)) == [flowchart]
    ensures HasNonEmptyAnnotation(flowchart) ==> GetErrors(CheckStyleRule(rule, xaml).value) == []
    ensures !HasNonEmptyAnnotation(flowchart) ==>
      && |GetLenientMatches(CheckStyleRule(rule, xaml).value)| == 1
      && |GetStrictMatches(CheckStyleRule(rule, xaml).value)| == 0
      && GetErrors(CheckStyleRule(rule, xaml).value) == [Message]
    ensures GetWarnings(CheckStyleRule(rule, xaml).value) == []
  {
    CheckPreservesInvariant(rule, LenientQuery, xaml);
    assert !EndsWith(LenientQuery, AnnotationPredicate);
    assert KeepAnnotated([flowchart]) == if HasNonEmptyAnnotation(flowchart) then [flowchart] else [];
  }
}
