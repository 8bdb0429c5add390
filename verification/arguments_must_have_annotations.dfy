/** `ArgumentsMustHaveAnnotations` (app/rules): every workflow argument must
    carry a non-empty annotation. The code reports one generic error, not one
    per argument. */
module ArgumentsMustHaveAnnotations {
  import opened Dom
  import opened Js
  import opened Seqs
  import opened BaseStyleRule
  import opened AnnotationPresence

  /** Every argument of the workflow. */
  const LenientQuery: string := "/xaml:Activity/x:Members/x:Property"
  /** The arguments with a non-empty annotation: the lenient path plus the predicate. */
  const StrictQuery: string := LenientQuery + AnnotationPredicate
  const Message: string := "Arguments without annotations are not allowed."

  predicate Valid(rule: StyleRule) {
    Invariant(rule, LenientQuery)
  }

  /** `new ArgumentsMustHaveAnnotations(xpath)`. */
  function New(xpath: Value): (r: Result<StyleRule>)
    ensures r.Ok? <==> xpath.Function?
    ensures r.Ok? ==> Valid(r.value) && r.value.xpathMatchSpecific == Some(StrictQuery)
    ensures r.Ok? ==> r.value.lenientMatches == [] && r.value.strictMatches == []
  {
    NewAnnotationRule(xpath, LenientQuery)
  }

  /** `getErrors()`: the one generic message when more arguments matched than
      annotated arguments, otherwise nothing. */
  function GetErrors(rule: StyleRule): (errors: seq<string>)
    ensures |errors| <= 1
    ensures |rule.lenientMatches| > |rule.strictMatches| ==> errors == [Message]
    ensures |rule.lenientMatches| <= |rule.strictMatches| ==> errors == []
  {
    MissingAnnotationErrors(rule.lenientMatches, rule.strictMatches, Message)
  }

  /** A check keeps the strict matches an ordered part of the lenient ones
      and the warnings empty. */
  lemma CheckKeepsStrictWithinLenient(rule: StyleRule, xaml: Value)
    requires Valid(rule)
    requires CheckStyleRule(rule, xaml).Ok?
    ensures Valid(CheckStyleRule(rule, xaml).value)
    ensures Subsequence(GetStrictMatches(CheckStyleRule(rule, xaml).value), GetLenientMatches(CheckStyleRule(rule, xaml).value))
    ensures GetWarnings(CheckStyleRule(rule, xaml).value) == []
  {
    CheckPreservesInvariant(rule, LenientQuery, xaml);
  }

  /** The error is reported exactly when some argument lacks a non-empty annotation. */
  lemma ErrorIffUnannotatedArgument(rule: StyleRule)
    requires Valid(rule)
    ensures GetErrors(rule) == [Message] <==> exists n :: n in rule.lenientMatches && !HasNonEmptyAnnotation(n)
    ensures GetErrors(rule) == [] <==> forall n :: n in rule.lenientMatches ==> HasNonEmptyAnnotation(n)
  {
    ErrorIffUnannotated(rule, LenientQuery, Message);
  }

  /** A rule that has checked nothing reports nothing. */
  lemma FreshRuleReportsNothing(xpath: Value)
    requires New(xpath).Ok?
    ensures GetErrors(New(xpath).value) == []
    ensures GetWarnings(New(xpath).value) == []
  {
  }

  /** The errors after a check depend on that document only: two rules built
      on the same processor agree, whatever each checked before. */
  lemma ErrorsDependOnLastDocumentOnly(rule: StyleRule, other: StyleRule, xaml: Value)
    requires Valid(rule) && Valid(other) && other.xpath == rule.xpath
    requires CheckStyleRule(rule, xaml).Ok?
    ensures GetErrors(CheckStyleRule(rule, xaml).value) == GetErrors(CheckStyleRule(other, xaml).value)
  {
    CheckForgetsEarlierMatches(rule, other, xaml);
  }
}
