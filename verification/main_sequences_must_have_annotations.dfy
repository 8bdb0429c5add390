/** `MainSequencesMustHaveAnnotations`: the top-level sequence of a workflow
    must carry a non-empty annotation; a violation is one generic error. */
module MainSequencesMustHaveAnnotations {
  import opened Dom
  import opened Js
  import opened Seqs
  import opened BaseStyleRule
  import opened AnnotationPresence

  /** The sequence directly under the root activity. */
  const LenientQuery: string := "/xaml:Activity/xaml:Sequence"
  /** That sequence when it has a non-empty annotation: the lenient path plus the predicate. */
  const StrictQuery: string := LenientQuery + AnnotationPredicate
  const Message: string := "Main sequences without annotations are not allowed."

  predicate Valid(rule: StyleRule) {
    Invariant(rule, LenientQuery)
  }

  /** `new MainSequencesMustHaveAnnotations(xpath)`. */
  function New(xpath: Value): (r: Result<StyleRule>)
    ensures r.Ok? <==> xpath.Function?
    ensures r.Ok? ==> Valid(r.value) && r.value.xpathMatchSpecific == Some(StrictQuery)
    ensures r.Ok? ==> r.value.lenientMatches == [] && r.value.strictMatches == []
  {
    NewAnnotationRule(xpath, LenientQuery)
  }

  /** `getErrors()`: the one generic message when more sequences matched than
      annotated ones, otherwise nothing. */
  function GetErrors(rule: StyleRule): (errors: seq<string>)
    ensures |errors| <= 1
    ensures |rule.lenientMatches| > |rule.strictMatches| ==> errors == [Message]
    ensures |rule.lenientMatches| <= |rule.strictMatches| ==> errors == []
  {
    MissingAnnotationErrors(rule.lenientMatches, rule.strictMatches, Message)
  }

  /** A check keeps the strict matches an ordered part of the lenient ones
      and the warnings empty. */
  lemma CheckKeepsStrictWithinLenient(rule: StyleRule, xaml: Value)
    requires Valid(rule)
    requires CheckStyleRule(rule, xaml).Ok?
    ensures Valid(CheckStyleRule(rule, xaml).value)
    ensures Subsequence(GetStrictMatches(CheckStyleRule(rule, xaml).value), GetLenientMatches(CheckStyleRule(rule, xaml).value))
    ensures GetWarnings(CheckStyleRule(rule, xaml).value) == []
  {
    CheckPreservesInvariant(rule, LenientQuery, xaml);
  }

  /** The error is reported exactly when the main sequence lacks a non-empty annotation. */
  lemma ErrorIffUnannotatedSequence(rule: StyleRule)
    requires Valid(rule)
    ensures GetErrors(rule) == [Message] <==> exists n :: n in rule.lenientMatches && !HasNonEmptyAnnotation(n)
    ensures GetErrors(rule) == [] <==> forall n :: n in rule.lenientMatches ==> HasNonEmptyAnnotation(n)
  {
    ErrorIffUnannotated(rule, LenientQuery, Message);
  }
}
