/** What the annotation-presence rules built on `BaseStyleRule` share: a
    lenient path selecting every candidate node, a strict path that is the
    lenient one plus the non-empty-annotation predicate, and a single fixed
    error when the lenient path matched more than the strict one. */
module AnnotationPresence {
  import opened Dom
  import opened Js
  import opened Seqs
  import opened BaseStyleRule

  /** The state such a rule keeps for its whole life: the paired queries,
      strict matches that are exactly the annotated lenient matches, and no
      warnings or errors stored. */
  predicate Invariant(rule: StyleRule, path: string) {
    && rule.xpathMatchAll == Some(path)
    && rule.xpathMatchSpecific == Some(path + AnnotationPredicate)
    && rule.strictMatches == KeepAnnotated(rule.lenientMatches)
    && rule.warnings == []
    && rule.errors == []
  }

  /** The constructor of an annotation-presence rule over `path`. */
  function NewAnnotationRule(xpath: Value, path: string): (r: Result<StyleRule>)
    ensures r.Ok? <==> xpath.Function?
    ensures r.Throw? ==> r.error == TypeError(XpathMessage)
    ensures r.Ok? ==> Invariant(r.value, path) && r.value.lenientMatches == [] && r.value.xpath == xpath.engine
  {
    var base :- New(xpath);
    Ok(base.(xpathMatchAll := Some(path), xpathMatchSpecific := Some(path + AnnotationPredicate)))
  }

  /** Every accepted check keeps the invariant: the strict matches of the new
      document are its annotated lenient matches, in order. */
  lemma CheckPreservesInvariant(rule: StyleRule, path: string, xaml: Value)
    requires Invariant(rule, path)
    requires CheckStyleRule(rule, xaml).Ok?
    ensures Invariant(CheckStyleRule(rule, xaml).value, path)
    ensures Subsequence(CheckStyleRule(rule, xaml).value.strictMatches, CheckStyleRule(rule, xaml).value.lenientMatches)
  {
    SelectAnnotated(rule.xpath, path, Document(xaml.s));
  }

  /** The body every such `getErrors` shares: `[message]` when the lenient
      count exceeds the strict count, otherwise nothing. */
  function MissingAnnotationErrors(lenient: seq<Node>, strict: seq<Node>, message: string): (errors: seq<string>)
    ensures |errors| <= 1
    ensures |lenient| > |strict| ==> errors == [message]
    ensures |lenient| <= |strict| ==> errors == []
  {
    if |lenient| - |strict| > 0 then [message] else []
  }

  /** Under the invariant the count comparison means what the rule is for:
      the error is reported exactly when some candidate node lacks a
      non-empty annotation. */
  lemma ErrorIffUnannotated(rule: StyleRule, path: string, message: string)
    requires Invariant(rule, path)
    ensures MissingAnnotationErrors(rule.lenientMatches, rule.strictMatches, message) == [message]
        <==> exists n :: n in rule.lenientMatches && !HasNonEmptyAnnotation(n)
    ensures MissingAnnotationErrors(rule.lenientMatches, rule.strictMatches, message) == []
        <==> forall n :: n in rule.lenientMatches ==> HasNonEmptyAnnotation(n)
  {
  }
}
