/** The older, standalone `ArgumentsMustHaveAnnotations` (app/ArgumentsMustHaveAnnotations.js).
    Its constructor accepts anything as the XPath processor, and its input
    guard `!xaml || !typeof xaml === "string"` only rejects falsy values:
    `!typeof xaml` is always `false`, and `false === "string"` never holds. */
module LegacyArgumentsMustHaveAnnotations {
  import opened Dom
  import opened Js
  import opened Seqs
  import BaseStyleRule

  datatype LegacyRule = LegacyRule(
    xpath: Value,
    xpathMatchAll: string,
    xpathMatchSpecific: string,
    lenientMatches: seq<Node>,
    strictMatches: seq<Node>)

  /** Every argument, wherever an `Activity` element occurs. */
  const LenientQuery: string := "//xaml:Activity/x:Members/x:Property"
  /** The arguments with a non-empty annotation: the lenient path plus the predicate. */
  const StrictQuery: string := LenientQuery + AnnotationPredicate
  /** What calling a non-function `this.xpath` throws. */
  const NotAFunctionMessage: string := "this.xpath is not a function"

  /** `new ArgumentsMustHaveAnnotations(xpath)`: stores `xpath` unchecked. */
  function New(xpath: Value): (rule: LegacyRule)
    ensures rule.xpath == xpath
    ensures rule.xpathMatchAll == LenientQuery
    ensures rule.xpathMatchSpecific == rule.xpathMatchAll + AnnotationPredicate
    ensures rule.lenientMatches == [] && rule.strictMatches == []
  {
    LegacyRule(xpath, LenientQuery, StrictQuery, [], [])
  }

  /** The guard exactly as written: `!xaml || !typeof xaml === "string"`. */
  predicate GuardRejects(xaml: Value) {
    !Truthy(xaml) || StrictEquals(Boolean(!Truthy(Str(TypeOf(xaml)))), Str("string"))
  }

  /** The second half of the guard can never fire: it rejects exactly the
      falsy values, so a truthy number or object gets through. */
  lemma GuardOnlyRejectsFalsy(xaml: Value)
    ensures GuardRejects(xaml) <==> !Truthy(xaml)
    ensures !GuardRejects(Number(1)) && !GuardRejects(Object)
  {
  }

  /** `checkStyleRule(xaml)`: past the guard, parse and replace both match
      lists; when the stored `xpath` is not a function the call throws. */
  function CheckStyleRule(rule: LegacyRule, xaml: Value): (r: Result<LegacyRule>)
    ensures r.Ok? <==> Truthy(xaml) && rule.xpath.Function?
    ensures r.Ok? ==> r.value == rule.(
      lenientMatches := Select(rule.xpath.engine, rule.xpathMatchAll, ParseFromString(xaml)),
      strictMatches := Select(rule.xpath.engine, rule.xpathMatchSpecific, ParseFromString(xaml)))
    ensures r.Throw? && !Truthy(xaml) ==> r.error == TypeError(BaseStyleRule.XamlMessage)
    ensures r.Throw? && Truthy(xaml) ==> r.error == TypeError(NotAFunctionMessage)
  {
    if GuardRejects(xaml) then Throw(TypeError(BaseStyleRule.XamlMessage))
    else
      var doc := ParseFromString(xaml);
      if !rule.xpath.Function? then Throw(TypeError(NotAFunctionMessage))
      else
        Ok(rule.(lenientMatches := Select(rule.xpath.engine, rule.xpathMatchAll, doc),
                 strictMatches := Select(rule.xpath.engine, rule.xpathMatchSpecific, doc)))
  }

  function GetLenientMatches(rule: LegacyRule): seq<Node> {
    rule.lenientMatches
  }

  function GetStrictMatches(rule: LegacyRule): seq<Node> {
    rule.strictMatches
  }

  /** From construction on, whatever is checked, the strict matches are the
      annotated lenient matches, in order. */
  lemma {:induction false} StrictWithinLenient(xpath: Value, files: seq<Value>)
    requires CheckAll(New(xpath), files).Ok?
    ensures CheckAll(New(xpath), files).value.strictMatches == KeepAnnotated(CheckAll(New(xpath), files).value.lenientMatches)
    ensures Subsequence(GetStrictMatches(CheckAll(New(xpath), files).value), GetLenientMatches(CheckAll(New(xpath), files).value))
  {
    CheckAllKeepsStrictAnnotated(New(xpath), files);
  }

  /** Checking each of `files` in turn, stopping at the first failure. */
  function CheckAll(rule: LegacyRule, files: seq<Value>): Result<LegacyRule>
    decreases |files|
  {
    if |files| == 0 then Ok(rule)
    else
      var next :- CheckStyleRule(rule, files[0]);
      CheckAll(next, files[1..])
  }

  lemma {:induction false} CheckAllKeepsStrictAnnotated(rule: LegacyRule, files: seq<Value>)
    requires rule.xpathMatchSpecific == rule.xpathMatchAll + AnnotationPredicate
    requires rule.strictMatches == KeepAnnotated(rule.lenientMatches)
    requires CheckAll(rule, files).Ok?
    ensures CheckAll(rule, files).value.strictMatches == KeepAnnotated(CheckAll(rule, files).value.lenientMatches)
    decreases |files|
  {
    if |files| != 0 {
      var next := CheckStyleRule(rule, files[0]).value;
      SelectAnnotated(rule.xpath.engine, rule.xpathMatchAll, ParseFromString(files[0]));
      CheckAllKeepsStrictAnnotated(next, files[1..]);
    }
  }
}
