/** `PublicWorkflowsMustHaveAnnotations`: a workflow published by a library
    must carry a non-empty annotation on its root activity. A standalone rule
    with only a strict query; it reports an error whenever that query matched
    nothing, including before any document has been checked. */
module PublicWorkflowsMustHaveAnnotations {
  import opened Dom
  import opened Js
  import BaseStyleRule

  datatype PublicWorkflowsRule = PublicWorkflowsRule(
    xpath: Engine,
    xpathMatchSpecific: string,
    strictMatches: seq<Node>)

  /** The root activity's annotation element, when its text is not empty. */
  const StrictQuery: string := "/xaml:Activity/sap2010:Annotation.AnnotationText[string-length(text())!=0]"
  const Message: string := "Public workflows in libraries without annotations is not allowed."

  /** `new PublicWorkflowsMustHaveAnnotations(xpath)`. */
  function New(xpath: Value): (r: Result<PublicWorkflowsRule>)
    ensures r.Ok? <==> xpath.Function?
    ensures r.Throw? ==> r.error == TypeError(BaseStyleRule.XpathMessage)
    ensures r.Ok? ==> r.value == PublicWorkflowsRule(xpath.engine, StrictQuery, [])
  {
    var engine :- RequireFunction(xpath, BaseStyleRule.XpathMessage);
    Ok(PublicWorkflowsRule(engine, StrictQuery, []))
  }

  /** `checkStyleRule(xaml)`: reject anything but a non-empty string, then
      replace the strict matches. */
  function CheckStyleRule(rule: PublicWorkflowsRule, xaml: Value): (r: Result<PublicWorkflowsRule>)
    ensures r.Ok? <==> xaml.Str? && |xaml.s| != 0
    ensures r.Throw? ==> r.error == TypeError(BaseStyleRule.XamlMessage)
    ensures r.Ok? ==> r.value.xpath == rule.xpath && r.value.xpathMatchSpecific == rule.xpathMatchSpecific
    ensures r.Ok? ==> r.value.strictMatches == Select(rule.xpath, rule.xpathMatchSpecific, Document(xaml.s))
  {
    var _ :- RequireString(xaml, BaseStyleRule.XamlMessage);
    var doc := ParseFromString(xaml);
    Ok(rule.(strictMatches := Select(rule.xpath, rule.xpathMatchSpecific, doc)))
  }

  /** `getLenientMatches()`: this rule has no lenient query. */
  function GetLenientMatches(rule: PublicWorkflowsRule): (matches: seq<Node>)
    ensures matches == []
  {
    []
  }

  function GetStrictMatches(rule: PublicWorkflowsRule): seq<Node> {
    rule.strictMatches
  }

  /** `getWarnings()`: this rule never warns. */
  function GetWarnings(rule: PublicWorkflowsRule): (warnings: seq<string>)
    ensures warnings == []
  {
    []
  }

  /** `getErrors()`: the single message exactly when nothing matched. */
  function GetErrors(rule: PublicWorkflowsRule): (errors: seq<string>)
    ensures |errors| <= 1
    ensures errors == [Message] <==> |rule.strictMatches| == 0
    ensures errors == [] <==> |rule.strictMatches| != 0
  {
    if |rule.strictMatches| == 0 then [Message] else []
  }

  /** A rule that has checked nothing already reports the missing annotation. */
  lemma FreshRuleReportsMissingAnnotation(xpath: Value)
    requires New(xpath).Ok?
    ensures GetErrors(New(xpath).value) == [Message]
  {
  }

  /** After any accepted check, the error is reported exactly when the strict
      query selects nothing in that document, whatever was matched before. */
  lemma ErrorIffNothingSelected(rule: PublicWorkflowsRule, xaml: Value)
    requires CheckStyleRule(rule, xaml).Ok?
    ensures GetErrors(CheckStyleRule(rule, xaml).value) == [Message]
      <==> |Select(rule.xpath, rule.xpathMatchSpecific, Document(xaml.s))| == 0
    ensures GetErrors(CheckStyleRule(rule, xaml).value) == []
      <==> |Select(rule.xpath, rule.xpathMatchSpecific, Document(xaml.s))| != 0
  {
  }
}
