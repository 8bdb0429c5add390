/** `VariablesMustStartLowerCase`: every variable name must start with a
    lower-case letter. */
module VariablesMustStartLowerCase {
  import opened Dom
  import opened Js
  import opened BaseStyleRule
  import opened NamingConvention
  import ArgumentsMustStartUpperCase

  /** Every variable of the workflow, at any depth. */
  const LenientQuery: string := "//xaml:Variable"
  const ValueMessage: string := "value parameter is required and must be a string"
  const ErrorTemplate: Template := Template("The variable name '", "' must start with a lower case letter.")

  /** `new VariablesMustStartLowerCase(xpath)`: only the lenient query is set. */
  function New(xpath: Value): (r: Result<StyleRule>)
    ensures r.Ok? <==> xpath.Function?
    ensures r.Ok? ==> r.value.xpathMatchAll == Some(LenientQuery) && r.value.xpathMatchSpecific.None?
    ensures r.Ok? ==> r.value.lenientMatches == [] && r.value.warnings == [] && r.value.errors == []
  {
    var base :- BaseStyleRule.New(xpath);
    Ok(base.(xpathMatchAll := Some(LenientQuery)))
  }

  /** `isFirstCharLowerCase(value)`: throws on anything but a non-empty
      string; otherwise true exactly for a leading lower-case letter, so a
      leading digit or symbol gives false. */
  function IsFirstCharLowerCase(value: Value): (r: Result<bool>)
    ensures r.Ok? <==> value.Str? && |value.s| != 0
    ensures r.Throw? ==> r.error == TypeError(ValueMessage)
    ensures r.Ok? ==> (r.value <==> 'a' <= value.s[0] <= 'z')
  {
    IsFirstCharOfCase(value, Lower, ValueMessage)
  }

  /** `getErrors()`: one error per variable name that does not start with a
      lower-case letter, in order, naming it. A variable whose name is the
      empty string makes the call throw instead. */
  function GetErrors(rule: StyleRule): (r: Result<seq<string>>)
    ensures |rule.lenientMatches| == 0 ==> r == Ok([])
    ensures r.Ok? <==> forall n :: n in rule.lenientMatches && "Name" in n ==> n["Name"] != ""
    ensures r.Throw? ==> r.error == TypeError(ValueMessage)
    ensures r.Ok? ==> |r.value| <= |rule.lenientMatches|
  {
    if |rule.lenientMatches| > 0 then
      var names := AttributeValues("Name", rule.lenientMatches);
      assert forall name :: name in names <==> exists n :: n in rule.lenientMatches && "Name" in n && n["Name"] == name;
      NameErrors(names, Lower, ErrorTemplate, ValueMessage)
    else
      Ok([])
  }

  /** Every variable whose name offends is reported, and every error reports
      an offending variable. */
  lemma ErrorsNameOffendingVariables(rule: StyleRule)
    requires GetErrors(rule).Ok?
    ensures forall n :: n in rule.lenientMatches && "Name" in n && Offends(n["Name"], Lower) ==>
      ErrorTemplate.Format(n["Name"]) in GetErrors(rule).value
    ensures forall e :: e in GetErrors(rule).value ==>
      exists n :: n in rule.lenientMatches && "Name" in n && Offends(n["Name"], Lower) && e == ErrorTemplate.Format(n["Name"])
  {
    if |rule.lenientMatches| > 0 {
      var names := AttributeValues("Name", rule.lenientMatches);
      NameErrorsReportOffenders(names, Lower, ErrorTemplate, ValueMessage);
      forall e | e in GetErrors(rule).value
        ensures exists n :: n in rule.lenientMatches && "Name" in n && Offends(n["Name"], Lower) && e == ErrorTemplate.Format(n["Name"])
      {
        var name :| name in names && Offends(name, Lower) && e == ErrorTemplate.Format(name);
        var n :| n in rule.lenientMatches && "Name" in n && n["Name"] == name;
      }
    }
  }

  /** The test fixtures: "thisIsValid" passes, "ThisIsInValid" does not,
      and a leading digit fails here as it fails the upper-case test. */
  lemma CaseExamples()
    ensures IsFirstCharLowerCase(Str("thisIsValid")) == Ok(true)
    ensures IsFirstCharLowerCase(Str("ThisIsInValid")) == Ok(false)
    ensures IsFirstCharLowerCase(Str("1st")) == Ok(false)
    ensures IsFirstCharLowerCase(Str("")).Throw?
  {
  }

  /** No name passes both this rule's test and the argument rule's. */
  lemma NoNameStartsWithBothCases(value: Value)
    ensures !(IsFirstCharLowerCase(value) == Ok(true) && ArgumentsMustStartUpperCase.IsFirstCharUpperCase(value) == Ok(true))
  {
    NoNameHasBothCases(value, ValueMessage);
  }
}
