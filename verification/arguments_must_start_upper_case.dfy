/** `ArgumentsMustStartUpperCase`: every argument name must start with an
    upper-case letter. */
module ArgumentsMustStartUpperCase {
  import opened Dom
  import opened Js
  import opened BaseStyleRule
  import opened NamingConvention

  /** Every argument of the workflow. */
  const LenientQuery: string := "/xaml:Activity/x:Members/x:Property"
  const ValueMessage: string := "value parameter is required and must be a string"
  const ErrorTemplate: Template := Template("The argument name '", "' must start with an upper case letter.")

  /** `new ArgumentsMustStartUpperCase(xpath)`: only the lenient query is set. */
  function New(xpath: Value): (r: Result<StyleRule>)
    ensures r.Ok? <==> xpath.Function?
    ensures r.Ok? ==> r.value.xpathMatchAll == Some(LenientQuery) && r.value.xpathMatchSpecific.None?
    ensures r.Ok? ==> r.value.lenientMatches == [] && r.value.warnings == [] && r.value.errors == []
  {
    var base :- BaseStyleRule.New(xpath);
    Ok(base.(xpathMatchAll := Some(LenientQuery)))
  }

  /** `isFirstCharUpperCase(value)`: throws on anything but a non-empty
      string; otherwise true exactly for a leading upper-case letter, so a
      leading digit or symbol gives false. */
  function IsFirstCharUpperCase(value: Value): (r: Result<bool>)
    ensures r.Ok? <==> value.Str? && |value.s| != 0
    ensures r.Throw? ==> r.error == TypeError(ValueMessage)
    ensures r.Ok? ==> (r.value <==> 'A' <= value.s[0] <= 'Z')
  {
    IsFirstCharOfCase(value, Upper, ValueMessage)
  }

  /** `getErrors()`: one error per argument name that does not start with an
      upper-case letter, in order, naming it. An argument whose name is the
      empty string makes the call throw instead. */
  function GetErrors(rule: StyleRule): (r: Result<seq<string>>)
    ensures |rule.lenientMatches| == 0 ==> r == Ok([])
    ensures r.Ok? <==> forall n :: n in rule.lenientMatches && "Name" in n ==> n["Name"] != ""
    ensures r.Throw? ==> r.error == TypeError(ValueMessage)
    ensures r.Ok? ==> |r.value| <= |rule.lenientMatches|
  {
    if |rule.lenientMatches| > 0 then
      var names := AttributeValues("Name", rule.lenientMatches);
      assert forall name :: name in names <==> exists n :: n in rule.lenientMatches && "Name" in n && n["Name"] == name;
      NameErrors(names, Upper, ErrorTemplate, ValueMessage)
    else
      Ok([])
  }

  /** Every argument whose name offends is reported, and every error reports
      an offending argument. */
  lemma ErrorsNameOffendingArguments(rule: StyleRule)
    requires GetErrors(rule).Ok?
    ensures forall n :: n in rule.lenientMatches && "Name" in n && Offends(n["Name"], Upper) ==>
      ErrorTemplate.Format(n["Name"]) in GetErrors(rule).value
    ensures forall e :: e in GetErrors(rule).value ==>
      exists n :: n in rule.lenientMatches && "Name" in n && Offends(n["Name"], Upper) && e == ErrorTemplate.Format(n["Name"])
  {
    if |rule.lenientMatches| > 0 {
      var names := AttributeValues("Name", rule.lenientMatches);
      NameErrorsReportOffenders(names, Upper, ErrorTemplate, ValueMessage);
      forall e | e in GetErrors(rule).value
        ensures exists n :: n in rule.lenientMatches && "Name" in n && Offends(n["Name"], Upper) && e == ErrorTemplate.Format(n["Name"])
      {
        var name :| name in names && Offends(name, Upper) && e == ErrorTemplate.Format(name);
        var n :| n in rule.lenientMatches && "Name" in n && n["Name"] == name;
      }
    }
  }

  /** Concrete cases: "Ichi" passes, "ichi" and "1st" do not. */
  lemma CaseExamples()
    ensures IsFirstCharUpperCase(Str("Ichi")) == Ok(true)
    ensures IsFirstCharUpperCase(Str("ichi")) == Ok(false)
    ensures IsFirstCharUpperCase(Str("1st")) == Ok(false)
    ensures IsFirstCharUpperCase(Str("")).Throw?
  {
  }
}
