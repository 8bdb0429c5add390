/** `WarnVariablesWithDefaultValues`: a variable given a default value is
    worth a second look, so every variable carrying a `Default` attribute
    earns a warning, unless its name is on a short fixed ignore list. The
    rule never reports errors. */
module WarnVariablesWithDefaultValues {
  import opened Dom
  import opened Js
  import opened BaseStyleRule

  /** Every variable of the workflow, at any depth. */
  const LenientQuery: string := "//xaml:Variable"

  /** Variables that are expected to carry defaults and are never warned about. */
  const IgnoreVariableNameList: seq<string> := ["defaultDelayValue", "validStudyPeriods"]

  /** The warning for the variable called `name`. */
  function Message(name: string): string {
    "The variable with name '" + name + "' has a default value. Check to ensure the value is appropriate."
  }

  /** `new WarnVariablesWithDefaultValues(xpath)`: only the lenient query is set. */
  function New(xpath: Value): (r: Result<StyleRule>)
    ensures r.Ok? <==> xpath.Function?
    ensures r.Throw? ==> r.error == TypeError(XpathMessage)
    ensures r.Ok? ==> r.value.xpathMatchAll == Some(LenientQuery) && r.value.xpathMatchSpecific.None?
    ensures r.Ok? ==> r.value.warnings == [] && r.value.errors == []
  {
    var base :- BaseStyleRule.New(xpath);
    Ok(base.(xpathMatchAll := Some(LenientQuery)))
  }

  /** A variable is warned about when its name is not ignored and it carries
      a `Default` attribute, whatever that attribute's value. */
  predicate Flagged(node: Node) {
    GetAttribute(node, "Name") !in IgnoreVariableNameList && HasAttribute(node, "Default")
  }

  /** `getWarnings()`: one warning per flagged variable, in document order. */
  function DefaultValueWarnings(nodes: seq<Node>): (warnings: seq<string>)
    ensures |warnings| <= |nodes|
    ensures warnings == [] <==> forall k :: 0 <= k < |nodes| ==> !Flagged(nodes[k])
  {
    if |nodes| == 0 then []
    else
      var rest := DefaultValueWarnings(nodes[1..]);
      assert forall k :: 1 <= k < |nodes| ==> nodes[k] == nodes[1..][k - 1];
      if Flagged(nodes[0]) then [Message(GetAttribute(nodes[0], "Name"))] + rest else rest
  }

  /** The warnings the rule reports after its last check. */
  function GetWarnings(rule: StyleRule): (warnings: seq<string>)
    ensures |warnings| <= |rule.lenientMatches|
    ensures warnings == [] <==> forall k :: 0 <= k < |rule.lenientMatches| ==> !Flagged(rule.lenientMatches[k])
  {
    DefaultValueWarnings(rule.lenientMatches)
  }

  /** Each warning names a flagged variable, and each flagged variable is named by one. */
  lemma {:induction false} WarningsNameFlaggedVariables(nodes: seq<Node>)
    ensures forall w :: w in DefaultValueWarnings(nodes) <==>
      exists n :: n in nodes && Flagged(n) && w == Message(GetAttribute(n, "Name"))
    decreases |nodes|
  {
    if |nodes| != 0 {
      WarningsNameFlaggedVariables(nodes[1..]);
      assert forall n :: n in nodes <==> n == nodes[0] || n in nodes[1..];
    }
  }

  /** Warnings come out in document order: over two node lists in a row they
      are the warnings of the first followed by those of the second. */
  lemma {:induction false} WarningsAppend(a: seq<Node>, b: seq<Node>)
    ensures DefaultValueWarnings(a + b) == DefaultValueWarnings(a) + DefaultValueWarnings(b)
    decreases |a|
  {
    if |a| == 0 {
      assert a + b == b;
    } else {
      assert (a + b)[1..] == a[1..] + b;
      WarningsAppend(a[1..], b);
    }
  }

  /** The presence of `Default` alone decides: an empty default still warns,
      and the ignore list matches names exactly, case included. */
  lemma DefaultPresenceDecides()
    ensures DefaultValueWarnings([map["Name" := "counter", "Default" := ""]]) == [Message("counter")]
    ensures DefaultValueWarnings([map["Name" := "defaultDelayValue", "Default" := "30"]]) == []
    ensures DefaultValueWarnings([map["Name" := "DefaultDelayValue", "Default" := "30"]]) == [Message("DefaultDelayValue")]
    ensures DefaultValueWarnings([map["Name" := "counter"]]) == []
  {
    assert "DefaultDelayValue" != IgnoreVariableNameList[0];
  }

  /** However many documents the rule is run over, it reports no errors. */
  lemma NeverReportsErrors(xpath: Value, files: seq<Value>)
    requires New(xpath).Ok?
    requires CheckAll(New(xpath).value, files).Ok?
    ensures BaseStyleRule.GetErrors(CheckAll(New(xpath).value, files).value) == []
  {
    ChecksNeverChangeReports(New(xpath).value, files);
  }
}
