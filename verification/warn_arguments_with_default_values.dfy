/** `WarnArgumentsWithDefaultValues`: an argument given a default value is
    worth a second look. UiPath stores an argument's default on the root
    `Activity` element, in an attribute named after the workflow's class and
    the argument, so the rule looks every argument up there. Arguments on a
    fixed list of test-framework names are never warned about, and the rule
    never reports errors.

    The root element is passed in explicitly: the document the source reads
    it from is held by a field of the rule that is not part of this model. */
module WarnArgumentsWithDefaultValues {
  import opened Dom
  import opened Js
  import opened BaseStyleRule
  import opened Seqs

  /** Every argument of the workflow. */
  const LenientQuery: string := "/xaml:Activity/x:Members/x:Property"

  /** Arguments the test framework expects to carry defaults. */
  const IgnoreArgumentNameList: seq<string> :=
    ["TestSuiteName", "TestResultsFolder", "TestOrder", "TestCategory", "TestEnvironmentBlackList"]

  const ArgumentNameMessage: string := "argumentName parameter is required and must be a string"

  /** The warning for the argument called `name`. */
  function Message(name: string): string {
    "The argument with name '" + name + "' has a default value. Check to ensure the value is appropriate."
  }

  /** `new WarnArgumentsWithDefaultValues(xpath)`: only the lenient query is set. */
  function New(xpath: Value): (r: Result<StyleRule>)
    ensures r.Ok? <==> xpath.Function?
    ensures r.Throw? ==> r.error == TypeError(XpathMessage)
    ensures r.Ok? ==> r.value.xpathMatchAll == Some(LenientQuery) && r.value.xpathMatchSpecific.None?
    ensures r.Ok? ==> r.value.warnings == [] && r.value.errors == []
  {
    var base :- BaseStyleRule.New(xpath);
    Ok(base.(xpathMatchAll := Some(LenientQuery)))
  }

  /** `getClassName`: the workflow's class, the root element's `x:Class`. */
  function GetClassName(activity: Node): (className: string)
    ensures HasAttribute(activity, "x:Class") ==> className == activity["x:Class"]
    ensures !HasAttribute(activity, "x:Class") ==> className == ""
  {
    GetAttribute(activity, "x:Class")
  }

  /** The root attribute holding the default of argument `name`: "this:", the
      class name, a dot, and the argument name. */
  function DefaultAttributeName(activity: Node, name: string): string {
    "this:" + GetClassName(activity) + "." + name
  }

  /** The default recorded for argument `name`, "" when there is none. */
  function DefaultValue(activity: Node, name: string): string {
    GetAttribute(activity, DefaultAttributeName(activity, name))
  }

  /** `getArgumentDefaultValue(xamlDoc, argumentName)`: the name must be a
      non-empty string; the answer is the default recorded for it, or "". */
  function GetArgumentDefaultValue(activity: Node, argumentName: Value): (r: Result<string>)
    ensures r.Ok? <==> argumentName.Str? && |argumentName.s| != 0
    ensures r.Throw? ==> r.error == TypeError(ArgumentNameMessage)
    ensures r.Ok? ==> r.value == DefaultValue(activity, argumentName.s)
    ensures r.Ok? && r.value != "" ==> HasAttribute(activity, DefaultAttributeName(activity, argumentName.s))
  {
    var name :- RequireString(argumentName, ArgumentNameMessage);
    var attributeName := "this:" + GetClassName(activity) + "." + name;
    if HasAttribute(activity, attributeName) then Ok(activity[attributeName]) else Ok("")
  }

  /** A default written under the class's attribute name is the one read back. */
  lemma DefaultValueRoundTrip(activity: Node, className: string, name: string, value: string)
    requires |name| != 0
    requires activity == map["x:Class" := className, "this:" + className + "." + name := value]
    ensures GetArgumentDefaultValue(activity, Str(name)) == Ok(value)
  {
    assert ("this:" + className + "." + name)[0] == 't';
    assert GetClassName(activity) == className;
  }

  /** A default written under another class's name is not found. */
  lemma DefaultOfOtherClassIgnored(className: string, otherClass: string, name: string, value: string)
    requires |name| != 0 && className != otherClass
    ensures GetArgumentDefaultValue(map["x:Class" := className, "this:" + otherClass + "." + name := value], Str(name)) == Ok("")
  {
    var own := "this:" + className + "." + name;
    var other := "this:" + otherClass + "." + name;
    assert other[0] == 't';
    if |className| == |otherClass| {
      assert exists i :: 0 <= i < |className| && className[i] != otherClass[i];
      var i :| 0 <= i < |className| && className[i] != otherClass[i];
      assert own[5 + i] == className[i];
      assert other[5 + i] == otherClass[i];
    } else {
      assert |own| != |other|;
    }
  }

  /** An argument is warned about when its name is not ignored and its
      recorded default is non-empty. */
  predicate Flagged(node: Node, activity: Node) {
    GetAttribute(node, "Name") !in IgnoreArgumentNameList
    && DefaultValue(activity, GetAttribute(node, "Name")) != ""
  }

  /** An argument whose default the source would try to look up under an
      empty name, which throws. The empty name is never on the ignore list. */
  predicate Unnamed(node: Node) {
    GetAttribute(node, "Name") == ""
  }

  /** The `forEach` of `getWarnings()`: for each argument, skip ignored names,
      look the default up (throwing on an empty name) and warn when it is
      non-empty. */
  function ArgumentWarnings(nodes: seq<Node>, activity: Node): (r: Result<seq<string>>)
    ensures r.Ok? <==> forall k :: 0 <= k < |nodes| ==> !Unnamed(nodes[k])
    ensures r.Throw? ==> r.error == TypeError(ArgumentNameMessage)
    ensures r.Ok? ==> |r.value| <= |nodes|
  {
    if |nodes| == 0 then Ok([])
    else
      var argumentName := GetAttribute(nodes[0], "Name");
      assert forall k :: 1 <= k < |nodes| ==> nodes[k] == nodes[1..][k - 1];
      if argumentName in IgnoreArgumentNameList then
        ArgumentWarnings(nodes[1..], activity)
      else
        var defaultValue :- GetArgumentDefaultValue(activity, Str(argumentName));
        var rest :- ArgumentWarnings(nodes[1..], activity);
        if defaultValue != "" then Ok([Message(argumentName)] + rest) else Ok(rest)
  }

  /** `getWarnings()` over the arguments of the last checked document, given
      that document's root element. */
  function GetWarnings(rule: StyleRule, activity: Node): (r: Result<seq<string>>)
    ensures |rule.lenientMatches| == 0 ==> r == Ok([])
    ensures r.Ok? <==> forall k :: 0 <= k < |rule.lenientMatches| ==> !Unnamed(rule.lenientMatches[k])
    ensures r.Ok? ==> |r.value| <= |rule.lenientMatches|
  {
    ArgumentWarnings(rule.lenientMatches, activity)
  }

  /** What one argument contributes: its warning when it is flagged. */
  function ArgumentWarning(node: Node, activity: Node): (warnings: seq<string>)
    ensures |warnings| <= 1
    ensures warnings == [] <==> !Flagged(node, activity)
  {
    if Flagged(node, activity) then [Message(GetAttribute(node, "Name"))] else []
  }

  /** The warnings as a plain list: each argument's contribution, in order. */
  function FlaggedWarnings(nodes: seq<Node>, activity: Node): (warnings: seq<string>)
    ensures |warnings| <= |nodes|
  {
    FlatMap((n: Node) => ArgumentWarning(n, activity), nodes)
  }

  /** A successful pass over a non-empty list is its first argument's
      contribution followed by the pass over the rest. */
  lemma ArgumentWarningsCons(nodes: seq<Node>, activity: Node)
    requires |nodes| != 0 && ArgumentWarnings(nodes, activity).Ok?
    ensures ArgumentWarnings(nodes[1..], activity).Ok?
    ensures ArgumentWarnings(nodes, activity).value
         == ArgumentWarning(nodes[0], activity) + ArgumentWarnings(nodes[1..], activity).value
  {
    var argumentName := GetAttribute(nodes[0], "Name");
    if argumentName !in IgnoreArgumentNameList {
      assert !Unnamed(nodes[0]);
      assert GetArgumentDefaultValue(activity, Str(argumentName)).value == DefaultValue(activity, argumentName);
    }
  }

  /** A pass that succeeds reports the plain list of contributions. */
  lemma {:induction false} ArgumentWarningsAreFlaggedWarnings(nodes: seq<Node>, activity: Node)
    requires ArgumentWarnings(nodes, activity).Ok?
    ensures ArgumentWarnings(nodes, activity).value == FlaggedWarnings(nodes, activity)
    decreases |nodes|
  {
    if |nodes| != 0 {
      ArgumentWarningsCons(nodes, activity);
      ArgumentWarningsAreFlaggedWarnings(nodes[1..], activity);
    }
  }

  /** The plain list holds one warning per flagged argument and nothing else. */
  lemma FlaggedWarningsNameFlagged(nodes: seq<Node>, activity: Node)
    ensures forall w :: w in FlaggedWarnings(nodes, activity) <==>
      exists n :: n in nodes && Flagged(n, activity) && w == Message(GetAttribute(n, "Name"))
  {
    FlatMapMembers((n: Node) => ArgumentWarning(n, activity), nodes);
  }

  /** Each warning names a flagged argument, and each flagged argument is named by one. */
  lemma WarningsNameFlaggedArguments(nodes: seq<Node>, activity: Node)
    requires ArgumentWarnings(nodes, activity).Ok?
    ensures forall w :: w in ArgumentWarnings(nodes, activity).value <==>
      exists n :: n in nodes && Flagged(n, activity) && w == Message(GetAttribute(n, "Name"))
  {
    ArgumentWarningsAreFlaggedWarnings(nodes, activity);
    FlaggedWarningsNameFlagged(nodes, activity);
  }

  /** Warnings come out in document order. */
  lemma WarningsAppend(a: seq<Node>, b: seq<Node>, activity: Node)
    requires ArgumentWarnings(a, activity).Ok? && ArgumentWarnings(b, activity).Ok?
    ensures ArgumentWarnings(a + b, activity) == Ok(ArgumentWarnings(a, activity).value + ArgumentWarnings(b, activity).value)
  {
    assert forall k :: 0 <= k < |a + b| ==> (a + b)[k] == if k < |a| then a[k] else b[k - |a|];
    ArgumentWarningsAreFlaggedWarnings(a + b, activity);
    ArgumentWarningsAreFlaggedWarnings(a, activity);
    ArgumentWarningsAreFlaggedWarnings(b, activity);
    FlatMapAppend((n: Node) => ArgumentWarning(n, activity), a, b);
  }

  /** A non-empty default warns, a default that is present but empty does
      not, an ignored name does not whatever its default, and an argument
      without a name makes the lookup throw. */
  lemma DefaultsThatWarn()
    ensures ArgumentWarnings([map["Name" := "Ichi"]], map["x:Class" := "Main", "this:Main.Ichi" := "1"]) == Ok([Message("Ichi")])
    ensures ArgumentWarnings([map["Name" := "Ni"]], map["x:Class" := "Main", "this:Main.Ni" := ""]) == Ok([])
    ensures ArgumentWarnings([map["Name" := "TestOrder"]], map["x:Class" := "Main", "this:Main.TestOrder" := "3"]) == Ok([])
    ensures ArgumentWarnings([map["Alias" := "Yon"]], map["x:Class" := "Main"]) == Throw(TypeError(ArgumentNameMessage))
  {
    assert "this:" + "Main" + "." + "Ichi" == "this:Main.Ichi";
    assert "this:" + "Main" + "." + "Ni" == "this:Main.Ni";
    DefaultValueRoundTrip(map["x:Class" := "Main", "this:Main.Ichi" := "1"], "Main", "Ichi", "1");
    DefaultValueRoundTrip(map["x:Class" := "Main", "this:Main.Ni" := ""], "Main", "Ni", "");
    assert "Ichi" !in IgnoreArgumentNameList;
    var ichi: seq<Node> := [map["Name" := "Ichi"]];
    assert ArgumentWarnings(ichi[1..], map["x:Class" := "Main", "this:Main.Ichi" := "1"]) == Ok([]);
    assert [Message("Ichi")] + [] == [Message("Ichi")];
    assert "Ni" !in IgnoreArgumentNameList;
    assert "TestOrder" == IgnoreArgumentNameList[2];
  }

  /** However many documents the rule is run over, it reports no errors. */
  lemma NeverReportsErrors(xpath: Value, files: seq<Value>)
    requires New(xpath).Ok?
    requires CheckAll(New(xpath).value, files).Ok?
    ensures BaseStyleRule.GetErrors(CheckAll(New(xpath).value, files).value) == []
  {
    ChecksNeverChangeReports(New(xpath).value, files);
  }
}
