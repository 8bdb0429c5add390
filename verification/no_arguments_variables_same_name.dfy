/** `NoArgumentsVariablesSameName`: argument and variable names are
    case-insensitive in UiPath, so no argument may share its name, ignoring
    case, with a variable. The lenient query selects the arguments and the
    strict query the variables. */
module NoArgumentsVariablesSameName {
  import opened Dom
  import opened Js
  import opened Seqs
  import opened Text
  import opened BaseStyleRule

  /** Every argument of the workflow. */
  const ArgumentQuery: string := "/xaml:Activity/x:Members/x:Property"
  /** Every variable of the workflow, at any depth. */
  const VariableQuery: string := "//xaml:Variable"

  /** `new NoArgumentsVariablesSameName(xpath)`. */
  function New(xpath: Value): (r: Result<StyleRule>)
    ensures r.Ok? <==> xpath.Function?
    ensures r.Ok? ==> r.value.xpathMatchAll == Some(ArgumentQuery) && r.value.xpathMatchSpecific == Some(VariableQuery)
    ensures r.Ok? ==> r.value.lenientMatches == [] && r.value.strictMatches == [] && r.value.errors == []
  {
    var base :- BaseStyleRule.New(xpath);
    Ok(base.(xpathMatchAll := Some(ArgumentQuery), xpathMatchSpecific := Some(VariableQuery)))
  }

  /** The error naming an argument and the variable it collides with, each in its original case. */
  function Message(argument: string, variable: string): string {
    "The argument name '" + argument + "' conflicts with a variable of the same name '" + variable + "'."
  }

  /** The position of the first variable whose name equals `name` ignoring case, or -1. */
  function FirstSameName(name: string, variables: seq<string>): (j: int)
    ensures -1 <= j < |variables|
    ensures j == -1 <==> forall k :: 0 <= k < |variables| ==> ToLower(variables[k]) != ToLower(name)
    ensures 0 <= j ==> ToLower(variables[j]) == ToLower(name)
    ensures 0 <= j ==> forall k :: 0 <= k < j ==> ToLower(variables[k]) != ToLower(name)
  {
    if |variables| == 0 then -1
    else if ToLower(variables[0]) == ToLower(name) then 0
    else
      var k := FirstSameName(name, variables[1..]);
      assert forall m :: 1 <= m < |variables| ==> variables[1..][m - 1] == variables[m];
      if k == -1 then -1 else k + 1
  }

  /** What one argument contributes: the error naming it and the first
      variable it collides with, if there is one. */
  function ConflictOf(argument: string, variables: seq<string>): (errors: seq<string>)
    ensures |errors| <= 1
    ensures errors == [] <==> forall k :: 0 <= k < |variables| ==> ToLower(variables[k]) != ToLower(argument)
  {
    var j := FirstSameName(argument, variables);
    if j < 0 then [] else [Message(argument, variables[j])]
  }

  /** The errors the rule is meant to report: each argument's contribution, in argument order. */
  function Conflicts(arguments: seq<string>, variables: seq<string>): (errors: seq<string>)
    ensures |errors| <= |arguments|
  {
    if |arguments| == 0 then []
    else ConflictOf(arguments[0], variables) + Conflicts(arguments[1..], variables)
  }

  /** No error at all exactly when no argument name equals any variable name ignoring case. */
  lemma {:induction false} ConflictsEmptyIff(arguments: seq<string>, variables: seq<string>)
    ensures Conflicts(arguments, variables) == [] <==>
      forall i, k :: 0 <= i < |arguments| && 0 <= k < |variables| ==> ToLower(arguments[i]) != ToLower(variables[k])
    decreases |arguments|
  {
    if |arguments| != 0 {
      ConflictsEmptyIff(arguments[1..], variables);
      assert forall i :: 1 <= i < |arguments| ==> arguments[i] == arguments[1..][i - 1];
    }
  }

  /** Errors follow argument order: conflicts over two argument lists in a
      row are those of the first followed by those of the second. */
  lemma {:induction false} ConflictsAppend(a: seq<string>, b: seq<string>, variables: seq<string>)
    ensures Conflicts(a + b, variables) == Conflicts(a, variables) + Conflicts(b, variables)
    decreases |a|
  {
    if |a| == 0 {
      assert a + b == b;
    } else {
      assert (a + b)[0] == a[0];
      assert (a + b)[1..] == a[1..] + b;
      ConflictsAppend(a[1..], b, variables);
    }
  }

  /** One more argument adds its own contribution at the end. */
  lemma ConflictsSnoc(arguments: seq<string>, i: nat, variables: seq<string>)
    requires i < |arguments|
    ensures Conflicts(arguments[..i + 1], variables) == Conflicts(arguments[..i], variables) + ConflictOf(arguments[i], variables)
  {
    ConflictsAppend(arguments[..i], [arguments[i]], variables);
    assert arguments[..i + 1] == arguments[..i] + [arguments[i]];
  }

  /** `indexOf` on the lower-cased variable list finds the first variable
      with the same name ignoring case. */
  lemma IndexOfLoweredIsFirstSameName(name: string, variables: seq<string>, lowered: seq<string>)
    requires |lowered| == |variables|
    requires forall k :: 0 <= k < |variables| ==> lowered[k] == ToLower(variables[k])
    ensures IndexOf(lowered, ToLower(name)) == FirstSameName(name, variables)
  {
    var i := IndexOf(lowered, ToLower(name));
    if i != -1 {
      assert ToLower(variables[i]) == ToLower(name);
    }
  }

  /** One of `getErrors()`'s collection loops: copy the names in order and
      keep a lower-cased copy alongside, index for index. */
  method CollectNames(nameList: seq<string>) returns (names: seq<string>, lowered: seq<string>)
    ensures names == nameList
    ensures |lowered| == |names|
    ensures forall k :: 0 <= k < |names| ==> lowered[k] == ToLower(names[k])
  {
    names := [];
    lowered := [];
    var i := 0;
    while i < |nameList|
      invariant 0 <= i <= |nameList|
      invariant names == nameList[..i]
      invariant |lowered| == i
      invariant forall k :: 0 <= k < i ==> lowered[k] == ToLower(names[k])
    {
      names := names + [nameList[i]];
      lowered := lowered + [ToLower(nameList[i])];
      i := i + 1;
    }
    assert nameList[..i] == nameList;
  }

  /** `getErrors()` as written: build the argument and variable name lists
      and their lower-cased copies side by side, then look each lower-cased
      argument name up among the lower-cased variable names. */
  method GetErrors(rule: StyleRule) returns (errors: seq<string>)
    ensures errors == Conflicts(AttributeValues("Name", rule.lenientMatches), AttributeValues("Name", rule.strictMatches))
    ensures |errors| <= |rule.lenientMatches|
  {
    errors := [];
    var argumentNameList: seq<string> := [];
    var variableNameList: seq<string> := [];
    var lowerArgumentNameList: seq<string> := [];
    var lowerVariableNameList: seq<string> := [];
    if |rule.lenientMatches| > 0 {
      argumentNameList, lowerArgumentNameList := CollectNames(AttributeValues("Name", rule.lenientMatches));
    }
    if |rule.strictMatches| > 0 {
      variableNameList, lowerVariableNameList := CollectNames(AttributeValues("Name", rule.strictMatches));
    }
    errors := MatchNames(argumentNameList, lowerArgumentNameList, variableNameList, lowerVariableNameList);
  }

  /** The matching loop of `getErrors()`: for each lower-cased argument name,
      `indexOf` among the lower-cased variable names, reporting the original
      spellings of the first hit. */
  method MatchNames(arguments: seq<string>, lowerArguments: seq<string>, variables: seq<string>, lowerVariables: seq<string>)
    returns (errors: seq<string>)
    requires |lowerArguments| == |arguments| && |lowerVariables| == |variables|
    requires forall k :: 0 <= k < |arguments| ==> lowerArguments[k] == ToLower(arguments[k])
    requires forall k :: 0 <= k < |variables| ==> lowerVariables[k] == ToLower(variables[k])
    ensures errors == Conflicts(arguments, variables)
  {
    errors := [];
    var argumentIndex := 0;
    while argumentIndex < |lowerArguments|
      invariant 0 <= argumentIndex <= |lowerArguments|
      invariant errors == Conflicts(arguments[..argumentIndex], variables)
    {
      var argumentName := arguments[argumentIndex];
      var lowerName := lowerArguments[argumentIndex];
      var matchIndex := IndexOf(lowerVariables, lowerName);
      IndexOfLoweredIsFirstSameName(argumentName, variables, lowerVariables);
      assert matchIndex == FirstSameName(argumentName, variables);
      if matchIndex > -1 {
        errors := errors + [Message(argumentName, variables[matchIndex])];
      }
      ConflictsSnoc(arguments, argumentIndex, variables);
      argumentIndex := argumentIndex + 1;
    }
    assert arguments[..argumentIndex] == arguments;
  }

  /** The fixture: an argument "Ichi" beside a variable "ichi" gives exactly
      one error, naming both as written. When several variables collide the
      first is the one reported. */
  lemma SameNameDifferentCase()
    ensures Conflicts(["Ichi"], ["ichi"]) == [Message("Ichi", "ichi")]
    ensures Conflicts(["Ichi"], ["ni", "ICHI", "ichi"]) == [Message("Ichi", "ICHI")]
  {
    assert ToLower("Ichi") == "ichi";
    assert ToLower("ichi") == "ichi";
    assert ToLower("ICHI") == "ichi";
    assert ToLower("ni") != "ichi";
  }
}
