/** The shared skeleton of the document rules (`BaseStyleRule`): an XPath
    processor, an optional lenient and an optional strict query, the nodes
    each last matched, and the warnings and errors the rule reports. A rule
    is an immutable record; `checkStyleRule` is a transition from one record
    to the next. */
module BaseStyleRule {
  import opened Dom
  import opened Js

  datatype StyleRule = StyleRule(
    xpath: Engine,
    xpathMatchAll: Option<string>,
    xpathMatchSpecific: Option<string>,
    lenientMatches: seq<Node>,
    strictMatches: seq<Node>,
    warnings: seq<string>,
    errors: seq<string>)

  const XpathMessage: string := "xpath parameter is required and must be a function"
  const XamlMessage: string := "xaml parameter is required and must be a string"
  const NameMessage: string := "name parameter is required and must be a string"
  const NodesMessage: string := "nodes parameter is required and must be an array"

  /** The state a constructor leaves: no queries, nothing matched, nothing reported. */
  predicate IsInitial(rule: StyleRule) {
    && rule.xpathMatchAll.None?
    && rule.xpathMatchSpecific.None?
    && rule.lenientMatches == []
    && rule.strictMatches == []
    && rule.warnings == []
    && rule.errors == []
  }

  /** `new BaseStyleRule(xpath)`. */
  function New(xpath: Value): (r: Result<StyleRule>)
    ensures r.Ok? <==> xpath.Function?
    ensures r.Throw? ==> r.error == TypeError(XpathMessage)
    ensures r.Ok? ==> r.value.xpath == xpath.engine && IsInitial(r.value)
  {
    var engine :- RequireFunction(xpath, XpathMessage);
    Ok(StyleRule(engine, None, None, [], [], [], []))
  }

  /** `checkStyleRule(xaml)`: reject anything but a non-empty string, parse it,
      and re-run each query that is set; a match list whose query is unset
      keeps whatever it held. Queries, warnings and errors are never touched. */
  function CheckStyleRule(rule: StyleRule, xaml: Value): (r: Result<StyleRule>)
    ensures r.Ok? <==> xaml.Str? && |xaml.s| != 0
    ensures r.Throw? ==> r.error == TypeError(XamlMessage)
    ensures r.Ok? ==>
      && r.value.xpath == rule.xpath
      && r.value.xpathMatchAll == rule.xpathMatchAll
      && r.value.xpathMatchSpecific == rule.xpathMatchSpecific
      && r.value.warnings == rule.warnings
      && r.value.errors == rule.errors
    ensures r.Ok? && rule.xpathMatchAll.None? ==> r.value.lenientMatches == rule.lenientMatches
    ensures r.Ok? && rule.xpathMatchAll.Some? ==>
      r.value.lenientMatches == Select(rule.xpath, rule.xpathMatchAll.value, Document(xaml.s))
    ensures r.Ok? && rule.xpathMatchSpecific.None? ==> r.value.strictMatches == rule.strictMatches
    ensures r.Ok? && rule.xpathMatchSpecific.Some? ==>
      r.value.strictMatches == Select(rule.xpath, rule.xpathMatchSpecific.value, Document(xaml.s))
  {
    var _ :- RequireString(xaml, XamlMessage);
    var doc := ParseFromString(xaml);
    var lenient := if rule.xpathMatchAll.Some? then Select(rule.xpath, rule.xpathMatchAll.value, doc) else rule.lenientMatches;
    var strict := if rule.xpathMatchSpecific.Some? then Select(rule.xpath, rule.xpathMatchSpecific.value, doc) else rule.strictMatches;
    Ok(rule.(lenientMatches := lenient, strictMatches := strict))
  }

  function GetLenientMatches(rule: StyleRule): seq<Node> {
    rule.lenientMatches
  }

  function GetStrictMatches(rule: StyleRule): seq<Node> {
    rule.strictMatches
  }

  function GetWarnings(rule: StyleRule): seq<string> {
    rule.warnings
  }

  function GetErrors(rule: StyleRule): seq<string> {
    rule.errors
  }

  /** With neither query set, checking a document changes nothing. */
  lemma CheckWithoutQueriesChangesNothing(rule: StyleRule, xaml: Value)
    requires rule.xpathMatchAll.None? && rule.xpathMatchSpecific.None?
    requires CheckStyleRule(rule, xaml).Ok?
    ensures CheckStyleRule(rule, xaml).value == rule
  {
  }

  /** With both queries set, the state after a check does not depend on what
      earlier checks matched: results never carry over from file to file. */
  lemma CheckForgetsEarlierMatches(rule: StyleRule, other: StyleRule, xaml: Value)
    requires rule.xpathMatchAll.Some? && rule.xpathMatchSpecific.Some?
    requires other == rule.(lenientMatches := other.lenientMatches, strictMatches := other.strictMatches)
    ensures CheckStyleRule(rule, xaml) == CheckStyleRule(other, xaml)
  {
  }

  /** Checking the same document twice leaves the rule as checking it once. */
  lemma CheckIdempotent(rule: StyleRule, xaml: Value)
    requires CheckStyleRule(rule, xaml).Ok?
    ensures CheckStyleRule(CheckStyleRule(rule, xaml).value, xaml) == CheckStyleRule(rule, xaml)
  {
  }

  /** Checking each of `files` in turn, stopping at the first rejected one. */
  function CheckAll(rule: StyleRule, files: seq<Value>): Result<StyleRule>
    decreases |files|
  {
    if |files| == 0 then Ok(rule)
    else
      var next :- CheckStyleRule(rule, files[0]);
      CheckAll(next, files[1..])
  }

  /** However many documents a rule is run over, the getters still answer the
      warnings and errors it was built with and its queries stay as they were. */
  lemma {:induction false} ChecksNeverChangeReports(rule: StyleRule, files: seq<Value>)
    requires CheckAll(rule, files).Ok?
    ensures GetWarnings(CheckAll(rule, files).value) == GetWarnings(rule)
    ensures GetErrors(CheckAll(rule, files).value) == GetErrors(rule)
    ensures CheckAll(rule, files).value.xpathMatchAll == rule.xpathMatchAll
    ensures CheckAll(rule, files).value.xpathMatchSpecific == rule.xpathMatchSpecific
    decreases |files|
  {
    if |files| != 0 {
      ChecksNeverChangeReports(CheckStyleRule(rule, files[0]).value, files[1..]);
    }
  }

  /** The values of attribute `name` on the nodes that carry it, in node
      order; nodes without it are skipped, not given "". */
  function AttributeValues(name: string, nodes: seq<Node>): (values: seq<string>)
    ensures |values| <= |nodes|
    ensures values == [] <==> forall n :: n in nodes ==> name !in n
    ensures forall v :: v in values <==> exists n :: n in nodes && name in n && n[name] == v
  {
    if |nodes| == 0 then []
    else
      var rest := AttributeValues(name, nodes[1..]);
      assert forall n :: n in nodes <==> n == nodes[0] || n in nodes[1..];
      if name in nodes[0] then [nodes[0][name]] + rest else rest
  }

  /** Values come out in node order: the values over two node lists in a row
      are the values over the first followed by those over the second. */
  lemma {:induction false} AttributeValuesAppend(name: string, a: seq<Node>, b: seq<Node>)
    ensures AttributeValues(name, a + b) == AttributeValues(name, a) + AttributeValues(name, b)
    decreases |a|
  {
    if |a| != 0 {
      assert (a + b)[1..] == a[1..] + b;
      AttributeValuesAppend(name, a[1..], b);
    } else {
      assert a + b == b;
    }
  }

  /** Every node carries the attribute exactly when there is one value per node. */
  lemma {:induction false} AttributeValuesCount(name: string, nodes: seq<Node>)
    ensures |AttributeValues(name, nodes)| == |nodes| <==> forall n :: n in nodes ==> name in n
    decreases |nodes|
  {
    if |nodes| != 0 {
      AttributeValuesCount(name, nodes[1..]);
      assert forall n :: n in nodes <==> n == nodes[0] || n in nodes[1..];
    }
  }

  /** `getAttributeValues(name, nodes)`: a non-empty string name and an array
      of nodes are required; the answer is `AttributeValues`. */
  function GetAttributeValues(name: Value, nodes: Value): (r: Result<seq<string>>)
    ensures r.Ok? <==> name.Str? && |name.s| != 0 && nodes.Array?
    ensures r.Ok? ==> |r.value| <= |nodes.items|
    ensures r.Ok? ==> (r.value == [] <==> forall n :: n in nodes.items ==> name.s !in n)
    ensures r.Ok? ==> forall v :: v in r.value <==> exists n :: n in nodes.items && name.s in n && n[name.s] == v
  {
    var attribute :- RequireString(name, NameMessage);
    if !nodes.Array? then Throw(TypeError(NodesMessage))
    else Ok(AttributeValues(attribute, nodes.items))
  }
}
