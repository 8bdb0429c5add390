/** `WorkflowsShouldNotContainCodeActivities`: activities that run arbitrary
    code are discouraged. Each check looks for four kinds of them, in a fixed
    order, and warns once for every kind that occurs; the matched nodes of
    all kinds are gathered, kind after kind, as the strict matches. */
module WorkflowsShouldNotContainCodeActivities {
  import opened Dom
  import opened Js
  import opened BaseStyleRule
  import opened Seqs

  /** A kind of code activity and the query that finds it. */
  datatype CodeActivityKind = CodeActivityKind(key: string, query: string)

  /** The kinds, in the order they are looked for. */
  const XpathMatchesSpecific: seq<CodeActivityKind> := [
    CodeActivityKind("InvokeCode", "/xaml:Activity//ui:InvokeCode"),
    CodeActivityKind("InvokeComMethod", "/xaml:Activity//ui:InvokeComMethod"),
    CodeActivityKind("InvokeMethod", "/xaml:Activity//xaml:InvokeMethod"),
    CodeActivityKind("InvokePowerShell", "/xaml:Activity//ui:InvokePowerShell")
  ]

  /** The warning for a kind that occurs. */
  function Message(key: string): string {
    key + " activities should not be used unless absolutely necessary."
  }

  /** `new WorkflowsShouldNotContainCodeActivities(xpath)`: the kinds live in
      their own table, so neither inherited query is set. */
  function New(xpath: Value): (r: Result<StyleRule>)
    ensures r.Ok? <==> xpath.Function?
    ensures r.Throw? ==> r.error == TypeError(XpathMessage)
    ensures r.Ok? ==> IsInitial(r.value) && r.value.xpath == xpath.engine
  {
    BaseStyleRule.New(xpath)
  }

  /** The nodes one kind matches. */
  function KindMatches(engine: Engine, kind: CodeActivityKind, doc: Doc): seq<Node> {
    Select(engine, kind.query, doc)
  }

  /** The warning one kind contributes: its message when it occurs. */
  function KindWarning(engine: Engine, kind: CodeActivityKind, doc: Doc): (warnings: seq<string>)
    ensures |warnings| <= 1
    ensures warnings != [] <==> |Select(engine, kind.query, doc)| > 0
  {
    if |Select(engine, kind.query, doc)| > 0 then [Message(kind.key)] else []
  }

  /** Every match of every kind, kind after kind. */
  function AllMatches(engine: Engine, table: seq<CodeActivityKind>, doc: Doc): seq<Node> {
    FlatMap((kind: CodeActivityKind) => KindMatches(engine, kind, doc), table)
  }

  /** The sum of the kinds' match counts. */
  function TotalCount(engine: Engine, table: seq<CodeActivityKind>, doc: Doc): nat {
    if |table| == 0 then 0
    else |Select(engine, table[0].query, doc)| + TotalCount(engine, table[1..], doc)
  }

  /** One warning per kind that occurs, in table order. */
  function CodeWarnings(engine: Engine, table: seq<CodeActivityKind>, doc: Doc): (warnings: seq<string>)
    ensures |warnings| <= |table|
  {
    FlatMap((kind: CodeActivityKind) => KindWarning(engine, kind, doc), table)
  }

  /** The gathered matches number exactly the sum of the kinds' counts. */
  lemma {:induction false} AllMatchesCount(engine: Engine, table: seq<CodeActivityKind>, doc: Doc)
    ensures |AllMatches(engine, table, doc)| == TotalCount(engine, table, doc)
    decreases |table|
  {
    if |table| != 0 {
      AllMatchesCount(engine, table[1..], doc);
    }
  }

  /** A gathered node was matched by some kind, and every kind's matches are gathered. */
  lemma AllMatchesMembership(engine: Engine, table: seq<CodeActivityKind>, doc: Doc)
    ensures forall n :: n in AllMatches(engine, table, doc) <==>
      exists k :: 0 <= k < |table| && n in Select(engine, table[k].query, doc)
  {
    FlatMapMembers((kind: CodeActivityKind) => KindMatches(engine, kind, doc), table);
    forall n
      ensures n in AllMatches(engine, table, doc) <==> exists k :: 0 <= k < |table| && n in Select(engine, table[k].query, doc)
    {
      if n in AllMatches(engine, table, doc) {
        var kind :| kind in table && n in KindMatches(engine, kind, doc);
        var k :| 0 <= k < |table| && table[k] == kind;
      }
      if exists k :: 0 <= k < |table| && n in Select(engine, table[k].query, doc) {
        var k :| 0 <= k < |table| && n in Select(engine, table[k].query, doc);
        assert table[k] in table && n in KindMatches(engine, table[k], doc);
      }
    }
  }

  /** Every warning names one of the kinds, and that kind occurs. */
  lemma CodeWarningsOnlyNameKinds(engine: Engine, table: seq<CodeActivityKind>, doc: Doc)
    ensures forall w :: w in CodeWarnings(engine, table, doc) ==>
      exists k :: 0 <= k < |table| && w == Message(table[k].key) && |Select(engine, table[k].query, doc)| > 0
  {
    FlatMapMembers((kind: CodeActivityKind) => KindWarning(engine, kind, doc), table);
    assert forall kind :: kind in table ==> exists k :: 0 <= k < |table| && table[k] == kind;
  }

  /** A kind whose key is unique in the table is warned about exactly when it occurs. */
  lemma WarningIffKindOccurs(engine: Engine, table: seq<CodeActivityKind>, doc: Doc, i: nat)
    requires i < |table|
    requires forall k :: 0 <= k < |table| && k != i ==> table[k].key != table[i].key
    ensures Message(table[i].key) in CodeWarnings(engine, table, doc) <==> |Select(engine, table[i].query, doc)| > 0
  {
    if Message(table[i].key) in CodeWarnings(engine, table, doc) {
      CodeWarningsOnlyNameKinds(engine, table, doc);
      var k :| 0 <= k < |table| && Message(table[i].key) == Message(table[k].key) && |Select(engine, table[k].query, doc)| > 0;
      MessageInjective(table[i].key, table[k].key);
    }
    if |Select(engine, table[i].query, doc)| > 0 {
      FlatMapMembers((kind: CodeActivityKind) => KindWarning(engine, kind, doc), table);
      assert table[i] in table && Message(table[i].key) in KindWarning(engine, table[i], doc);
    }
  }

  /** Different kinds give different warnings. */
  lemma MessageInjective(a: string, b: string)
    requires Message(a) == Message(b)
    ensures a == b
  {
    assert |a| == |b|;
    assert Message(a)[..|a|] == a;
    assert Message(b)[..|b|] == b;
  }

  /** The keys of the fixed table are pairwise different. */
  lemma DistinctKeys()
    ensures forall i, k :: 0 <= i < k < |XpathMatchesSpecific| ==> XpathMatchesSpecific[i].key != XpathMatchesSpecific[k].key
  {
  }

  /** One more kind adds its matches and, when it occurs, its warning at the end. */
  lemma KindsSnoc(engine: Engine, table: seq<CodeActivityKind>, i: nat, doc: Doc)
    requires i < |table|
    ensures AllMatches(engine, table[..i + 1], doc) == AllMatches(engine, table[..i], doc) + Select(engine, table[i].query, doc)
    ensures CodeWarnings(engine, table[..i + 1], doc)
         == CodeWarnings(engine, table[..i], doc) + (if |Select(engine, table[i].query, doc)| > 0 then [Message(table[i].key)] else [])
  {
    FlatMapSnoc((kind: CodeActivityKind) => KindMatches(engine, kind, doc), table, i);
    FlatMapSnoc((kind: CodeActivityKind) => KindWarning(engine, kind, doc), table, i);
  }

  /** The loop of the check: visit the kinds in order, warning for and
      gathering the matches of each kind that occurs. */
  method VisitKinds(engine: Engine, table: seq<CodeActivityKind>, doc: Doc) returns (strictMatches: seq<Node>, warnings: seq<string>)
    ensures strictMatches == AllMatches(engine, table, doc)
    ensures warnings == CodeWarnings(engine, table, doc)
  {
    strictMatches := [];
    warnings := [];
    var i := 0;
    while i < |table|
      invariant 0 <= i <= |table|
      invariant strictMatches == AllMatches(engine, table[..i], doc)
      invariant warnings == CodeWarnings(engine, table[..i], doc)
    {
      var matches := Select(engine, table[i].query, doc);
      KindsSnoc(engine, table, i, doc);
      if |matches| > 0 {
        warnings := warnings + [Message(table[i].key)];
        strictMatches := strictMatches + matches;
      }
      i := i + 1;
    }
    assert table[..i] == table;
  }

  /** `checkStyleRule(xaml)`: reject anything but a non-empty string, reset
      the strict matches and warnings, then visit the kinds in order. Lenient
      matches and errors are not touched. */
  method CheckStyleRule(rule: StyleRule, xaml: Value) returns (r: Result<StyleRule>)
    ensures r.Ok? <==> xaml.Str? && |xaml.s| != 0
    ensures r.Throw? ==> r.error == TypeError(XamlMessage)
    ensures r.Ok? ==> r.value == rule.(
      strictMatches := AllMatches(rule.xpath, XpathMatchesSpecific, Document(xaml.s)),
      warnings := CodeWarnings(rule.xpath, XpathMatchesSpecific, Document(xaml.s)))
  {
    if !Truthy(xaml) || TypeOf(xaml) != "string" {
      return Throw(TypeError(XamlMessage));
    }
    var doc := ParseFromString(xaml);
    assert doc == Document(xaml.s);
    var strictMatches, warnings := VisitKinds(rule.xpath, XpathMatchesSpecific, doc);
    return Ok(rule.(strictMatches := strictMatches, warnings := warnings));
  }

  /** `getWarnings()`: the stored warnings, at most one per kind. */
  function GetWarnings(rule: StyleRule): seq<string> {
    rule.warnings
  }

  /** After any accepted check there are at most four warnings, the strict
      matches number the sum of the kinds' counts, and a fixed kind is warned
      about exactly when it occurs. */
  lemma CheckReportsKinds(rule: StyleRule, xaml: string, i: nat)
    requires |xaml| != 0 && i < |XpathMatchesSpecific|
    ensures |CodeWarnings(rule.xpath, XpathMatchesSpecific, Document(xaml))| <= 4
    ensures |AllMatches(rule.xpath, XpathMatchesSpecific, Document(xaml))| == TotalCount(rule.xpath, XpathMatchesSpecific, Document(xaml))
    ensures Message(XpathMatchesSpecific[i].key) in CodeWarnings(rule.xpath, XpathMatchesSpecific, Document(xaml))
      <==> |Select(rule.xpath, XpathMatchesSpecific[i].query, Document(xaml))| > 0
  {
    AllMatchesCount(rule.xpath, XpathMatchesSpecific, Document(xaml));
    DistinctKeys();
    WarningIffKindOccurs(rule.xpath, XpathMatchesSpecific, Document(xaml), i);
  }
}
