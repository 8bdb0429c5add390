/** `ImportantActivitiesMustHaveAnnotations`: activities of the kinds listed
    in a configuration table must carry annotations. Each kind brings a
    description and its own lenient and strict queries; a check reports, per
    kind and in table order, how many more nodes the lenient query matched
    than the strict one. The table is supplied by the caller. */
module ImportantActivitiesMustHaveAnnotations {
  import opened Dom
  import opened Js
  import opened Text
  import opened BaseStyleRule
  import opened Seqs

  /** One row of the configuration table. */
  datatype ActivityKind = ActivityKind(description: string, lenientMatch: string, strictMatch: string)

  /** The shared rule state together with the table of kinds, in table order. */
  datatype ImportantActivitiesRule = ImportantActivitiesRule(base: StyleRule, activityMap: seq<ActivityKind>)

  /** `new ImportantActivitiesMustHaveAnnotations(xpath)` with its table. */
  function New(xpath: Value, activityMap: seq<ActivityKind>): (r: Result<ImportantActivitiesRule>)
    ensures r.Ok? <==> xpath.Function?
    ensures r.Throw? ==> r.error == TypeError(XpathMessage)
    ensures r.Ok? ==> IsInitial(r.value.base) && r.value.base.xpath == xpath.engine && r.value.activityMap == activityMap
  {
    var base :- BaseStyleRule.New(xpath);
    Ok(ImportantActivitiesRule(base, activityMap))
  }

  /** The error for a kind with exactly one unannotated node. */
  function SingularMessage(description: string): string {
    description + " are important and must have annotations. 1 does not have an annotation."
  }

  /** The error for a kind with `count` unannotated nodes, the count in decimal. */
  function PluralMessage(description: string, count: nat): string {
    description + " are important and must have annotations. " + DecimalString(count) + " do not have annotations."
  }

  /** How many more nodes the kind's lenient query selects than its strict one. */
  function MatchDifference(engine: Engine, kind: ActivityKind, doc: Doc): int {
    |Select(engine, kind.lenientMatch, doc)| - |Select(engine, kind.strictMatch, doc)|
  }

  /** What a kind with the given difference contributes: the singular
      message for a difference of one, the plural message with the count for
      more, nothing otherwise. */
  function KindErrorOf(description: string, matchDifference: int): (errors: seq<string>)
    ensures |errors| <= 1
    ensures errors == [] <==> matchDifference <= 0
  {
    if matchDifference == 1 then [SingularMessage(description)]
    else if matchDifference > 1 then [PluralMessage(description, matchDifference)]
    else []
  }

  /** What one kind contributes to the errors of a check. */
  function KindError(engine: Engine, kind: ActivityKind, doc: Doc): (errors: seq<string>)
    ensures |errors| <= 1
    ensures errors == [] <==> MatchDifference(engine, kind, doc) <= 0
  {
    KindErrorOf(kind.description, MatchDifference(engine, kind, doc))
  }

  /** Which message a kind gets: the singular one when exactly one node lacks
      an annotation, and the plural one carrying the difference when more do. */
  lemma KindErrorMessages(engine: Engine, kind: ActivityKind, doc: Doc)
    ensures MatchDifference(engine, kind, doc) == 1 ==> KindError(engine, kind, doc) == [SingularMessage(kind.description)]
    ensures MatchDifference(engine, kind, doc) > 1 ==>
      KindError(engine, kind, doc) == [PluralMessage(kind.description, MatchDifference(engine, kind, doc))]
  {
  }

  /** The errors of a whole table: each kind's contribution, in table order. */
  function KindErrors(engine: Engine, table: seq<ActivityKind>, doc: Doc): (errors: seq<string>)
    ensures |errors| <= |table|
  {
    FlatMap((kind: ActivityKind) => KindError(engine, kind, doc), table)
  }

  /** One more kind adds its own contribution at the end. */
  lemma KindErrorsSnoc(engine: Engine, table: seq<ActivityKind>, i: nat, doc: Doc)
    requires i < |table|
    ensures KindErrors(engine, table[..i + 1], doc) == KindErrors(engine, table[..i], doc) + KindError(engine, table[i], doc)
  {
    FlatMapSnoc((kind: ActivityKind) => KindError(engine, kind, doc), table, i);
  }

  /** No error is reported exactly when no kind's lenient query outnumbers its strict one. */
  lemma KindErrorsEmptyIff(engine: Engine, table: seq<ActivityKind>, doc: Doc)
    ensures KindErrors(engine, table, doc) == [] <==>
      forall k :: 0 <= k < |table| ==> MatchDifference(engine, table[k], doc) <= 0
  {
    FlatMapEmpty((kind: ActivityKind) => KindError(engine, kind, doc), table);
  }

  /** One pass of the check's loop: query the kind's lenient and strict
      matches, and push the singular or plural message for their difference. */
  method AddKindError(errors: seq<string>, engine: Engine, value: ActivityKind, doc: Doc) returns (errors': seq<string>)
    ensures errors' == errors + KindError(engine, value, doc)
  {
    var lenientMatches := Select(engine, value.lenientMatch, doc);
    var strictMatches := Select(engine, value.strictMatch, doc);
    var matchDifference := |lenientMatches| - |strictMatches|;
    assert KindError(engine, value, doc) == KindErrorOf(value.description, matchDifference);
    errors' := errors;
    if matchDifference == 1 {
      errors' := errors' + [SingularMessage(value.description)];
    } else if matchDifference > 1 {
      errors' := errors' + [PluralMessage(value.description, matchDifference)];
    }
  }

  /** `checkStyleRule(xaml)`: reject anything but a non-empty string, then
      rebuild the error list from scratch by visiting the table in order.
      Matches are held in locals, so the stored match lists and warnings are
      left as they were, and earlier errors are forgotten. */
  method CheckStyleRule(rule: ImportantActivitiesRule, xaml: Value) returns (r: Result<ImportantActivitiesRule>)
    ensures r.Ok? <==> xaml.Str? && |xaml.s| != 0
    ensures r.Throw? ==> r.error == TypeError(XamlMessage)
    ensures r.Ok? ==> r.value == rule.(base := rule.base.(errors := KindErrors(rule.base.xpath, rule.activityMap, Document(xaml.s))))
    ensures r.Ok? ==> |r.value.base.errors| <= |rule.activityMap|
  {
    if !Truthy(xaml) || TypeOf(xaml) != "string" {
      return Throw(TypeError(XamlMessage));
    }
    var errors: seq<string> := [];
    var doc := ParseFromString(xaml);
    assert doc == Document(xaml.s);
    var table := rule.activityMap;
    var i := 0;
    while i < |table|
      invariant 0 <= i <= |table|
      invariant errors == KindErrors(rule.base.xpath, table[..i], doc)
    {
      KindErrorsSnoc(rule.base.xpath, table, i, doc);
      errors := AddKindError(errors, rule.base.xpath, table[i], doc);
      i := i + 1;
    }
    assert table[..i] == table;
    return Ok(rule.(base := rule.base.(errors := errors)));
  }

  /** The number of nodes without a non-empty annotation. */
  function CountUnannotated(nodes: seq<Node>): (count: nat)
    ensures count <= |nodes|
    ensures count == 0 <==> forall k :: 0 <= k < |nodes| ==> HasNonEmptyAnnotation(nodes[k])
  {
    if |nodes| == 0 then 0
    else
      assert forall k :: 1 <= k < |nodes| ==> nodes[k] == nodes[1..][k - 1];
      (if HasNonEmptyAnnotation(nodes[0]) then 0 else 1) + CountUnannotated(nodes[1..])
  }

  /** Filtering out the unannotated nodes shortens a list by exactly their number. */
  lemma {:induction false} KeepAnnotatedDropsUnannotated(nodes: seq<Node>)
    ensures |nodes| - |KeepAnnotated(nodes)| == CountUnannotated(nodes)
    decreases |nodes|
  {
    if |nodes| != 0 {
      KeepAnnotatedDropsUnannotated(nodes[1..]);
    }
  }

  /** For a kind whose strict query is its lenient path plus the annotation
      predicate, the reported count is the number of unannotated activities,
      and the kind is reported exactly when one of them lacks an annotation. */
  lemma AnnotationKindCountsUnannotated(engine: Engine, description: string, path: string, doc: Doc)
    ensures MatchDifference(engine, ActivityKind(description, path, path + AnnotationPredicate), doc)
      == CountUnannotated(Select(engine, path, doc))
    ensures KindError(engine, ActivityKind(description, path, path + AnnotationPredicate), doc) != []
      <==> exists k :: 0 <= k < |Select(engine, path, doc)| && !HasNonEmptyAnnotation(Select(engine, path, doc)[k])
  {
    SelectAnnotated(engine, path, doc);
    KeepAnnotatedDropsUnannotated(Select(engine, path, doc));
  }

  /** The number the plural message prints is the number of unannotated
      activities: reading its digits back gives that count. */
  lemma PluralMessageCountsUnannotated(engine: Engine, description: string, path: string, doc: Doc)
    requires CountUnannotated(Select(engine, path, doc)) > 1
    ensures KindError(engine, ActivityKind(description, path, path + AnnotationPredicate), doc)
      == [PluralMessage(description, CountUnannotated(Select(engine, path, doc)))]
    ensures DecimalValue(DecimalString(CountUnannotated(Select(engine, path, doc)))) == CountUnannotated(Select(engine, path, doc))
  {
    AnnotationKindCountsUnannotated(engine, description, path, doc);
    KindErrorMessages(engine, ActivityKind(description, path, path + AnnotationPredicate), doc);
    DecimalRoundTrip(CountUnannotated(Select(engine, path, doc)));
  }
}
