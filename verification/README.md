# UiPath XAML style rules in Dafny

This project models the rule-evaluation layer of a linter for UiPath
workflow files (XAML). Each style rule holds an XPath processor, a lenient
query and a strict query, the nodes each last matched, and the warnings and
errors it reports. `checkStyleRule(xaml)` moves a rule from one state to the
next, and `getErrors` / `getWarnings` read the state. Here a rule is an
immutable record, `checkStyleRule` is a function or method returning the
next record, and a thrown `TypeError` is the `Throw` case of a `Result`.

The XML parser and the XPath engine are not reimplemented. A document is
known by the text it was parsed from. A node is its attribute map. The XPath
processor is an arbitrary function from a query and a document to an ordered
sequence of nodes. It is carried in the rule state, so every property holds
for every processor. The annotation rules build their strict query as their
lenient path plus the predicate "has a non-empty
`sap2010:Annotation.AnnotationText`". `Dom.Select` gives that one predicate
its meaning: the strict selection is the annotated part of the lenient one,
in order. "Strict matches are a subsequence of the lenient matches" is
therefore proved from the queries, not assumed.

Modules, one per source file plus shared layers:

- `Seqs`, `Text`, `Js`, `Dom` cover the JavaScript and library behaviour the
  rules use. `Seqs` has subsequences, `indexOf`, `lastIndexOf` and prefix and
  suffix tests. `Text` has ASCII case mapping and `%d` formatting. `Js` has
  truthiness, `typeof`, strict equality and the argument guards. `Dom` has
  attribute access and the annotation predicate.
- `BaseStyleRule` is the shared rule record and `getAttributeValues`.
  `AnnotationPresence` holds what the three "lenient minus strict" rules share.
- One module per rule: `ArgumentsMustHaveAnnotations`,
  `MainSequencesMustHaveAnnotations`, `MainFlowchartsHaveAnnotations`,
  `VariablesMustHaveAnnotations`, `PublicWorkflowsMustHaveAnnotations`,
  `ArgumentsMustStartUpperCase` and `VariablesMustStartLowerCase` (these two
  share `NamingConvention`), `NoArgumentsVariablesSameName`,
  `WarnVariablesWithDefaultValues`, `WarnArgumentsWithDefaultValues`,
  `ImportantActivitiesMustHaveAnnotations`,
  `WorkflowsShouldNotContainCodeActivities`.
- `LegacyArgumentsMustHaveAnnotations` is the older standalone rule in
  `app/ArgumentsMustHaveAnnotations.js`.
- `StyleRuleFactory` has the namespace table and the workflow-file filter.

Where the code and its written description disagree, the model follows the
code:

- `ArgumentsMustHaveAnnotations.getErrors` reports one generic error, not
  one error per unannotated argument.
- `BaseStyleRule.checkStyleRule` keeps the old match list when the query is
  unset. It does not reset the list.
- Every input guard `!v || typeof v !== T` also rejects the empty string.
- `WarnVariablesWithDefaultValues` warns as soon as a `Default` attribute is
  present, even when its value is empty.
- `PublicWorkflowsMustHaveAnnotations` only checks that a non-empty root
  annotation exists. It does not decode the annotation.
- Guard failures throw `TypeError`.
- The namespace table binds three prefixes: `xaml`, `x` and `sap2010`.

## Model

| member | source | states |
|---|---|---|
| Seqs.IndexOf | app/rules/NoArgumentsVariablesSameName.js:69 | `indexOf` gives the first index holding the value, or -1 exactly when the value is absent |
| Seqs.LastIndexOf | app/StyleRuleFactory.js:63 | the last index holding the character (as `path.extname` uses it), or -1 exactly when the character is absent |
| Text.ToLower | app/rules/NoArgumentsVariablesSameName.js:50-53 | lower-casing keeps the length and lower-cases each character in place |
| Text.CaselessCharacters | app/rules/ArgumentsMustStartUpperCase.js:68-73 | upper- and lower-casing differ exactly on letters; on any other character both are the identity |
| Text.DecimalString | app/rules/ImportantActivitiesMustHaveAnnotations.js:66-73 | `%d` writes a non-empty run of decimal digits with no leading zero |
| Text.DecimalRoundTrip | app/rules/ImportantActivitiesMustHaveAnnotations.js:66-73 | reading back the digits `%d` writes gives the count again |
| Js.RequireString | app/rules/BaseStyleRule.js:40-42 | the string guard accepts exactly the non-empty strings and otherwise throws `TypeError` with the given message |
| Js.RequireFunction | app/rules/BaseStyleRule.js:16-18 | the function guard accepts exactly functions and otherwise throws `TypeError` with the given message |
| Js.ParseFromString | app/rules/BaseStyleRule.js:45 | parsing yields the document of a non-empty string and no document for anything else |
| Dom.KeepAnnotated | app/rules/ArgumentsMustHaveAnnotations.js:19 | the annotation predicate keeps, in order, exactly the nodes with a non-empty annotation; it keeps all of them only when every node is annotated |
| Dom.KeepAnnotatedIdempotent | app/rules/ArgumentsMustHaveAnnotations.js:19 | applying the annotation predicate twice selects what applying it once selects |
| Dom.SelectAnnotated | app/rules/ArgumentsMustHaveAnnotations.js:18-19 | a path plus the annotation predicate selects the annotated part of the path's selection, as an ordered subsequence |
| BaseStyleRule.New | app/rules/BaseStyleRule.js:15-29 | construction succeeds exactly for a function; it then stores that function and leaves both queries unset and all four lists empty; otherwise it throws the xpath `TypeError` |
| BaseStyleRule.CheckStyleRule | app/rules/BaseStyleRule.js:38-54 | only a non-empty string is accepted; each list whose query is set becomes that query's selection, and each list whose query is unset keeps its old contents; queries, warnings and errors are unchanged |
| BaseStyleRule.CheckWithoutQueriesChangesNothing | app/rules/BaseStyleRule.js:48-53 | with both queries unset, an accepted check leaves the rule exactly as it was |
| BaseStyleRule.CheckForgetsEarlierMatches | app/rules/BaseStyleRule.js:48-53 | with both queries set, the state after a check does not depend on earlier matches |
| BaseStyleRule.CheckIdempotent | app/rules/BaseStyleRule.js:45-53 | checking the same document twice gives the state that checking it once gives |
| BaseStyleRule.ChecksNeverChangeReports | app/rules/BaseStyleRule.js:38-94 | after any run of checks the getters return the warnings and errors the rule started with, and the queries are unchanged |
| BaseStyleRule.AttributeValues | test/rules/TestBaseStyleRule.js:187-229 | the values of the attribute on the nodes that carry it; the result is empty exactly when no node carries it, and a value is present exactly when some node carries it |
| BaseStyleRule.AttributeValuesAppend | test/rules/TestBaseStyleRule.js:187-211 | values come out in node order: the values over two lists in a row are the first list's values, then the second's |
| BaseStyleRule.AttributeValuesCount | test/rules/TestBaseStyleRule.js:187-211 | there is one value per node exactly when every node carries the attribute |
| BaseStyleRule.GetAttributeValues | test/rules/TestBaseStyleRule.js:155-229 | the call succeeds exactly for a non-empty string name and an array of nodes; it then gives at most one value per node, none exactly when no node carries the name |
| AnnotationPresence.NewAnnotationRule | app/rules/ArgumentsMustHaveAnnotations.js:15-20 | a constructed annotation rule pairs the path with the path plus the predicate, and has nothing matched or reported |
| AnnotationPresence.CheckPreservesInvariant | app/rules/BaseStyleRule.js:48-53 | after every accepted check, the strict matches are exactly the annotated lenient matches, in order |
| AnnotationPresence.MissingAnnotationErrors | app/rules/ArgumentsMustHaveAnnotations.js:31-37 | the single message when the lenient count exceeds the strict count, otherwise nothing |
| AnnotationPresence.ErrorIffUnannotated | app/rules/ArgumentsMustHaveAnnotations.js:28-39 | under the invariant, the error appears exactly when some lenient match lacks a non-empty annotation |
| ArgumentsMustHaveAnnotations.New | app/rules/ArgumentsMustHaveAnnotations.js:15-20 | the argument queries are set, strict being lenient plus the predicate; the rule starts valid and empty |
| ArgumentsMustHaveAnnotations.GetErrors | app/rules/ArgumentsMustHaveAnnotations.js:28-39 | exactly ["Arguments without annotations are not allowed."] when more arguments matched than annotated ones, else [] |
| ArgumentsMustHaveAnnotations.CheckKeepsStrictWithinLenient | app/rules/ArgumentsMustHaveAnnotations.js:18-19 | after a check the strict matches are an ordered part of the lenient matches, and there are no warnings |
| ArgumentsMustHaveAnnotations.ErrorIffUnannotatedArgument | app/rules/ArgumentsMustHaveAnnotations.js:31-37 | the error is reported exactly when some argument lacks a non-empty annotation |
| ArgumentsMustHaveAnnotations.FreshRuleReportsNothing | test/rules/TestArgumentsMustHaveAnnotations.js:285-296 | a rule that has checked nothing has no errors and no warnings |
| ArgumentsMustHaveAnnotations.ErrorsDependOnLastDocumentOnly | app/rules/ArgumentsMustHaveAnnotations.js:28-39 | the errors after a check depend on that document alone |
| MainSequencesMustHaveAnnotations.New | app/rules/MainSequencesMustHaveAnnotations.js:18-23 | the root-sequence queries are set, strict being lenient plus the predicate; the rule starts valid and empty |
| MainSequencesMustHaveAnnotations.GetErrors | app/rules/MainSequencesMustHaveAnnotations.js:31-42 | exactly ["Main sequences without annotations are not allowed."] when lenient outnumbers strict, else [] |
| MainSequencesMustHaveAnnotations.CheckKeepsStrictWithinLenient | app/rules/MainSequencesMustHaveAnnotations.js:21-22 | after a check the strict matches are an ordered part of the lenient matches, and there are no warnings |
| MainSequencesMustHaveAnnotations.ErrorIffUnannotatedSequence | app/rules/MainSequencesMustHaveAnnotations.js:34-40 | the error is reported exactly when the main sequence lacks a non-empty annotation |
| MainFlowchartsHaveAnnotations.New | app/rules/MainFlowchartsMustHaveAnnotations.js:15-20 | the root-flowchart queries are set, strict being lenient plus the predicate; the rule starts valid and empty |
| MainFlowchartsHaveAnnotations.GetErrors | app/rules/MainFlowchartsMustHaveAnnotations.js:28-39 | exactly ["Main flowcharts without annotations are not allowed."] when lenient outnumbers strict, else [] |
| MainFlowchartsHaveAnnotations.CheckKeepsStrictWithinLenient | app/rules/MainFlowchartsMustHaveAnnotations.js:18-19 | after a check the strict matches are an ordered part of the lenient matches, and there are no warnings |
| MainFlowchartsHaveAnnotations.FixtureOutcomes | test/TestMainFlowchartsMustHaveAnnotations.js:230-279 | one annotated main flowchart gives no error; one unannotated flowchart gives 1 lenient match, 0 strict matches and the one error; there are never warnings |
| VariablesMustHaveAnnotations.New | app/rules/VariablesMustHaveAnnotations.js:16-27 | construction succeeds exactly for a function; the variable queries are set and both lists are empty |
| VariablesMustHaveAnnotations.CheckStyleRule | app/rules/VariablesMustHaveAnnotations.js:36-48 | only a non-empty string is accepted; both lists are replaced by the selections of the two queries, whatever they held |
| VariablesMustHaveAnnotations.GetWarnings | app/rules/VariablesMustHaveAnnotations.js:76-78 | this rule never warns |
| VariablesMustHaveAnnotations.GetErrors | app/rules/VariablesMustHaveAnnotations.js:86-97 | the single message exactly when lenient outnumbers strict |
| VariablesMustHaveAnnotations.CheckPreservesValid | app/rules/VariablesMustHaveAnnotations.js:46-47 | every check keeps strict equal to the annotated lenient matches, and the result does not depend on the replaced lists |
| VariablesMustHaveAnnotations.ErrorIffUnannotatedVariable | app/rules/VariablesMustHaveAnnotations.js:89-95 | the error is reported exactly when some variable lacks a non-empty annotation |
| PublicWorkflowsMustHaveAnnotations.New | app/rules/PublicWorkflowsMustHaveAnnotations.js:16-25 | construction succeeds exactly for a function; only the strict query is set, and nothing is matched |
| PublicWorkflowsMustHaveAnnotations.CheckStyleRule | app/rules/PublicWorkflowsMustHaveAnnotations.js:34-45 | only a non-empty string is accepted; the strict matches become the strict query's selection |
| PublicWorkflowsMustHaveAnnotations.GetLenientMatches | app/rules/PublicWorkflowsMustHaveAnnotations.js:53-55 | there are never lenient matches |
| PublicWorkflowsMustHaveAnnotations.GetWarnings | app/rules/PublicWorkflowsMustHaveAnnotations.js:73-75 | this rule never warns |
| PublicWorkflowsMustHaveAnnotations.GetErrors | app/rules/PublicWorkflowsMustHaveAnnotations.js:83-93 | the single message exactly when the strict query matched nothing |
| PublicWorkflowsMustHaveAnnotations.FreshRuleReportsMissingAnnotation | app/rules/PublicWorkflowsMustHaveAnnotations.js:83-93 | a rule that has checked nothing already reports the error |
| PublicWorkflowsMustHaveAnnotations.ErrorIffNothingSelected | app/rules/PublicWorkflowsMustHaveAnnotations.js:34-45 | after any accepted check, the error is reported exactly when the strict query selects nothing in that document, whatever earlier checks matched |
| LegacyArgumentsMustHaveAnnotations.New | app/ArgumentsMustHaveAnnotations.js:16-24 | the constructor accepts any value, sets the lenient query to every `Activity`'s arguments and the strict query to that plus the predicate, and starts empty |
| LegacyArgumentsMustHaveAnnotations.GuardOnlyRejectsFalsy | app/ArgumentsMustHaveAnnotations.js:33-35 | the guard as written rejects exactly the falsy values, so a truthy number or object gets through |
| LegacyArgumentsMustHaveAnnotations.CheckStyleRule | app/ArgumentsMustHaveAnnotations.js:32-43 | a call succeeds exactly for a truthy input and a function processor, and replaces both lists; a falsy input throws the xaml error, and a stored non-function throws "is not a function" |
| LegacyArgumentsMustHaveAnnotations.StrictWithinLenient | app/ArgumentsMustHaveAnnotations.js:19-20 | from construction on, over any run of checks, the strict matches are the annotated lenient matches, in order |
| LegacyArgumentsMustHaveAnnotations.CheckAllKeepsStrictAnnotated | app/ArgumentsMustHaveAnnotations.js:41-42 | replacing both lists on each check preserves "strict is the annotated part of lenient" |
| NamingConvention.HasCaseMeansLetterOfCase | app/rules/ArgumentsMustStartUpperCase.js:70-71 | the "equals its own upper case and differs from its lower case" test holds exactly for the letters of that case |
| NamingConvention.IsFirstCharOfCase | app/rules/ArgumentsMustStartUpperCase.js:62-76 | the test succeeds exactly for a non-empty string; it answers whether the first character is a letter of the wanted case |
| NamingConvention.NameErrors | app/rules/ArgumentsMustStartUpperCase.js:41-47 | the loop over names succeeds exactly when no name is empty, and gives at most one error per name |
| NamingConvention.NameError | app/rules/ArgumentsMustStartUpperCase.js:42-46 | one name gives at most one error, and gives one exactly when it is non-empty and its first character is not of the wanted case |
| NamingConvention.NameErrorsCons | app/rules/ArgumentsMustStartUpperCase.js:41-47 | a check that succeeds over a non-empty list gives the first name's error, then the check of the rest |
| NamingConvention.NameErrorsAreOffenderErrors | app/rules/ArgumentsMustStartUpperCase.js:41-47 | a check that succeeds gives each name's own error, in name order |
| NamingConvention.NameErrorsReportOffenders | app/rules/ArgumentsMustStartUpperCase.js:41-47 | every offending name is reported, and every error is the formatted message of an offending name |
| NamingConvention.NameErrorsAppend | app/rules/ArgumentsMustStartUpperCase.js:41-47 | errors come out in name order |
| NamingConvention.NoNameHasBothCases | app/rules/VariablesMustStartLowerCase.js:70-71 | no value passes both the upper-case test and the lower-case test |
| ArgumentsMustStartUpperCase.New | app/rules/ArgumentsMustStartUpperCase.js:19-23 | only the argument query is set, and the rule starts empty |
| ArgumentsMustStartUpperCase.IsFirstCharUpperCase | app/rules/ArgumentsMustStartUpperCase.js:62-76 | the call succeeds exactly for a non-empty string; it is true exactly for a leading upper-case letter |
| ArgumentsMustStartUpperCase.GetErrors | app/rules/ArgumentsMustStartUpperCase.js:31-52 | no arguments gives []; the call succeeds exactly when no argument's name is empty; at most one error per argument |
| ArgumentsMustStartUpperCase.ErrorsNameOffendingArguments | app/rules/ArgumentsMustStartUpperCase.js:36-49 | each argument whose name does not start upper-case is reported by name, and nothing else is |
| ArgumentsMustStartUpperCase.CaseExamples | app/rules/ArgumentsMustStartUpperCase.js:62-76 | "Ichi" passes; "ichi" and "1st" fail; "" throws |
| VariablesMustStartLowerCase.New | app/rules/VariablesMustStartLowerCase.js:19-23 | only the variable query is set, and the rule starts empty |
| VariablesMustStartLowerCase.IsFirstCharLowerCase | app/rules/VariablesMustStartLowerCase.js:62-76 | the call succeeds exactly for a non-empty string; it is true exactly for a leading lower-case letter |
| VariablesMustStartLowerCase.GetErrors | app/rules/VariablesMustStartLowerCase.js:31-52 | no variables gives []; the call succeeds exactly when no variable's name is empty; at most one error per variable |
| VariablesMustStartLowerCase.ErrorsNameOffendingVariables | app/rules/VariablesMustStartLowerCase.js:36-49 | each variable whose name does not start lower-case is reported by name, and nothing else is |
| VariablesMustStartLowerCase.CaseExamples | test/rules/TestVariablesMustStartLowerCase.js:366-415 | "thisIsValid" passes; "ThisIsInValid" and "1st" fail; "" throws |
| VariablesMustStartLowerCase.NoNameStartsWithBothCases | app/rules/VariablesMustStartLowerCase.js:70-71 | no name passes both this rule's test and the argument rule's test |
| NoArgumentsVariablesSameName.New | app/rules/NoArgumentsVariablesSameName.js:20-28 | lenient selects the arguments and strict selects the variables |
| NoArgumentsVariablesSameName.FirstSameName | app/rules/NoArgumentsVariablesSameName.js:67-71 | the first variable equal to the name ignoring case, or -1 exactly when there is none |
| NoArgumentsVariablesSameName.ConflictOf | app/rules/NoArgumentsVariablesSameName.js:67-81 | one argument gives at most one error, and none exactly when no variable has its name ignoring case |
| NoArgumentsVariablesSameName.Conflicts | app/rules/NoArgumentsVariablesSameName.js:66-82 | at most one error per argument |
| NoArgumentsVariablesSameName.ConflictsEmptyIff | app/rules/NoArgumentsVariablesSameName.js:66-82 | there is no error exactly when no argument name equals a variable name ignoring case |
| NoArgumentsVariablesSameName.ConflictsAppend | app/rules/NoArgumentsVariablesSameName.js:66-82 | errors come out in argument order |
| NoArgumentsVariablesSameName.IndexOfLoweredIsFirstSameName | app/rules/NoArgumentsVariablesSameName.js:60-69 | `indexOf` over the lower-cased variable names finds the first case-insensitive match |
| NoArgumentsVariablesSameName.CollectNames | app/rules/NoArgumentsVariablesSameName.js:46-64 | the collection loop keeps the names in order, with a lower-cased copy at each index |
| NoArgumentsVariablesSameName.MatchNames | app/rules/NoArgumentsVariablesSameName.js:66-82 | the matching loop produces exactly the reference conflicts |
| NoArgumentsVariablesSameName.GetErrors | app/rules/NoArgumentsVariablesSameName.js:36-85 | `getErrors` equals the reference conflicts over the argument and variable names, with at most one error per argument |
| NoArgumentsVariablesSameName.SameNameDifferentCase | test/rules/TestNoArgumentsVariablesSameName.js:315-334 | argument "Ichi" with variable "ichi" gives exactly one error naming both; with several matches the first is named |
| WarnVariablesWithDefaultValues.New | app/rules/WarnVariablesWithDefaultValues.js:20-30 | only the variable query is set; no warnings or errors |
| WarnVariablesWithDefaultValues.DefaultValueWarnings | app/rules/WarnVariablesWithDefaultValues.js:44-63 | at most one warning per variable, and none exactly when no variable is both un-ignored and carries `Default` |
| WarnVariablesWithDefaultValues.GetWarnings | app/rules/WarnVariablesWithDefaultValues.js:38-66 | the warnings of the current lenient matches: empty exactly when none is flagged |
| WarnVariablesWithDefaultValues.WarningsNameFlaggedVariables | app/rules/WarnVariablesWithDefaultValues.js:48-60 | a warning exists exactly for each flagged variable, naming it |
| WarnVariablesWithDefaultValues.WarningsAppend | app/rules/WarnVariablesWithDefaultValues.js:45-62 | warnings come out in document order |
| WarnVariablesWithDefaultValues.DefaultPresenceDecides | app/rules/WarnVariablesWithDefaultValues.js:51-53 | an empty `Default` still warns; an ignored name does not; the ignore list is case-sensitive; no `Default` means no warning |
| WarnVariablesWithDefaultValues.NeverReportsErrors | test/rules/TestWarnVariablesWithDefaultValues.js:224-240 | after any run of checks the rule reports no errors |
| WarnArgumentsWithDefaultValues.New | app/rules/WarnArgumentsWithDefaultValues.js:26-39 | only the argument query is set; no warnings or errors |
| WarnArgumentsWithDefaultValues.GetClassName | app/rules/WarnArgumentsWithDefaultValues.js:89-98 | given the root element, the class is its `x:Class`, or "" when it is absent |
| WarnArgumentsWithDefaultValues.GetArgumentDefaultValue | app/rules/WarnArgumentsWithDefaultValues.js:111-131 | given the root element, the call succeeds exactly for a non-empty string name; it answers the default stored for that name, and a non-empty answer means the attribute exists |
| WarnArgumentsWithDefaultValues.DefaultValueRoundTrip | app/rules/WarnArgumentsWithDefaultValues.js:121-130 | a default written under "this:" + class + "." + name is the value read back |
| WarnArgumentsWithDefaultValues.DefaultOfOtherClassIgnored | app/rules/WarnArgumentsWithDefaultValues.js:121-130 | a default written under another class's name is not found |
| WarnArgumentsWithDefaultValues.ArgumentWarnings | app/rules/WarnArgumentsWithDefaultValues.js:53-75 | given the root element, the loop succeeds exactly when no argument's name is empty, and gives at most one warning per argument |
| WarnArgumentsWithDefaultValues.GetWarnings | app/rules/WarnArgumentsWithDefaultValues.js:47-78 | no arguments gives []; otherwise as the loop |
| WarnArgumentsWithDefaultValues.ArgumentWarning | app/rules/WarnArgumentsWithDefaultValues.js:57-72 | one argument gives at most one warning, and gives one exactly when its name is not ignored and its default is non-empty |
| WarnArgumentsWithDefaultValues.ArgumentWarningsCons | app/rules/WarnArgumentsWithDefaultValues.js:54-74 | a loop that succeeds over a non-empty list gives the first argument's warning, then the loop over the rest |
| WarnArgumentsWithDefaultValues.ArgumentWarningsAreFlaggedWarnings | app/rules/WarnArgumentsWithDefaultValues.js:54-74 | a loop that succeeds gives each argument's own warning, in document order |
| WarnArgumentsWithDefaultValues.FlaggedWarningsNameFlagged | app/rules/WarnArgumentsWithDefaultValues.js:57-72 | the arguments' own warnings are exactly one per flagged argument, naming it |
| WarnArgumentsWithDefaultValues.WarningsNameFlaggedArguments | app/rules/WarnArgumentsWithDefaultValues.js:56-72 | a warning exists exactly for each un-ignored argument with a non-empty default, naming it |
| WarnArgumentsWithDefaultValues.WarningsAppend | app/rules/WarnArgumentsWithDefaultValues.js:54-74 | warnings come out in document order |
| WarnArgumentsWithDefaultValues.DefaultsThatWarn | app/rules/WarnArgumentsWithDefaultValues.js:60-72 | a non-empty default warns; a present but empty default does not; an ignored name does not; an unnamed argument throws |
| WarnArgumentsWithDefaultValues.NeverReportsErrors | test/rules/TestWarnArgumentsWithDefaultValues.js:269-333 | after any run of checks the rule reports no errors |
| ImportantActivitiesMustHaveAnnotations.New | app/rules/ImportantActivitiesMustHaveAnnotations.js:22-26 | the rule starts empty and holds the given table |
| ImportantActivitiesMustHaveAnnotations.KindErrorOf | app/rules/ImportantActivitiesMustHaveAnnotations.js:58-74 | a positive difference gives exactly one error; a difference of zero or less gives none |
| ImportantActivitiesMustHaveAnnotations.KindError | app/rules/ImportantActivitiesMustHaveAnnotations.js:54-74 | a kind gives at most one error, and none exactly when its lenient count does not exceed its strict count |
| ImportantActivitiesMustHaveAnnotations.KindErrorMessages | app/rules/ImportantActivitiesMustHaveAnnotations.js:58-74 | a difference of exactly one gives the singular message; a larger difference gives the plural message carrying that difference |
| ImportantActivitiesMustHaveAnnotations.KindErrors | app/rules/ImportantActivitiesMustHaveAnnotations.js:52-75 | at most one error per kind |
| ImportantActivitiesMustHaveAnnotations.KindErrorsSnoc | app/rules/ImportantActivitiesMustHaveAnnotations.js:52-75 | visiting one more kind appends that kind's error after the earlier ones |
| ImportantActivitiesMustHaveAnnotations.KindErrorsEmptyIff | app/rules/ImportantActivitiesMustHaveAnnotations.js:52-75 | there is no error exactly when no kind's lenient count exceeds its strict count |
| ImportantActivitiesMustHaveAnnotations.AddKindError | app/rules/ImportantActivitiesMustHaveAnnotations.js:54-74 | one pass of the loop appends exactly that kind's error to the errors so far |
| ImportantActivitiesMustHaveAnnotations.CheckStyleRule | app/rules/ImportantActivitiesMustHaveAnnotations.js:35-76 | only a non-empty string is accepted; the errors are rebuilt as the kinds' errors in table order, and everything else is unchanged |
| ImportantActivitiesMustHaveAnnotations.AnnotationKindCountsUnannotated | app/rules/ImportantActivitiesMustHaveAnnotations.js:54-56 | for a kind whose strict query is lenient plus the predicate, the count is the number of unannotated activities, and the kind is reported exactly when one exists |
| ImportantActivitiesMustHaveAnnotations.PluralMessageCountsUnannotated | app/rules/ImportantActivitiesMustHaveAnnotations.js:54-74 | for a predicate-paired kind with more than one unannotated activity, the error is the plural message, and the number it prints reads back as the number of unannotated activities |
| WorkflowsShouldNotContainCodeActivities.New | app/rules/WorkflowsShouldNotContainCodeActivities.js:18-29 | the rule starts empty with neither inherited query set |
| WorkflowsShouldNotContainCodeActivities.KindWarning | app/rules/WorkflowsShouldNotContainCodeActivities.js:56-62 | one kind gives at most one warning, and gives one exactly when it has a match |
| WorkflowsShouldNotContainCodeActivities.CodeWarnings | app/rules/WorkflowsShouldNotContainCodeActivities.js:55-66 | at most one warning per kind |
| WorkflowsShouldNotContainCodeActivities.AllMatchesCount | app/rules/WorkflowsShouldNotContainCodeActivities.js:63 | the gathered matches number exactly the sum of the kinds' counts |
| WorkflowsShouldNotContainCodeActivities.AllMatchesMembership | app/rules/WorkflowsShouldNotContainCodeActivities.js:63 | a node is gathered exactly when some kind matched it |
| WorkflowsShouldNotContainCodeActivities.WarningIffKindOccurs | app/rules/WorkflowsShouldNotContainCodeActivities.js:55-62 | a kind with a unique key is warned about exactly when it has a match |
| WorkflowsShouldNotContainCodeActivities.CodeWarningsOnlyNameKinds | app/rules/WorkflowsShouldNotContainCodeActivities.js:58-62 | every warning names a kind that has a match |
| WorkflowsShouldNotContainCodeActivities.MessageInjective | app/rules/WorkflowsShouldNotContainCodeActivities.js:60 | different kinds give different warnings |
| WorkflowsShouldNotContainCodeActivities.DistinctKeys | app/rules/WorkflowsShouldNotContainCodeActivities.js:21-28 | the four keys are pairwise different |
| WorkflowsShouldNotContainCodeActivities.KindsSnoc | app/rules/WorkflowsShouldNotContainCodeActivities.js:55-66 | visiting one more kind appends its matches and, when it has any, its warning |
| WorkflowsShouldNotContainCodeActivities.VisitKinds | app/rules/WorkflowsShouldNotContainCodeActivities.js:55-66 | the loop gathers every kind's matches and warnings, in table order |
| WorkflowsShouldNotContainCodeActivities.CheckStyleRule | app/rules/WorkflowsShouldNotContainCodeActivities.js:38-67 | only a non-empty string is accepted; strict matches and warnings are rebuilt from the kinds in order; lenient matches and errors are untouched |
| WorkflowsShouldNotContainCodeActivities.CheckReportsKinds | app/rules/WorkflowsShouldNotContainCodeActivities.js:38-67 | after a check there are at most four warnings, strict matches number the sum of the counts, and each kind is warned about exactly when it occurs |
| StyleRuleFactory.GetXamlNamespaces | app/StyleRuleFactory.js:24-30 | the table binds exactly the prefixes `xaml`, `x` and `sap2010`, to the WF activities, XAML language and 2010 designer-presentation namespace URIs respectively |
| StyleRuleFactory.UnboundPrefixInCodeQueries | app/StyleRuleFactory.js:24-30 | the `ui` prefix used by three code-activity queries is not in the table; `xaml` is |
| StyleRuleFactory.Basename | app/StyleRuleFactory.js:63 | the text after the last "/" has no "/", ends the name, and is the whole name when there is no "/" |
| StyleRuleFactory.Extname | app/StyleRuleFactory.js:63 | an extension is empty, or a dot-led suffix of the name shorter than the text after its last "/" |
| StyleRuleFactory.XamlFileIff | app/StyleRuleFactory.js:62-64 | a directory entry (no "/") is kept exactly when it is longer than ".xaml", ends in ".xaml" and does not start with "~" |
| StyleRuleFactory.FilterDecidedByLastComponent | app/StyleRuleFactory.js:63 | whether an entry is kept depends only on its last path component, for both the extension and the "~" test |
| StyleRuleFactory.FilterXaml | app/StyleRuleFactory.js:62-66 | the result is an ordered subsequence of the listing holding exactly its workflow files |
| StyleRuleFactory.FilterXamlIdempotent | app/StyleRuleFactory.js:62-66 | filtering the result again changes nothing |
| StyleRuleFactory.GetXamlFileList | app/StyleRuleFactory.js:52-67 | the call succeeds exactly for a non-empty string path; it gives the listing's workflow files in order |
| StyleRuleFactory.XamlNameKept | app/StyleRuleFactory.js:63 | a non-empty stem with no "/" followed by ".xaml" is kept exactly when the stem does not start with "~" |
| StyleRuleFactory.FilterKeepsWorkflow | app/StyleRuleFactory.js:63 | "Main.xaml" is kept |
| StyleRuleFactory.BasenameOfNested | app/StyleRuleFactory.js:63 | the last component of "dir/file" is "file", for any directory part |
| StyleRuleFactory.LockFilesDropped | app/StyleRuleFactory.js:63 | every name whose last component starts with "~" is dropped, on its own or inside a directory |
| StyleRuleFactory.FilterDropsLockFile | app/StyleRuleFactory.js:63 | "~Main.xaml" and "dir/~Main.xaml" are dropped |
| StyleRuleFactory.FilterDropsOtherCase | app/StyleRuleFactory.js:63 | "Main.XAML" is dropped, because the extension test is case-sensitive |
| StyleRuleFactory.FilterDropsHidden | app/StyleRuleFactory.js:63 | ".xaml" alone has no extension and is dropped |

## Left out

- The xmldom parser and the XPath engine are library code. Documents are opaque, nodes are attribute maps, and the processor is a parameter. The one exception is the annotation predicate, given its meaning in `Dom.Select`. For a non-string input xmldom builds no document (`undefined`); the processor may answer anything for it but is assumed not to throw. An absent attribute reads as "".
- `getXpathProcessor` (building the processor from the namespace table) is library glue. The processor is an input everywhere.
- `fs.readdirSync` is I/O. `StyleRuleFactory.GetXamlFileList` takes the directory listing as a parameter.
- `getUiPathProjectInfo`, `UiPathProject`, `BaseProjectRule`, `NoOutdatedProjectDependencies`, the HTTP mock and the command-line entry point are left out. They do file, JSON and network I/O with no rule logic to model.
- `parseComplexAnnotation`, `filterArray`, `filterPublicWorkflows` and `getTomlData` are called but not defined in the base class. The table `getTomlData("ImportantActivities")` would load is a parameter of `ImportantActivitiesMustHaveAnnotations.New`.
- `BaseStyleRule.GetAttributeValues`: the base class does not define `getAttributeValues`. It is modelled from its tests and its callers: the values of the nodes carrying the attribute, in order. The error messages "name parameter is required and must be a string" and "nodes parameter is required and must be an array" are assumed.
- `WarnArgumentsWithDefaultValues.GetWarnings`: the source reads the default values from `this.xamlDoc`. No shown code sets that field. The model takes the root `Activity` element's attributes as a parameter instead. So the guard that throws when `xamlDoc` is not an object is not modelled, and neither is the failure when the document has no root `Activity`.
- WarnArgumentsWithDefaultValues.GetClassName: takes the root element as a parameter. The guard that throws when `xamlDoc` is not an object (app/rules/WarnArgumentsWithDefaultValues.js:90-92) is not modelled, and neither is the failure when the document has no root `Activity` (app/rules/WarnArgumentsWithDefaultValues.js:94-96).
- WarnArgumentsWithDefaultValues.GetArgumentDefaultValue: takes the root element as a parameter. The `xamlDoc` guard (app/rules/WarnArgumentsWithDefaultValues.js:113-115) is not modelled, and neither is the failure when the document has no root `Activity` (app/rules/WarnArgumentsWithDefaultValues.js:121-126).
- WarnArgumentsWithDefaultValues.ArgumentWarnings: takes the root element as a parameter, so it inherits both gaps of `GetArgumentDefaultValue`. A `xamlDoc` that is not an object, or a document without a root `Activity`, makes the source throw inside the loop; the model does not.
- StyleRuleFactory.Basename: takes the text after the last "/". Node's `path.basename` first drops trailing separators, so the two differ on a name ending in "/", such as "dir/Main.xaml/". A directory listing holds bare entry names, so no listed name ends in "/".
- WorkflowsShouldNotContainCodeActivities.CheckStyleRule: three of the four queries (`InvokeCode`, `InvokeComMethod`, `InvokePowerShell`) use the `ui:` prefix, and the namespace table the processor is built from does not bind `ui` (`StyleRuleFactory.UnboundPrefixInCodeQueries`). A processor built from that table cannot resolve those queries: depending on the XPath library it throws on the unresolved prefix or selects nothing, so the rule as shipped never warns about those three kinds. The model's processor is an arbitrary function, so its "warned exactly when matched" holds for whatever the processor answers. The model does not promise that those kinds can be matched, and it does not model the library throwing.
- Case mapping is ASCII only. `toUpperCase` and `toLowerCase` on non-ASCII letters are not modelled, so a non-ASCII letter counts as caseless here.
- `util.format` is string concatenation. `%d` is only applied to positive counts, so `Text.DecimalString` covers the natural numbers.
- Numbers are integers. NaN, fractions and object identity are not modelled. Distinct objects are never strictly equal.
- In-place mutation is modelled as returning the next state. Aliasing of the returned arrays with the rule's own lists is not modelled.
- `LegacyArgumentsMustHaveAnnotations.CheckStyleRule`: the error text for calling a stored non-function is taken as "this.xpath is not a function"; the engine's exact wording is not modelled. A truthy non-string input (a number, an object) gets past this rule's guard and parses to no document; the model then lets the processor answer any node list for it, so its success on such input rests on the XPath library not throwing when handed `undefined`, which is not modelled.
- The XAML fixture files are not modelled. The fixture lemmas state the outcomes for node lists of the same shape.
