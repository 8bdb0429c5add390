/** What `ArgumentsMustStartUpperCase` and `VariablesMustStartLowerCase`
    share: the first-character case test and the per-name error list. */
module NamingConvention {
  import opened Js
  import opened Text
  import opened Seqs

  datatype LetterCase = Upper | Lower

  /** The test as written: the character equals its own upper-cased (resp.
      lower-cased) form and differs from its lower-cased (resp. upper-cased)
      form. A character without case, such as a digit, fails both. */
  predicate HasCase(c: char, want: LetterCase) {
    match want
    case Upper => c == ToUpperChar(c) && c != ToLowerChar(c)
    case Lower => c == ToLowerChar(c) && c != ToUpperChar(c)
  }

  /** Which characters pass, stated independently of the case mapping. */
  predicate IsLetterOfCase(c: char, want: LetterCase) {
    match want
    case Upper => 'A' <= c <= 'Z'
    case Lower => 'a' <= c <= 'z'
  }

  lemma HasCaseMeansLetterOfCase(c: char, want: LetterCase)
    ensures HasCase(c, want) <==> IsLetterOfCase(c, want)
  {
  }

  /** `isFirstCharUpperCase(value)` / `isFirstCharLowerCase(value)`: a
      non-empty string is required; the answer is whether its first
      character is a letter of the wanted case. */
  function IsFirstCharOfCase(value: Value, want: LetterCase, message: string): (r: Result<bool>)
    ensures r.Ok? <==> value.Str? && |value.s| != 0
    ensures r.Throw? ==> r.error == TypeError(message)
    ensures r.Ok? ==> (r.value <==> IsLetterOfCase(value.s[0], want))
  {
    var s :- RequireString(value, message);
    var firstChar := s[0];
    HasCaseMeansLetterOfCase(firstChar, want);
    Ok(HasCase(firstChar, want))
  }

  /** A `util.format` template with a single `%s`. */
  datatype Template = Template(before: string, after: string) {
    function Format(name: string): string {
      before + name + after
    }
  }

  /** A name the rule reports: non-empty, first character not of the wanted case. */
  predicate Offends(name: string, want: LetterCase) {
    |name| != 0 && !IsLetterOfCase(name[0], want)
  }

  /** The `forEach` over the names: one formatted error per offending name,
      in order; an empty name makes the case test, and so the whole call, throw. */
  function NameErrors(names: seq<string>, want: LetterCase, template: Template, message: string): (r: Result<seq<string>>)
    ensures r.Ok? <==> forall name :: name in names ==> |name| != 0
    ensures r.Throw? ==> r.error == TypeError(message)
    ensures r.Ok? ==> |r.value| <= |names|
  {
    if |names| == 0 then Ok([])
    else
      assert forall name :: name in names <==> name == names[0] || name in names[1..];
      var valid :- IsFirstCharOfCase(Str(names[0]), want, message);
      var rest :- NameErrors(names[1..], want, template, message);
      Ok((if valid then [] else [template.Format(names[0])]) + rest)
  }

  /** The errors are exactly the formatted offending names: each offending
      name is reported and nothing else is. */
  lemma {:induction false} NameErrorsReportOffenders(names: seq<string>, want: LetterCase, template: Template, message: string)
    requires NameErrors(names, want, template, message).Ok?
    ensures forall name :: name in names && Offends(name, want) ==> template.Format(name) in NameErrors(names, want, template, message).value
    ensures forall e :: e in NameErrors(names, want, template, message).value ==>
      exists name :: name in names && Offends(name, want) && e == template.Format(name)
    decreases |names|
  {
    if |names| != 0 {
      assert forall name :: name in names <==> name == names[0] || name in names[1..];
      NameErrorsReportOffenders(names[1..], want, template, message);
    }
  }

  /** What one name contributes: its formatted error when it offends. */
  function NameError(name: string, want: LetterCase, template: Template): (errors: seq<string>)
    ensures |errors| <= 1
    ensures errors == [] <==> !Offends(name, want) || |name| == 0
  {
    if Offends(name, want) then [template.Format(name)] else []
  }

  /** A successful check of a non-empty list is its first name's
      contribution followed by the check of the rest. */
  lemma NameErrorsCons(names: seq<string>, want: LetterCase, template: Template, message: string)
    requires |names| != 0 && NameErrors(names, want, template, message).Ok?
    ensures NameErrors(names[1..], want, template, message).Ok?
    ensures NameErrors(names, want, template, message).value
         == NameError(names[0], want, template) + NameErrors(names[1..], want, template, message).value
  {
    assert names[0] in names;
  }

  /** The errors as a plain list: each name's contribution, in order. */
  function OffenderErrors(names: seq<string>, want: LetterCase, template: Template): (errors: seq<string>)
    ensures |errors| <= |names|
  {
    FlatMap((name: string) => NameError(name, want, template), names)
  }

  /** A check that succeeds reports the plain list of contributions. */
  lemma {:induction false} NameErrorsAreOffenderErrors(names: seq<string>, want: LetterCase, template: Template, message: string)
    requires NameErrors(names, want, template, message).Ok?
    ensures NameErrors(names, want, template, message).value == OffenderErrors(names, want, template)
    decreases |names|
  {
    if |names| != 0 {
      NameErrorsCons(names, want, template, message);
      NameErrorsAreOffenderErrors(names[1..], want, template, message);
    }
  }

  /** Errors come out in name order. */
  lemma NameErrorsAppend(a: seq<string>, b: seq<string>, want: LetterCase, template: Template, message: string)
    requires NameErrors(a + b, want, template, message).Ok?
    ensures NameErrors(a, want, template, message).Ok? && NameErrors(b, want, template, message).Ok?
    ensures NameErrors(a + b, want, template, message).value
         == NameErrors(a, want, template, message).value + NameErrors(b, want, template, message).value
  {
    assert forall name :: name in a || name in b ==> name in a + b;
    NameErrorsAreOffenderErrors(a + b, want, template, message);
    NameErrorsAreOffenderErrors(a, want, template, message);
    NameErrorsAreOffenderErrors(b, want, template, message);
    FlatMapAppend((name: string) => NameError(name, want, template), a, b);
  }

  /** No first character has both cases, whatever the string. */
  lemma NoNameHasBothCases(value: Value, message: string)
    ensures !(IsFirstCharOfCase(value, Upper, message) == Ok(true) && IsFirstCharOfCase(value, Lower, message) == Ok(true))
  {
  }
}
