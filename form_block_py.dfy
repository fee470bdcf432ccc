/** The configuration-level logic of the backend form block
    (telebot_constructor/user_flow/blocks/form.py): the next-field getters built from a
    field's `next_field` setting, and the placeholder checks on the form's message
    templates. */
module FormBlockPy {
  import opened Base
  import opened Strings

  /** `NextField`: the end of the form, a field named directly, or a mapping from the
      (stringified) value of the previous field. `cases` is a Python dict, so its keys
      are distinct and its values come in insertion order. */
  datatype NextField =
    | FormEnd
    | ByName(fieldId: string)
    | ByMapping(cases: seq<(Option<string>, Option<string>)>, default: string)

  /** The getter handed to the form engine: a choice of next field from the previous
      value, and the list of names it may produce. */
  datatype NextFieldGetter =
    | EndGetter
    | NameGetter(name: string)
    | MappingGetter(cases: seq<(Option<string>, Option<string>)>, default: string, possibleNextFieldNames: seq<Option<string>>)

  /** The keys of the case table, in order. */
  function CaseKeys(cases: seq<(Option<string>, Option<string>)>): seq<Option<string>>
  {
    Map(cases, (c: (Option<string>, Option<string>)) => c.0)
  }

  /** The values of the case table, in order. */
  function CaseValues(cases: seq<(Option<string>, Option<string>)>): seq<Option<string>>
  {
    Map(cases, (c: (Option<string>, Option<string>)) => c.1)
  }

  /** `construct_next_field_getter`. */
  function ConstructNextFieldGetter(nextField: NextField): (r: NextFieldGetter)
    ensures nextField.FormEnd? <==> r.EndGetter?
    ensures nextField.ByName? <==> r.NameGetter?
    ensures nextField.ByName? ==> r.name == nextField.fieldId
    ensures nextField.ByMapping? ==> r.MappingGetter? && r.cases == nextField.cases && r.default == nextField.default
    ensures nextField.ByMapping? ==> r.possibleNextFieldNames == CaseValues(nextField.cases) + [Some(nextField.default)]
  {
    match nextField
    case FormEnd => EndGetter
    case ByName(id) => NameGetter(id)
    case ByMapping(cases, default) => MappingGetter(cases, default, CaseValues(cases) + [Some(default)])
  }

  /** `dict.get(key, default)` on the case table. */
  function CasesGet(cases: seq<(Option<string>, Option<string>)>, key: Option<string>, default: Option<string>): (r: Option<string>)
  {
    if cases == [] then default
    else if cases[0].0 == key then cases[0].1
    else CasesGet(cases[1..], key, default)
  }

  /** The key the mapping getter looks up: None for a None value, else `str(value)`
      (`str` is given as a parameter). */
  function MappingKey<V>(prev: Option<V>, str: V -> string): Option<string>
  {
    if prev.None? then None else Some(str(prev.value))
  }

  /** The next field chosen by a getter after a field whose value was `prev`; None is the
      end of the form. */
  function NextFieldName<V>(getter: NextFieldGetter, prev: Option<V>, str: V -> string): Option<string>
  {
    match getter
    case EndGetter => None
    case NameGetter(name) => Some(name)
    case MappingGetter(cases, default, _) => CasesGet(cases, MappingKey(prev, str), Some(default))
  }

  /** The lookup finds the case whose key matches, and falls back to the default when no
      key matches. */
  lemma {:induction false} CasesGetSpec(cases: seq<(Option<string>, Option<string>)>, key: Option<string>, default: Option<string>)
    requires Distinct(CaseKeys(cases))
    ensures key !in CaseKeys(cases) ==> CasesGet(cases, key, default) == default
    ensures forall i :: 0 <= i < |cases| && cases[i].0 == key ==> CasesGet(cases, key, default) == cases[i].1
  {
    if cases != [] {
      var ks := CaseKeys(cases);
      var rest := cases[1..];
      assert CaseKeys(rest) == ks[1..];
      CasesGetSpec(rest, key, default);
      if cases[0].0 == key {
        forall i | 1 <= i < |cases| ensures cases[i].0 != key {
          assert ks[i] == cases[i].0 && ks[0] == cases[0].0;
        }
      } else {
        forall i | 1 <= i < |cases| && cases[i].0 == key ensures rest[i - 1].0 == key {
        }
      }
    }
  }

  lemma {:induction false} CasesGetIsAValue(cases: seq<(Option<string>, Option<string>)>, key: Option<string>, default: Option<string>)
    ensures CasesGet(cases, key, default) in CaseValues(cases) + [default]
  {
    if cases != [] {
      CasesGetIsAValue(cases[1..], key, default);
      assert CaseValues(cases) == [cases[0].1] + CaseValues(cases[1..]);
    }
  }

  /** A getter built from a setting never names a field outside its declared possible
      next-field names: a mapping getter's choice is one of the case values or the
      default. */
  lemma NextFieldIsPossible<V>(nextField: NextField, prev: Option<V>, str: V -> string)
    requires nextField.ByMapping?
    ensures NextFieldName(ConstructNextFieldGetter(nextField), prev, str) in ConstructNextFieldGetter(nextField).possibleNextFieldNames
  {
    CasesGetIsAValue(nextField.cases, MappingKey(prev, str), Some(nextField.default));
  }

  /** A form-end setting ends the form and a field name always leads to that field,
      whatever the previous value. */
  lemma FixedNextField<V>(nextField: NextField, prev: Option<V>, str: V -> string)
    requires !nextField.ByMapping?
    ensures nextField.FormEnd? ==> NextFieldName(ConstructNextFieldGetter(nextField), prev, str).None?
    ensures nextField.ByName? ==> NextFieldName(ConstructNextFieldGetter(nextField), prev, str) == Some(nextField.fieldId)
  {
  }

  /** `template.count("{}")`: non-overlapping occurrences, scanned from the left. */
  function CountPlaceholders(t: string): nat
  {
    if |t| < 2 then 0
    else if t[..2] == "{}" then 1 + CountPlaceholders(t[2..])
    else CountPlaceholders(t[1..])
  }

  /** Occurrences never straddle a boundary where the right-hand side starts with "{", so
      they add up across it. */
  lemma {:induction false} CountPlaceholdersAppend(a: string, s: string)
    requires s == [] || s[0] == '{'
    ensures CountPlaceholders(a + s) == CountPlaceholders(a) + CountPlaceholders(s)
  {
    if |a| == 0 {
      assert a + s == s;
    } else if |a| == 1 {
      if |a + s| >= 2 {
        assert (a + s)[..2] != "{}" by { assert (a + s)[1] == s[0]; }
        assert (a + s)[1..] == s;
      }
    } else if a[..2] == "{}" {
      assert (a + s)[..2] == a[..2] && (a + s)[2..] == a[2..] + s;
      CountPlaceholdersAppend(a[2..], s);
    } else {
      assert (a + s)[..2] == a[..2] && (a + s)[1..] == a[1..] + s;
      CountPlaceholdersAppend(a[1..], s);
    }
  }

  /** Filling the gaps between placeholder-free pieces of text with "{}" gives a template
      with exactly one placeholder per gap. */
  lemma {:induction false} JoinedPlaceholders(parts: seq<string>)
    requires |parts| >= 1
    requires forall i :: 0 <= i < |parts| ==> CountPlaceholders(parts[i]) == 0
    ensures CountPlaceholders(Join(parts, "{}")) == |parts| - 1
  {
    if |parts| > 1 {
      var rest := Join(parts[1..], "{}");
      JoinedPlaceholders(parts[1..]);
      assert parts[0] + "{}" + rest == parts[0] + ("{}" + rest);
      CountPlaceholdersAppend(parts[0], "{}" + rest);
      assert ("{}" + rest)[..2] == "{}" && ("{}" + rest)[2..] == rest;
    }
  }

  /** `_validate_template`: the template itself when it has exactly the expected number of
      placeholders, a `ValueError` naming both counts otherwise. */
  function ValidateTemplate(template: string, placeholderCount: int, title: string): (r: Throws<string>)
    ensures r.Returns? <==> CountPlaceholders(template) == placeholderCount
    ensures r.Returns? ==> r.value == template
    ensures r.Raises? ==>
      r.message == "Expected " + IntToString(placeholderCount) + " \"{}\" placeholders in " + title + ", found " + IntToString(CountPlaceholders(template))
  {
    var actual := CountPlaceholders(template);
    if actual != placeholderCount then
      Raises("Expected " + IntToString(placeholderCount) + " \"{}\" placeholders in " + title + ", found " + IntToString(actual))
    else Returns(template)
  }

  /** The texts of a form block (`FormMessages`). */
  datatype FormMessages = FormMessages(
    formStart: string,
    fieldIsSkippable: string,
    fieldIsNotSkippable: string,
    pleaseEnterCorrectValue: string,
    unsupportedCommand: string,
    cancellingBecauseOfError: string)

  /** The templates handed to the form engine's handler configuration. */
  datatype HandlerTemplates = HandlerTemplates(
    formStartingTemplate: string,
    canSkipFieldTemplate: string,
    cantSkipFieldMsg: string,
    retryFieldMsg: string,
    unsupportedCmdErrorTemplate: string,
    cancellingBecauseOfErrorTemplate: string)

  /** Every template has the number of placeholders its use requires. */
  predicate TemplatesValid(m: FormMessages)
  {
    CountPlaceholders(m.formStart) == 1 && CountPlaceholders(m.fieldIsSkippable) == 1
    && CountPlaceholders(m.fieldIsNotSkippable) == 0 && CountPlaceholders(m.pleaseEnterCorrectValue) == 0
    && CountPlaceholders(m.unsupportedCommand) == 1
  }

  /** The templates part of the form block's `setup`: each message is validated in turn
      (the first failure is raised) and the cancelling template is taken from the
      unsupported-command message. */
  function SetupTemplates(m: FormMessages): (r: Throws<HandlerTemplates>)
    ensures r.Returns? <==> TemplatesValid(m)
    ensures r.Returns? ==> r.value == HandlerTemplates(m.formStart, m.fieldIsSkippable, m.fieldIsNotSkippable,
                                                       m.pleaseEnterCorrectValue, m.unsupportedCommand, m.unsupportedCommand)
    ensures CountPlaceholders(m.formStart) != 1 ==> r == Raises(ValidateTemplate(m.formStart, 1, "form start message").message)
    ensures (CountPlaceholders(m.formStart) == 1 && CountPlaceholders(m.fieldIsSkippable) != 1)
            ==> r == Raises(ValidateTemplate(m.fieldIsSkippable, 1, "field is skippable message").message)
    ensures (CountPlaceholders(m.formStart) == 1 && CountPlaceholders(m.fieldIsSkippable) == 1
             && CountPlaceholders(m.fieldIsNotSkippable) != 0)
            ==> r == Raises(ValidateTemplate(m.fieldIsNotSkippable, 0, "field is not skippable message").message)
    ensures (CountPlaceholders(m.formStart) == 1 && CountPlaceholders(m.fieldIsSkippable) == 1
             && CountPlaceholders(m.fieldIsNotSkippable) == 0 && CountPlaceholders(m.pleaseEnterCorrectValue) != 0)
            ==> r == Raises(ValidateTemplate(m.pleaseEnterCorrectValue, 0, "enter correct value msg").message)
    ensures (CountPlaceholders(m.formStart) == 1 && CountPlaceholders(m.fieldIsSkippable) == 1
             && CountPlaceholders(m.fieldIsNotSkippable) == 0 && CountPlaceholders(m.pleaseEnterCorrectValue) == 0
             && CountPlaceholders(m.unsupportedCommand) != 1)
            ==> r == Raises(ValidateTemplate(m.unsupportedCommand, 1, "unsupported command message").message)
  {
    var formStart := ValidateTemplate(m.formStart, 1, "form start message");
    if formStart.Raises? then Raises(formStart.message) else
    var canSkip := ValidateTemplate(m.fieldIsSkippable, 1, "field is skippable message");
    if canSkip.Raises? then Raises(canSkip.message) else
    var cantSkip := ValidateTemplate(m.fieldIsNotSkippable, 0, "field is not skippable message");
    if cantSkip.Raises? then Raises(cantSkip.message) else
    var retry := ValidateTemplate(m.pleaseEnterCorrectValue, 0, "enter correct value msg");
    if retry.Raises? then Raises(retry.message) else
    var unsupported := ValidateTemplate(m.unsupportedCommand, 1, "unsupported command message");
    if unsupported.Raises? then Raises(unsupported.message) else
    // the same text was just accepted, so this second check always passes
    var cancelling := ValidateTemplate(m.unsupportedCommand, 1, "unsupported cmd message");
    assert cancelling.Returns?;
    Returns(HandlerTemplates(formStart.value, canSkip.value, cantSkip.value, retry.value, unsupported.value, cancelling.value))
  }

  /** The error-cancelling message the user configures is never consulted: the outcome of
      setting up the templates does not depend on it. */
  lemma CancellingMessageIgnored(m: FormMessages, other: string)
    ensures SetupTemplates(m) == SetupTemplates(m.(cancellingBecauseOfError := other))
  {
  }
}
