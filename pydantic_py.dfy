/** The backend's union-record check and language-code parsing
    (telebot_constructor/utils/pydantic.py, and its older copy in
    telebot_constructor/pydantic_utils.py). A model is seen through its declared fields:
    whether each field's annotation admits None and whether its value is None. */
module PydanticPy {
  import opened Base
  import opened Strings

  /** `isOptional` is the check `get_origin(annotation) == Union and type(None) in
      get_args(annotation)`: it holds for `Optional[X]` and `Union[X, None]`, but not for
      the `X | None` spelling, whose origin is `types.UnionType`; a field so annotated
      counts as not optional. */
  datatype ModelField = ModelField(name: string, isOptional: bool, isNull: bool)

  predicate IsOptional(f: ModelField) { f.isOptional }

  /** An optional field that holds a value. */
  predicate IsSetOptional(f: ModelField) { f.isOptional && !f.isNull }

  /** `optional_field_names`. */
  function OptionalFieldNames(fields: seq<ModelField>): set<string>
  {
    set f | f in fields && IsOptional(f) :: f.name
  }

  /** `non_null_optional_fields`. */
  function NonNullOptionalFields(fields: seq<ModelField>): set<string>
  {
    set f | f in fields && IsSetOptional(f) :: f.name
  }

  function FieldName(f: ModelField): string { f.name }

  /** A name occurs among the names of the filtered fields exactly when some field
      satisfying `p` has it. */
  lemma FilteredNamesMembership(fields: seq<ModelField>, p: ModelField -> bool, x: string)
    ensures x in Map(Filter(fields, p), FieldName) <==> exists f :: f in fields && p(f) && f.name == x
  {
    var kept := Filter(fields, p);
    var names := Map(kept, FieldName);
    if x in names {
      var i :| 0 <= i < |names| && names[i] == x;
      FilterMembership(fields, p, kept[i]);
    }
    if exists f :: f in fields && p(f) && f.name == x {
      var f :| f in fields && p(f) && f.name == x;
      FilterMembership(fields, p, f);
      var i :| 0 <= i < |kept| && kept[i] == f;
      assert names[i] == x;
    }
  }

  /** `sorted(...)` of the names of the fields satisfying `p`, as a set. */
  function SortedNames(fields: seq<ModelField>, p: ModelField -> bool): (r: seq<string>)
    ensures SortedStrings(r)
    ensures forall x :: x in r <==> exists f :: f in fields && p(f) && f.name == x
  {
    var names := Map(Filter(fields, p), FieldName);
    var d := Dedup(names);
    var r := SortStrings(d);
    DedupSpec(names);
    forall x ensures x in r <==> exists f :: f in fields && p(f) && f.name == x {
      assert x in r <==> x in multiset(r);
      assert x in multiset(d) <==> x in d;
      FilteredNamesMembership(fields, p, x);
    }
    r
  }

  /** The error of the check: the optional field names, how many of them are set and
      which; `verb` is the wording between them, which differs between the two copies. */
  function ExactlyOneError(optionalNames: seq<string>, verb: string, setCount: nat, setNames: seq<string>): string
  {
    "Exacly one optional field (of " + PyListRepr(optionalNames) + ") must be set to " + verb + ", "
      + "but " + IntToString(setCount) + " actually are: " + PyListRepr(setNames)
  }

  /** `ExactlyOneNonNullFieldModel.validate_exactly_one_non_null_field`: the model is
      accepted when exactly one optional field is set; otherwise the error names the
      optional fields and the set ones, sorted. */
  function ValidateExactlyOneNonNullField(fields: seq<ModelField>): (r: Throws<()>)
    ensures r.Returns? <==> |NonNullOptionalFields(fields)| == 1
    ensures r.Raises? ==>
      r.message == ExactlyOneError(SortedNames(fields, IsOptional), "a non-null value",
                                   |NonNullOptionalFields(fields)|, SortedNames(fields, IsSetOptional))
  {
    var nonNull := NonNullOptionalFields(fields);
    if |nonNull| != 1 then
      Raises(ExactlyOneError(SortedNames(fields, IsOptional), "a non-null value", |nonNull|, SortedNames(fields, IsSetOptional)))
    else Returns(())
  }

  /** The older copy of the same check; only the wording of its error differs. It ends
      without `return self`, so where the newer check returns the model this one returns
      None; the model records only that it does not raise. */
  function LegacyValidateExactlyOneNonNullField(fields: seq<ModelField>): (r: Throws<()>)
    ensures r.Returns? <==> ValidateExactlyOneNonNullField(fields).Returns?
    ensures r.Raises? ==>
      r.message == ExactlyOneError(SortedNames(fields, IsOptional), "non-null value",
                                   |NonNullOptionalFields(fields)|, SortedNames(fields, IsSetOptional))
  {
    var nonNull := NonNullOptionalFields(fields);
    if |nonNull| != 1 then
      Raises(ExactlyOneError(SortedNames(fields, IsOptional), "non-null value", |nonNull|, SortedNames(fields, IsSetOptional)))
    else Returns(())
  }

  predicate DistinctNames(fields: seq<ModelField>)
  {
    forall i, j :: 0 <= i < j < |fields| ==> fields[i].name != fields[j].name
  }

  /** The one set optional field, when its name is the only non-null optional name. */
  predicate OnlySetOptional(fields: seq<ModelField>, i: int)
  {
    0 <= i < |fields| && IsSetOptional(fields[i]) && forall j :: 0 <= j < |fields| && IsSetOptional(fields[j]) ==> j == i
  }

  lemma SingletonSet<T>(s: set<T>, x: T)
    requires |s| == 1 && x in s
    ensures s == {x}
  {
    assert |s - {x}| == 0;
  }

  /** One non-null optional name: with distinct names, a single field holds it. */
  lemma OneNameOneField(fields: seq<ModelField>)
    requires DistinctNames(fields)
    requires |NonNullOptionalFields(fields)| == 1
    ensures exists i :: OnlySetOptional(fields, i)
  {
    var s := NonNullOptionalFields(fields);
    var x :| x in s;
    SingletonSet(s, x);
    var f :| f in fields && IsSetOptional(f) && f.name == x;
    var i :| 0 <= i < |fields| && fields[i] == f;
    forall j | 0 <= j < |fields| && IsSetOptional(fields[j]) ensures j == i {
      assert fields[j].name in s;
    }
    assert OnlySetOptional(fields, i);
  }

  /** A single set optional field gives a single non-null optional name. */
  lemma OneFieldOneName(fields: seq<ModelField>, i: int)
    requires OnlySetOptional(fields, i)
    ensures NonNullOptionalFields(fields) == {fields[i].name}
  {
    forall y | y in NonNullOptionalFields(fields) ensures y == fields[i].name {
      var f :| f in fields && IsSetOptional(f) && f.name == y;
      var j :| 0 <= j < |fields| && fields[j] == f;
    }
  }

  /** A model's field names are distinct, and then it is accepted exactly when one
      optional field, and no other, holds a value. */
  lemma ExactlyOneSetOptional(fields: seq<ModelField>)
    requires DistinctNames(fields)
    ensures ValidateExactlyOneNonNullField(fields).Returns? <==> exists i :: OnlySetOptional(fields, i)
  {
    if |NonNullOptionalFields(fields)| == 1 {
      OneNameOneField(fields);
    }
    if exists i :: OnlySetOptional(fields, i) {
      var i :| OnlySetOptional(fields, i);
      OneFieldOneName(fields, i);
    }
  }

  /** Fields that cannot be None never count: the check gives the same outcome, message
      included, on the optional fields alone. */
  lemma NonOptionalFieldsIgnored(fields: seq<ModelField>)
    ensures ValidateExactlyOneNonNullField(fields) == ValidateExactlyOneNonNullField(Filter(fields, IsOptional))
  {
    var opt := Filter(fields, IsOptional);
    forall f ensures f in opt <==> f in fields && IsOptional(f) {
      FilterMembership(fields, IsOptional, f);
    }
    assert NonNullOptionalFields(fields) == NonNullOptionalFields(opt);
    FilterOfFiltered(fields, IsOptional, IsOptional);
    FilterOfFiltered(fields, IsOptional, IsSetOptional);
  }

  /** Filtering first by a weaker predicate changes nothing. */
  lemma {:induction false} FilterOfFiltered(xs: seq<ModelField>, p: ModelField -> bool, q: ModelField -> bool)
    requires forall x :: q(x) ==> p(x)
    ensures Filter(Filter(xs, p), q) == Filter(xs, q)
  {
    if xs != [] {
      FilterOfFiltered(xs[1..], p, q);
      var t := Filter(xs[1..], p);
      if p(xs[0]) {
        assert Filter(xs, p) == [xs[0]] + t;
        assert ([xs[0]] + t)[1..] == t;
      } else {
        assert Filter(xs, p) == [] + t == t;
      }
    }
  }

  /** The model of the unit test: a required number and three optional fields. */
  function ExampleModel(foo: bool, bar: bool, baz: bool): seq<ModelField>
  {
    [ModelField("number", false, false), ModelField("foo", true, !foo), ModelField("bar", true, !bar), ModelField("baz", true, !baz)]
  }

  /** The instantiations the unit test makes: one set optional field is accepted, two or
      more are rejected. */
  lemma ExampleModelCases(foo: bool, bar: bool, baz: bool)
    ensures ValidateExactlyOneNonNullField(ExampleModel(foo, bar, baz)).Returns? <==>
      (if foo then 1 else 0) + (if bar then 1 else 0) + (if baz then 1 else 0) == 1
  {
    var fields := ExampleModel(foo, bar, baz);
    ExampleNamesDistinct(foo, bar, baz);
    ExactlyOneSetOptional(fields);
    if (if foo then 1 else 0) + (if bar then 1 else 0) + (if baz then 1 else 0) == 1 {
      ExampleOneSet(foo, bar, baz);
    } else {
      ExampleNotOneSet(foo, bar, baz);
    }
  }

  lemma ExampleNamesDistinct(foo: bool, bar: bool, baz: bool)
    ensures DistinctNames(ExampleModel(foo, bar, baz))
  {
    var fields := ExampleModel(foo, bar, baz);
    assert fields[0].name[0] == 'n' && fields[1].name[0] == 'f' && fields[2].name[2] == 'r' && fields[3].name[2] == 'z';
    assert fields[2].name[0] == 'b' && fields[3].name[0] == 'b';
  }

  lemma ExampleOneSet(foo: bool, bar: bool, baz: bool)
    requires (if foo then 1 else 0) + (if bar then 1 else 0) + (if baz then 1 else 0) == 1
    ensures exists i :: OnlySetOptional(ExampleModel(foo, bar, baz), i)
  {
    var fields := ExampleModel(foo, bar, baz);
    var i := if foo then 1 else if bar then 2 else 3;
    assert IsSetOptional(fields[i]);
    forall j | 0 <= j < |fields| && IsSetOptional(fields[j]) ensures j == i {
      assert fields[j].isNull == (if j == 0 then false else if j == 1 then !foo else if j == 2 then !bar else !baz);
    }
    assert OnlySetOptional(fields, i);
  }

  lemma ExampleNotOneSet(foo: bool, bar: bool, baz: bool)
    requires (if foo then 1 else 0) + (if bar then 1 else 0) + (if baz then 1 else 0) != 1
    ensures forall i :: !OnlySetOptional(ExampleModel(foo, bar, baz), i)
  {
    var fields := ExampleModel(foo, bar, baz);
    forall i | 0 <= i < |fields| && IsSetOptional(fields[i])
      ensures exists j :: 0 <= j < |fields| && IsSetOptional(fields[j]) && j != i
    {
      var j := if i != 1 && foo then 1 else if i != 2 && bar then 2 else 3;
      assert IsSetOptional(fields[j]) && j != i;
    }
  }

  /** A value handed to the `Language` field's validator. */
  datatype PyValue<L> = LanguageDataValue(data: L) | StrValue(s: string) | OtherValue

  const NOT_A_STRING_ERROR: string := "language code is expected to be a string containing IETF language tag"
  const UNKNOWN_CODE_ERROR: string := "unknown language code"

  /** `_parse_language_data`; the language table's lookup is a parameter (None where it
      raises). */
  function ParseLanguageData<L>(code: PyValue<L>, lookup: string -> Option<L>): (r: Throws<L>)
    ensures code.LanguageDataValue? ==> r == Returns(code.data)
    ensures code.OtherValue? ==> r == Raises(NOT_A_STRING_ERROR)
    ensures code.StrValue? && lookup(code.s).Some? ==> r == Returns(lookup(code.s).value)
    ensures code.StrValue? && lookup(code.s).None? ==> r == Raises(UNKNOWN_CODE_ERROR)
  {
    match code
    case LanguageDataValue(data) => Returns(data)
    case OtherValue => Raises(NOT_A_STRING_ERROR)
    case StrValue(s) => if lookup(s).Some? then Returns(lookup(s).value) else Raises(UNKNOWN_CODE_ERROR)
  }

  /** Parsing is idempotent: what was parsed once is accepted as it is. */
  lemma ParseLanguageDataIdempotent<L>(code: PyValue<L>, lookup: string -> Option<L>)
    requires ParseLanguageData(code, lookup).Returns?
    ensures ParseLanguageData(LanguageDataValue(ParseLanguageData(code, lookup).value), lookup) == ParseLanguageData(code, lookup)
  {
  }
}
