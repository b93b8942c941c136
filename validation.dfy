/**
 * The validation table the outlier engine derives from the REDCap data dictionary (the
 * codebook), and the dispatch lists that decide which check each field gets.
 */
module ValidationTable {
  import opened Wrappers
  import opened Text
  import opened Frames

  /** One data-dictionary row; a blank cell is the empty string. */
  datatype CodebookRow = CodebookRow(
    fieldName: string,
    formName: string,
    fieldType: string,
    validationType: string,
    validationMin: string,
    validationMax: string,
    requiredField: string,
    branchingLogic: string,
    identifier: string,
    annotation: string)

  /**
   * Numeric and date coercion, `pd.to_numeric` and `pd.to_datetime`, as partial maps into an
   * ordered type: `None` is a string that does not convert.
   */
  datatype Converters = Converters(numeric: string -> Option<real>, date: string -> Option<real>)

  /** A range bound: absent, still text, or converted. */
  datatype Bound = NoBound | RawBound(s: string) | Parsed(x: real)

  /** The `required_field` column before and after its normalisation. */
  datatype Required = Absent | Given(s: string) | IsTrue | IsFalse

  /** One row of the validation table. */
  datatype Rule = Rule(
    fieldName: string,
    formName: string,
    validationType: Option<string>,
    min: Bound,
    max: Bound,
    required: Required,
    branching: Option<string>)

  const NumericTypes: set<string> := {"number", "integer"}

  const DateTypes: set<string> := {"date_mdy", "date_dmy"}

  /** The only date type that is dispatched to checks. */
  const DispatchedDateTypes: set<string> := {"date_dmy"}

  const ReadOnlyTag := "@READONLY"

  const RespPrefix := "resp_"

  /** `replace({'': np.nan})`. */
  function Blank(s: string): (r: Option<string>)
    ensures r.None? <==> s == ""
    ensures r.Some? ==> r.value == s
  {
    if s == "" then None else Some(s)
  }

  function BoundOf(s: Option<string>): Bound {
    if s.Some? then RawBound(s.value) else NoBound
  }

  function RequiredOf(s: Option<string>): Required {
    if s.Some? then Given(s.value) else Absent
  }

  /** A text field without the read-only action tag. */
  predicate Selected(c: CodebookRow) {
    c.fieldType == "text" && !Contains(c.annotation, ReadOnlyTag)
  }

  /** The seven validation columns, renamed, with blanks made absent. */
  function ToRule(c: CodebookRow): Rule {
    Rule(c.fieldName, c.formName, Blank(c.validationType), BoundOf(Blank(c.validationMin)),
      BoundOf(Blank(c.validationMax)), RequiredOf(Blank(c.requiredField)), Blank(c.branchingLogic))
  }

  /** At least one of the five step columns is present, so `dropna(how='all')` keeps the row. */
  predicate HasStep(r: Rule) {
    r.validationType.Some? || !r.min.NoBound? || !r.max.NoBound? || !r.required.Absent? || r.branching.Some?
  }

  /**
   * A codebook row that becomes a row of the validation table: a text field without the
   * read-only tag, outside the `resp_` family, with at least one non-blank step column.
   */
  predicate Kept(c: CodebookRow) {
    Selected(c) && HasStep(ToRule(c)) && !StartsWith(c.fieldName, RespPrefix)
  }

  /** Selection, blank replacement, renaming, `dropna` and the `resp_` filter, in codebook order. */
  function KeptRules(codebook: seq<CodebookRow>): (r: seq<Rule>)
    ensures |r| <= |codebook|
    ensures forall x :: x in r <==> exists i :: 0 <= i < |codebook| && Kept(codebook[i]) && ToRule(codebook[i]) == x
  {
    if codebook == [] then []
    else
      var init := codebook[..|codebook| - 1];
      var last := codebook[|codebook| - 1];
      assert forall i :: 0 <= i < |init| ==> init[i] == codebook[i];
      KeptRules(init) + if Kept(last) then [ToRule(last)] else []
  }

  /** The filter keeps codebook order: one row gives its rule exactly when it is kept. */
  lemma {:induction false} KeptRulesAppend(a: seq<CodebookRow>, b: seq<CodebookRow>, x: CodebookRow)
    ensures KeptRules(a + b) == KeptRules(a) + KeptRules(b)
    ensures KeptRules([x]) == if Kept(x) then [ToRule(x)] else []
    decreases |b|
  {
    assert [x][..0] == [];
    if b == [] {
      assert a + b == a;
    } else {
      var c := a + b;
      var b' := b[..|b| - 1];
      var tail := if Kept(b[|b| - 1]) then [ToRule(b[|b| - 1])] else [];
      assert c[..|c| - 1] == a + b' && c[|c| - 1] == b[|b| - 1];
      assert KeptRules(c) == KeptRules(a + b') + tail;
      KeptRulesAppend(a, b', x);
      AppendAssociates(KeptRules(a), KeptRules(b'), tail);
    }
  }

  /** The rule's validation type is one of `types` (`df['type'].isin(types)`). */
  predicate OfType(r: Rule, types: set<string>) {
    r.validationType.Some? && r.validationType.value in types
  }

  function ConvertBound(b: Bound, convert: string -> Option<real>): (r: Result<Bound, Error>)
    ensures r.Failure? <==> b.RawBound? && convert(b.s).None?
    ensures r.Success? && b.RawBound? ==> r.value == Parsed(convert(b.s).value)
    ensures r.Success? && !b.RawBound? ==> r.value == b
  {
    match b
    case RawBound(s) =>
      if convert(s).Some? then Success(Parsed(convert(s).value)) else Failure(ValueError("Unable to parse bound"))
    case _ => Success(b)
  }

  /** Both bounds of one rule convert. */
  predicate BoundsConvert(r: Rule, convert: string -> Option<real>) {
    ConvertBound(r.min, convert).Success? && ConvertBound(r.max, convert).Success?
  }

  function FixRule(r: Rule, types: set<string>, convert: string -> Option<real>): Result<Rule, Error> {
    if !OfType(r, types) then Success(r)
    else
      var lo := ConvertBound(r.min, convert);
      var hi := ConvertBound(r.max, convert);
      if lo.Failure? then Failure(lo.error)
      else if hi.Failure? then Failure(hi.error)
      else Success(r.(min := lo.value, max := hi.value))
  }

  /**
   * `_fix_min_max_dtype`: converts `min` and `max` of the rows typed in `types`; the conversion
   * raises on a bound that does not convert.
   */
  function FixMinMax(rules: seq<Rule>, types: set<string>, convert: string -> Option<real>)
    : (r: Result<seq<Rule>, Error>)
    ensures r.Success? <==> forall i :: 0 <= i < |rules| && OfType(rules[i], types) ==> BoundsConvert(rules[i], convert)
    ensures r.Success? ==> |r.value| == |rules|
    ensures r.Success? ==> forall i :: 0 <= i < |rules| && !OfType(rules[i], types) ==> r.value[i] == rules[i]
    ensures r.Success? ==> forall i :: 0 <= i < |rules| && OfType(rules[i], types) ==>
      r.value[i] == rules[i].(min := ConvertBound(rules[i].min, convert).value, max := ConvertBound(rules[i].max, convert).value)
  {
    if rules == [] then Success([])
    else
      var init := rules[..|rules| - 1];
      var last := rules[|rules| - 1];
      assert forall i :: 0 <= i < |init| ==> init[i] == rules[i];
      var head := FixMinMax(init, types, convert);
      if head.Failure? then Failure(head.error)
      else
        var x := FixRule(last, types, convert);
        if x.Failure? then Failure(x.error) else Success(head.value + [x.value])
  }

  /** `replace({'y': True}).fillna(False)`. */
  function NormaliseRequired(q: Required): (r: Required)
    ensures r == IsTrue <==> q == Given("y") || q == IsTrue
    ensures r == IsFalse <==> q == Absent || q == IsFalse
    ensures q.Given? && q.s != "y" ==> r == q
  {
    match q
    case Absent => IsFalse
    case Given(s) => if s == "y" then IsTrue else q
    case _ => q
  }

  function NormaliseRules(rules: seq<Rule>): (r: seq<Rule>)
    ensures |r| == |rules|
    ensures forall i :: 0 <= i < |rules| ==> r[i] == rules[i].(required := NormaliseRequired(rules[i].required))
  {
    seq(|rules|, i requires 0 <= i < |rules| => rules[i].(required := NormaliseRequired(rules[i].required)))
  }

  /** The four dispatch lists. */
  datatype ListKind = NumericList | DateList | RequiredList | BranchingList

  predicate InList(k: ListKind, r: Rule) {
    match k
    case NumericList => OfType(r, NumericTypes)
    case DateList => OfType(r, DispatchedDateTypes)
    case RequiredList => r.required == IsTrue
    case BranchingList => r.branching.Some?
  }

  /** `_get_field_names_from_type` and the two mask selections: the field names of one list, in table order. */
  function FieldNames(rules: seq<Rule>, k: ListKind): (r: seq<string>)
    ensures |r| <= |rules|
    ensures forall x :: x in r <==> exists i :: 0 <= i < |rules| && InList(k, rules[i]) && rules[i].fieldName == x
  {
    if rules == [] then []
    else
      var init := rules[..|rules| - 1];
      var last := rules[|rules| - 1];
      assert forall i :: 0 <= i < |init| ==> init[i] == rules[i];
      FieldNames(init, k) + if InList(k, last) then [last.fieldName] else []
  }

  /** `cols_to_validate`. */
  datatype Dispatch = Dispatch(numeric: seq<string>, date: seq<string>, required: seq<string>, branching: seq<string>)

  function DispatchOf(rules: seq<Rule>): Dispatch {
    Dispatch(FieldNames(rules, NumericList), FieldNames(rules, DateList), FieldNames(rules, RequiredList),
      FieldNames(rules, BranchingList))
  }

  function RenameForm(name: string): string {
    if name == "dados_demograficos" then "identificacao" else name
  }

  function RenameField(name: string): string {
    if name == "ss_1" then "sintomas" else name
  }

  /** The instrument and field renames applied to the stored table. */
  function Renamed(rules: seq<Rule>): (r: seq<Rule>)
    ensures |r| == |rules|
    ensures forall i :: 0 <= i < |rules| ==>
      r[i] == rules[i].(fieldName := RenameField(rules[i].fieldName), formName := RenameForm(rules[i].formName))
  {
    seq(|rules|, i requires 0 <= i < |rules| =>
      rules[i].(fieldName := RenameField(rules[i].fieldName), formName := RenameForm(rules[i].formName)))
  }

  /** The table before the renames, or the exception a bound conversion raises. */
  function Prepared(codebook: seq<CodebookRow>, conv: Converters): Result<seq<Rule>, Error> {
    var kept := KeptRules(codebook);
    var numeric := FixMinMax(kept, NumericTypes, conv.numeric);
    if numeric.Failure? then Failure(numeric.error)
    else
      var dates := FixMinMax(numeric.value, DateTypes, conv.date);
      if dates.Failure? then Failure(dates.error)
      else Success(NormaliseRules(dates.value))
  }

  /** The stored table and its dispatch lists: the lists are taken before the renames. */
  datatype Validation = Validation(rules: seq<Rule>, lists: Dispatch)

  function BuildValidation(codebook: seq<CodebookRow>, conv: Converters): Result<Validation, Error> {
    var p := Prepared(codebook, conv);
    if p.Failure? then Failure(p.error) else Success(Validation(Renamed(p.value), DispatchOf(p.value)))
  }

  /** `b` is `a` after the bound conversions and the flag normalisation, which touch nothing else. */
  predicate Corresponds(a: Rule, b: Rule) {
    && b.fieldName == a.fieldName && b.formName == a.formName
    && b.validationType == a.validationType && b.branching == a.branching
    && b.required == NormaliseRequired(a.required)
  }

  /** Every prepared rule is the kept row at the same position with only bounds and flag changed. */
  lemma PreparedRows(codebook: seq<CodebookRow>, conv: Converters)
    requires Prepared(codebook, conv).Success?
    ensures var p := Prepared(codebook, conv).value;
      |p| == |KeptRules(codebook)| && forall i :: 0 <= i < |p| ==> Corresponds(KeptRules(codebook)[i], p[i])
  {
    var kept := KeptRules(codebook);
    var numeric := FixMinMax(kept, NumericTypes, conv.numeric).value;
    var dates := FixMinMax(numeric, DateTypes, conv.date).value;
    forall i | 0 <= i < |kept|
      ensures numeric[i].fieldName == kept[i].fieldName && numeric[i].formName == kept[i].formName
      ensures numeric[i].validationType == kept[i].validationType && numeric[i].branching == kept[i].branching
      ensures numeric[i].required == kept[i].required
    {
    }
  }

  /**
   * The bounds of `number`/`integer` rows go through numeric conversion, those of `date_mdy` and
   * `date_dmy` rows through date conversion, and all other bounds stay as text.
   */
  lemma PreparedBounds(codebook: seq<CodebookRow>, conv: Converters, i: nat)
    requires Prepared(codebook, conv).Success? && i < |KeptRules(codebook)|
    ensures var k := KeptRules(codebook)[i];
      var p := Prepared(codebook, conv).value;
      && |p| == |KeptRules(codebook)|
      && (OfType(k, NumericTypes) ==> (p[i].min, p[i].max) == (ConvertBound(k.min, conv.numeric).value, ConvertBound(k.max, conv.numeric).value))
      && (OfType(k, DateTypes) ==> (p[i].min, p[i].max) == (ConvertBound(k.min, conv.date).value, ConvertBound(k.max, conv.date).value))
      && (!OfType(k, NumericTypes) && !OfType(k, DateTypes) ==> p[i].min == k.min && p[i].max == k.max)
  {
    var kept := KeptRules(codebook);
    var numeric := FixMinMax(kept, NumericTypes, conv.numeric).value;
    assert numeric[i].validationType == kept[i].validationType;
  }

  /** A prepared rule is in a dispatch list exactly when its codebook row's column marks it. */
  lemma FlagsOfCorresponding(c: CodebookRow, b: Rule)
    requires Corresponds(ToRule(c), b)
    ensures forall k :: InList(k, b) <==> Flags(k, c)
  {
  }

  /** The codebook columns each dispatch list is read from. */
  predicate Flags(k: ListKind, c: CodebookRow) {
    match k
    case NumericList => c.validationType in NumericTypes
    case DateList => c.validationType in DispatchedDateTypes
    case RequiredList => c.requiredField == "y"
    case BranchingList => c.branchingLogic != ""
  }

  function ListOf(d: Dispatch, k: ListKind): seq<string> {
    match k
    case NumericList => d.numeric
    case DateList => d.date
    case RequiredList => d.required
    case BranchingList => d.branching
  }

  /** List membership of a prepared rule is read off the codebook row it came from. */
  lemma InListOfPrepared(codebook: seq<CodebookRow>, conv: Converters, k: ListKind, j: nat)
    requires Prepared(codebook, conv).Success? && j < |Prepared(codebook, conv).value|
    ensures var p := Prepared(codebook, conv).value;
      exists i :: 0 <= i < |codebook| && Kept(codebook[i]) && p[j].fieldName == codebook[i].fieldName
        && (InList(k, p[j]) <==> Flags(k, codebook[i]))
  {
    PreparedRows(codebook, conv);
    var kept := KeptRules(codebook);
    assert kept[j] in kept;
    var i :| 0 <= i < |codebook| && Kept(codebook[i]) && ToRule(codebook[i]) == kept[j];
    FlagsOfCorresponding(codebook[i], Prepared(codebook, conv).value[j]);
  }

  /** Every kept codebook row has a prepared rule. */
  lemma PreparedOfKept(codebook: seq<CodebookRow>, conv: Converters, i: nat)
    requires Prepared(codebook, conv).Success? && i < |codebook| && Kept(codebook[i])
    ensures var p := Prepared(codebook, conv).value;
      exists j :: 0 <= j < |p| && p[j].fieldName == codebook[i].fieldName && p[j].formName == codebook[i].formName
        && forall k :: InList(k, p[j]) <==> Flags(k, codebook[i])
  {
    PreparedRows(codebook, conv);
    var kept := KeptRules(codebook);
    assert ToRule(codebook[i]) in kept;
    var j :| 0 <= j < |kept| && kept[j] == ToRule(codebook[i]);
    FlagsOfCorresponding(codebook[i], Prepared(codebook, conv).value[j]);
  }

  /**
   * Each dispatch list holds exactly the names of the kept codebook rows its column marks:
   * `number`/`integer` fields, `date_dmy` fields, fields whose `required_field` is `y`, and
   * fields with branching logic.
   */
  lemma DispatchExact(codebook: seq<CodebookRow>, conv: Converters, k: ListKind, x: string)
    requires BuildValidation(codebook, conv).Success?
    ensures x in ListOf(BuildValidation(codebook, conv).value.lists, k) <==>
      exists i :: 0 <= i < |codebook| && Kept(codebook[i]) && Flags(k, codebook[i]) && codebook[i].fieldName == x
  {
    var p := Prepared(codebook, conv).value;
    assert ListOf(BuildValidation(codebook, conv).value.lists, k) == FieldNames(p, k);
    if x in FieldNames(p, k) {
      var j :| 0 <= j < |p| && InList(k, p[j]) && p[j].fieldName == x;
      InListOfPrepared(codebook, conv, k, j);
    }
    if exists i :: 0 <= i < |codebook| && Kept(codebook[i]) && Flags(k, codebook[i]) && codebook[i].fieldName == x {
      var i :| 0 <= i < |codebook| && Kept(codebook[i]) && Flags(k, codebook[i]) && codebook[i].fieldName == x;
      PreparedOfKept(codebook, conv, i);
    }
  }

  /** A stored rule carries the codebook row's names after the renames. */
  predicate NamedAfter(r: Rule, c: CodebookRow) {
    r.fieldName == RenameField(c.fieldName) && r.formName == RenameForm(c.formName)
  }

  /**
   * The stored table holds exactly the kept codebook rows, that is the text fields without
   * `@READONLY` whose name does not start with `resp_` and that have a step to check, with the
   * instrument and field renames applied.
   */
  lemma TableRowsExact(codebook: seq<CodebookRow>, conv: Converters)
    requires BuildValidation(codebook, conv).Success?
    ensures var rules := BuildValidation(codebook, conv).value.rules;
      && (forall j :: 0 <= j < |rules| ==> exists i :: 0 <= i < |codebook| && Kept(codebook[i]) && NamedAfter(rules[j], codebook[i]))
      && (forall i :: 0 <= i < |codebook| && Kept(codebook[i]) ==> exists j :: 0 <= j < |rules| && NamedAfter(rules[j], codebook[i]))
  {
    TableRowsFromCodebook(codebook, conv);
    TableRowsOfKept(codebook, conv);
  }

  lemma TableRowsFromCodebook(codebook: seq<CodebookRow>, conv: Converters)
    requires BuildValidation(codebook, conv).Success?
    ensures var rules := BuildValidation(codebook, conv).value.rules;
      forall j :: 0 <= j < |rules| ==> exists i :: 0 <= i < |codebook| && Kept(codebook[i]) && NamedAfter(rules[j], codebook[i])
  {
    var rules := BuildValidation(codebook, conv).value.rules;
    forall j | 0 <= j < |rules|
      ensures exists i :: 0 <= i < |codebook| && Kept(codebook[i]) && NamedAfter(rules[j], codebook[i])
    {
      TableRowFromCodebook(codebook, conv, j);
    }
  }

  lemma TableRowsOfKept(codebook: seq<CodebookRow>, conv: Converters)
    requires BuildValidation(codebook, conv).Success?
    ensures var rules := BuildValidation(codebook, conv).value.rules;
      forall i :: 0 <= i < |codebook| && Kept(codebook[i]) ==> exists j :: 0 <= j < |rules| && NamedAfter(rules[j], codebook[i])
  {
    var rules := BuildValidation(codebook, conv).value.rules;
    forall i | 0 <= i < |codebook| && Kept(codebook[i])
      ensures exists j :: 0 <= j < |rules| && NamedAfter(rules[j], codebook[i])
    {
      TableRowOfKept(codebook, conv, i);
    }
  }

  lemma TableRowFromCodebook(codebook: seq<CodebookRow>, conv: Converters, j: nat)
    requires BuildValidation(codebook, conv).Success? && j < |BuildValidation(codebook, conv).value.rules|
    ensures exists i :: 0 <= i < |codebook| && Kept(codebook[i]) && NamedAfter(BuildValidation(codebook, conv).value.rules[j], codebook[i])
  {
    var p := Prepared(codebook, conv).value;
    PreparedRows(codebook, conv);
    var kept := KeptRules(codebook);
    assert kept[j] in kept;
    var i :| 0 <= i < |codebook| && Kept(codebook[i]) && ToRule(codebook[i]) == kept[j];
    assert NamedAfter(Renamed(p)[j], codebook[i]);
  }

  lemma TableRowOfKept(codebook: seq<CodebookRow>, conv: Converters, i: nat)
    requires BuildValidation(codebook, conv).Success? && i < |codebook| && Kept(codebook[i])
    ensures var rules := BuildValidation(codebook, conv).value.rules;
      exists j :: 0 <= j < |rules| && NamedAfter(rules[j], codebook[i])
  {
    var p := Prepared(codebook, conv).value;
    PreparedOfKept(codebook, conv, i);
    var j :| 0 <= j < |p| && p[j].fieldName == codebook[i].fieldName && p[j].formName == codebook[i].formName;
    assert NamedAfter(Renamed(p)[j], codebook[i]);
  }

  /** Bounds of `date_mdy` fields are converted, but such a field is never dispatched to a check. */
  lemma DateMdyNotDispatched(codebook: seq<CodebookRow>, conv: Converters, x: string)
    requires BuildValidation(codebook, conv).Success?
    requires forall i :: 0 <= i < |codebook| && codebook[i].fieldName == x ==> codebook[i].validationType == "date_mdy"
    ensures var d := BuildValidation(codebook, conv).value.lists;
      x !in d.numeric && x !in d.date
  {
    DispatchExact(codebook, conv, NumericList, x);
    DispatchExact(codebook, conv, DateList, x);
  }

  /**
   * The field rename happens after the dispatch lists are taken, so a kept `ss_1` number field shows
   * up in the table as `sintomas`, a name neither check list holds.
   */
  lemma RenamedFieldUnchecked(codebook: seq<CodebookRow>, conv: Converters)
    requires BuildValidation(codebook, conv).Success?
    requires forall i :: 0 <= i < |codebook| ==> codebook[i].fieldName != "sintomas"
    ensures var d := BuildValidation(codebook, conv).value.lists;
      "sintomas" !in d.numeric && "sintomas" !in d.date
  {
    DispatchExact(codebook, conv, NumericList, "sintomas");
    DispatchExact(codebook, conv, DateList, "sintomas");
  }
}
