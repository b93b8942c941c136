/**
 * The outlier engine: per-field type and range checks over the forms, each violation batch
 * appended to the outlier table, then status labelling and the optional filter to complete
 * records. The functions specify one call each; the class `Outliers` holds the engine's state
 * and its methods are proved to follow them.
 */
module OutlierEngine {
  import opened Wrappers
  import opened Text
  import opened Frames
  import opened ValidationTable

  const DataTypeMessage := "data_type must be either 'numeric' or 'date'"

  predicate KnownType(dataType: string) { dataType == "numeric" || dataType == "date" }

  function Converter(conv: Converters, dataType: string): string -> Option<real> {
    if dataType == "numeric" then conv.numeric else conv.date
  }

  /** `to_numeric`/`to_datetime` with `errors='coerce'` on one cell; a null cell has no value. */
  function Coerce(v: Value, convert: string -> Option<real>): Option<real> {
    match v
    case Null => None
    case Str(s) => convert(s)
    case Num(n) => Some(n as real)
  }

  /** Inclusive bounds: `between` when both are given, `>=` or `<=` when only one is. */
  predicate InRange(x: real, lo: Bound, hi: Bound) {
    (lo.Parsed? ==> lo.x <= x) && (hi.Parsed? ==> x <= hi.x)
  }

  /** A value equal to a bound is inside the range. */
  lemma BoundsAreInclusive(lo: real, hi: real)
    requires lo <= hi
    ensures InRange(lo, Parsed(lo), Parsed(hi)) && InRange(hi, Parsed(lo), Parsed(hi))
    ensures InRange(lo, Parsed(lo), NoBound) && InRange(hi, NoBound, Parsed(hi))
  {
  }

  /** The per-row test of one check. */
  datatype Test =
    | TypeTest(column: string, convert: string -> Option<real>)
    | RangeTest(column: string, convert: string -> Option<real>, lo: Bound, hi: Bound)

  /**
   * A row fails the type test when its cell is not null and does not convert; it fails the range
   * test when its cell converts to a value outside the bounds. Null or unconvertible cells pass
   * the range test.
   */
  predicate Fails(r: Row, t: Test) {
    var c := Coerce(Cell(r, t.column), t.convert);
    match t
    case TypeTest(_, _) => Cell(r, t.column) != Null && c.None?
    case RangeTest(_, _, lo, hi) => c.Some? && !InRange(c.value, lo, hi)
  }

  /** `df.loc[~mask, 'record_id'].tolist()`: the record ids of the failing rows, in table order. */
  function FailingIds(rows: seq<Row>, t: Test): (r: seq<string>)
    ensures |r| <= |rows|
    ensures forall x :: x in r <==> exists i :: 0 <= i < |rows| && Fails(rows[i], t) && rows[i].recordId == x
  {
    if rows == [] then []
    else
      var init := rows[..|rows| - 1];
      var last := rows[|rows| - 1];
      assert forall i :: 0 <= i < |init| ==> init[i] == rows[i];
      FailingIds(init, t) + if Fails(last, t) then [last.recordId] else []
  }

  /**
   * The id list keeps table order and lists an id once per failing row: one row gives its id
   * exactly when it fails, and the list of a concatenation is the concatenation of the lists.
   */
  lemma {:induction false} FailingIdsAppend(a: seq<Row>, b: seq<Row>, t: Test, x: Row)
    ensures FailingIds(a + b, t) == FailingIds(a, t) + FailingIds(b, t)
    ensures FailingIds([x], t) == if Fails(x, t) then [x.recordId] else []
    decreases |b|
  {
    assert [x][..0] == [];
    if b == [] {
      assert a + b == a;
    } else {
      var c := a + b;
      var b' := b[..|b| - 1];
      var tail := if Fails(b[|b| - 1], t) then [b[|b| - 1].recordId] else [];
      assert c[..|c| - 1] == a + b' && c[|c| - 1] == b[|b| - 1];
      assert FailingIds(c, t) == FailingIds(a + b', t) + tail;
      FailingIdsAppend(a, b', t, x);
      AppendAssociates(FailingIds(a, t), FailingIds(b', t), tail);
    }
  }

  /** The frame after one call, the outlier table after it, and the exception it raised. */
  datatype Step = Step(form: Form, outs: seq<OutlierRow>, err: Option<Error>)

  /**
   * `Outliers.process_invalid_records`: nothing happens for an empty key list; otherwise the
   * extraction runs without a form name and its batch is appended to the table.
   */
  function RecordStep(df: Form, outs: seq<OutlierRow>, column: string, keys: Keys, reason: string): (s: Step)
    ensures outs <= s.outs && SameData(df, s.form)
    ensures KeyCount(keys) == 0 ==> s == Step(df, outs, None)
    ensures var x := Extract(df, column, keys, reason, None);
      KeyCount(keys) > 0 ==> s.form == x.form && (s.err.None? <==> x.batch.Success?)
    ensures var x := Extract(df, column, keys, reason, None);
      KeyCount(keys) > 0 && x.batch.Success? ==> s.outs[|outs|..] == x.batch.value
    ensures s.err.Some? ==> s.outs == outs
    ensures forall o :: o in s.outs[|outs|..] ==> o.fieldName == column && o.reason == reason && o.formName.None?
  {
    if KeyCount(keys) == 0 then Step(df, outs, None)
    else
      var x := Extract(df, column, keys, reason, None);
      match x.batch
      case Failure(e) => Step(x.form, outs, Some(e))
      case Success(batch) =>
        assert (outs + batch)[|outs|..] == batch;
        Step(x.form, outs + batch, None)
  }

  function TypeReason(dataType: string): string { "Invalid data type (" + dataType + ")" }

  function RangeReason(dataType: string): string { "Value outside of range (" + dataType + ")" }

  /** `check_dtype`. */
  function CheckDtypeStep(df: Form, outs: seq<OutlierRow>, column: string, dataType: string, conv: Converters): (s: Step)
    ensures outs <= s.outs && SameData(df, s.form)
    ensures !KnownType(dataType) ==> s == Step(df, outs, Some(ValueError(DataTypeMessage)))
    ensures KnownType(dataType) && column !in df.columns ==> s == Step(df, outs, Some(KeyError(column)))
    ensures KnownType(dataType) && column in df.columns ==>
      var ids := FailingIds(df.rows, TypeTest(column, Converter(conv, dataType)));
      s == RecordStep(df, outs, column, Ids(ids), TypeReason(dataType))
    ensures forall o :: o in s.outs[|outs|..] ==> o.fieldName == column && o.reason == TypeReason(dataType)
  {
    if !KnownType(dataType) then Step(df, outs, Some(ValueError(DataTypeMessage)))
    else if column !in df.columns then Step(df, outs, Some(KeyError(column)))
    else
      var ids := FailingIds(df.rows, TypeTest(column, Converter(conv, dataType)));
      if ids == [] then Step(df, outs, None) else RecordStep(df, outs, column, Ids(ids), TypeReason(dataType))
  }

  /**
   * The bound pandas compares the series with. A bound still in text form is parsed as a
   * timestamp when the series holds dates; a text bound that cannot be parsed so, and any text
   * bound against numbers, stays text, and the comparison then raises `TypeError`.
   */
  function ComparedBound(b: Bound, dataType: string, conv: Converters): (r: Bound)
    ensures r.RawBound? <==> b.RawBound? && (dataType != "date" || conv.date(b.s).None?)
    ensures r.RawBound? ==> r == b
    ensures b.RawBound? && !r.RawBound? ==> r == Parsed(conv.date(b.s).value)
    ensures !b.RawBound? ==> r == b
  {
    if b.RawBound? && dataType == "date" && conv.date(b.s).Some? then Parsed(conv.date(b.s).value) else b
  }

  /** `check_range`; a bound pandas cannot compare with the series fails with a `TypeError`. */
  function CheckRangeStep(df: Form, outs: seq<OutlierRow>, column: string, dataType: string, lo: Bound, hi: Bound,
                          conv: Converters): (s: Step)
    ensures outs <= s.outs && SameData(df, s.form)
    ensures lo.NoBound? && hi.NoBound? ==> s == Step(df, outs, None)
    ensures !(lo.NoBound? && hi.NoBound?) && !KnownType(dataType) ==> s == Step(df, outs, Some(ValueError(DataTypeMessage)))
    ensures !(lo.NoBound? && hi.NoBound?) && KnownType(dataType) && column !in df.columns ==>
      s == Step(df, outs, Some(KeyError(column)))
    ensures !(lo.NoBound? && hi.NoBound?) && KnownType(dataType) && column in df.columns ==>
      var l, h := ComparedBound(lo, dataType, conv), ComparedBound(hi, dataType, conv);
      && (l.RawBound? || h.RawBound? ==> s == Step(df, outs, Some(TypeError)))
      && (!l.RawBound? && !h.RawBound? ==>
           var ids := FailingIds(df.rows, RangeTest(column, Converter(conv, dataType), l, h));
           s == RecordStep(df, outs, column, Ids(ids), RangeReason(dataType)))
    ensures forall o :: o in s.outs[|outs|..] ==> o.fieldName == column && o.reason == RangeReason(dataType)
  {
    if lo.NoBound? && hi.NoBound? then Step(df, outs, None)
    else if !KnownType(dataType) then Step(df, outs, Some(ValueError(DataTypeMessage)))
    else if column !in df.columns then Step(df, outs, Some(KeyError(column)))
    else
      var l, h := ComparedBound(lo, dataType, conv), ComparedBound(hi, dataType, conv);
      if l.RawBound? || h.RawBound? then Step(df, outs, Some(TypeError))
      else
        var ids := FailingIds(df.rows, RangeTest(column, Converter(conv, dataType), l, h));
        if ids == [] then Step(df, outs, None) else RecordStep(df, outs, column, Ids(ids), RangeReason(dataType))
  }

  /** On dates, a text bound pandas can parse acts exactly as the parsed bound. */
  lemma DateTextBoundParsed(df: Form, outs: seq<OutlierRow>, column: string, lo: string, hi: Bound, conv: Converters)
    requires conv.date(lo).Some?
    ensures CheckRangeStep(df, outs, column, "date", RawBound(lo), hi, conv)
         == CheckRangeStep(df, outs, column, "date", Parsed(conv.date(lo).value), hi, conv)
  {
  }

  /** A text bound against numbers, or an unparseable one against dates, raises `TypeError` once the column exists. */
  lemma TextBoundRaises(df: Form, outs: seq<OutlierRow>, column: string, dataType: string, lo: string, hi: Bound,
                        conv: Converters)
    requires KnownType(dataType) && column in df.columns
    requires dataType == "numeric" || conv.date(lo).None?
    ensures CheckRangeStep(df, outs, column, dataType, RawBound(lo), hi, conv) == Step(df, outs, Some(TypeError))
  {
  }

  /**
   * A check only reports records that fail it: each new outlier row belongs to a record id with at
   * least one failing row, so a record whose cells are all null never gets a type outlier.
   */
  lemma RecordedRowsFail(df: Form, outs: seq<OutlierRow>, column: string, t: Test, reason: string)
    requires RecordStep(df, outs, column, Ids(FailingIds(df.rows, t)), reason).err.None?
    ensures var s := RecordStep(df, outs, column, Ids(FailingIds(df.rows, t)), reason);
      forall o :: o in s.outs[|outs|..] ==>
        o.fieldName == column && o.reason == reason && exists i :: 0 <= i < |df.rows| && Fails(df.rows[i], t) && df.rows[i].recordId == o.recordId
  {
    var ids := FailingIds(df.rows, t);
    var s := RecordStep(df, outs, column, Ids(ids), reason);
    if |ids| > 0 {
      var x := Extract(df, column, Ids(ids), reason, None);
      ExtractSelectsFlaggedRows(df, column, Ids(ids), reason, None);
      forall o | o in s.outs[|outs|..]
        ensures exists i :: 0 <= i < |df.rows| && Fails(df.rows[i], t) && df.rows[i].recordId == o.recordId
      {
        var i :| 0 <= i < |df.rows| && Matches(x.form.rows[i], Ids(ids))
          && o == TagRow(x.form.rows[i], column, LastCompleteColumn(df.columns).value, reason, None);
        assert x.form.rows[i].recordId == df.rows[i].recordId;
      }
    }
  }

  /** `check_dtype` never reports a record all of whose cells in the column are null. */
  lemma CheckDtypeSkipsNullRecords(df: Form, outs: seq<OutlierRow>, column: string, dataType: string, conv: Converters, id: string)
    requires CheckDtypeStep(df, outs, column, dataType, conv).err.None?
    requires forall i :: 0 <= i < |df.rows| && df.rows[i].recordId == id ==> Cell(df.rows[i], column) == Null
    ensures forall o :: o in CheckDtypeStep(df, outs, column, dataType, conv).outs[|outs|..] ==> o.recordId != id
  {
    var t := TypeTest(column, Converter(conv, dataType));
    if FailingIds(df.rows, t) != [] {
      RecordedRowsFail(df, outs, column, t, TypeReason(dataType));
    }
  }

  /** The engine's mutable state: the forms (checks may add the instance column) and the outlier table. */
  datatype State = State(forms: map<string, Form>, outs: seq<OutlierRow>)

  datatype Outcome = Outcome(st: State, err: Option<Error>)

  /** `validation_df[form_name_mask]['field_name']`: the fields of one instrument, in table order. */
  function FieldsOf(rules: seq<Rule>, formName: string): (r: seq<string>)
    ensures |r| <= |rules|
    ensures forall x :: x in r <==> exists i :: 0 <= i < |rules| && rules[i].formName == formName && rules[i].fieldName == x
  {
    if rules == [] then []
    else
      var init := rules[..|rules| - 1];
      var last := rules[|rules| - 1];
      assert forall i :: 0 <= i < |init| ==> init[i] == rules[i];
      FieldsOf(init, formName) + if last.formName == formName then [last.fieldName] else []
  }

  /** The field list keeps table order: one rule gives its field exactly when it is of the form. */
  lemma {:induction false} FieldsOfAppend(a: seq<Rule>, b: seq<Rule>, formName: string, x: Rule)
    ensures FieldsOf(a + b, formName) == FieldsOf(a, formName) + FieldsOf(b, formName)
    ensures FieldsOf([x], formName) == if x.formName == formName then [x.fieldName] else []
    decreases |b|
  {
    assert [x][..0] == [];
    if b == [] {
      assert a + b == a;
    } else {
      var c := a + b;
      var b' := b[..|b| - 1];
      var tail := if b[|b| - 1].formName == formName then [b[|b| - 1].fieldName] else [];
      assert c[..|c| - 1] == a + b' && c[|c| - 1] == b[|b| - 1];
      assert FieldsOf(c, formName) == FieldsOf(a + b', formName) + tail;
      FieldsOfAppend(a, b', formName, x);
      AppendAssociates(FieldsOf(a, formName), FieldsOf(b', formName), tail);
    }
  }

  /** `rules[i]` is the first rule named `column`. */
  predicate FirstNamed(rules: seq<Rule>, i: nat, column: string)
    requires i < |rules|
  {
    rules[i].fieldName == column && forall j :: 0 <= j < i ==> rules[j].fieldName != column
  }

  /** `field_info`: the first rule with this field name anywhere in the table, if there is one. */
  function InfoOf(rules: seq<Rule>, column: string): (r: Option<Rule>)
    ensures r.None? <==> forall i :: 0 <= i < |rules| ==> rules[i].fieldName != column
    ensures r.Some? ==> exists i :: 0 <= i < |rules| && rules[i] == r.value && FirstNamed(rules, i, column)
  {
    if rules == [] then None
    else if rules[0].fieldName == column then Some(rules[0])
    else
      var r := InfoOf(rules[1..], column);
      assert forall i :: 0 < i < |rules| ==> rules[i] == rules[1..][i - 1];
      assert r.Some? ==> exists i :: 0 < i < |rules| && rules[i] == r.value && FirstNamed(rules, i, column) by {
        if r.Some? {
          var i :| 0 <= i < |rules[1..]| && rules[1..][i] == r.value && FirstNamed(rules[1..], i, column);
          assert FirstNamed(rules, i + 1, column);
        }
      }
      r
  }

  /** The check a field gets: numeric before date, nothing when it is in neither list. */
  function DispatchType(lists: Dispatch, column: string): Option<string> {
    if column in lists.numeric then Some("numeric")
    else if column in lists.date then Some("date")
    else None
  }

  /** The table only grows and the forms keep their keys and their data. */
  predicate Grows(st: State, st': State) {
    && st.outs <= st'.outs
    && st'.forms.Keys == st.forms.Keys
    && forall n :: n in st.forms ==> SameData(st.forms[n], st'.forms[n])
  }

  lemma GrowsTransitive(st0: State, st1: State, st2: State)
    requires Grows(st0, st1) && Grows(st1, st2)
    ensures Grows(st0, st2)
  {
  }

  /** ... and only the named form changes. */
  predicate Evolves(st: State, st': State, name: string) {
    && Grows(st, st')
    && forall n :: n in st.forms && n != name ==> st'.forms[n] == st.forms[n]
  }

  /** One iteration of the inner loop of `generate_outliers`: type check, then range check. */
  function CheckField(st: State, name: string, column: string, v: Validation, conv: Converters): (r: Outcome)
    requires name in st.forms
    ensures Evolves(st, r.st, name)
    ensures InfoOf(v.rules, column).None? ==> r == Outcome(st, Some(IndexError))
    ensures DispatchType(v.lists, column).None? ==> r.st == st
    ensures forall o :: o in r.st.outs[|st.outs|..] ==>
      o.fieldName == column && DispatchType(v.lists, column).Some?
      && o.reason in {TypeReason("numeric"), TypeReason("date"), RangeReason("numeric"), RangeReason("date")}
  {
    var info := InfoOf(v.rules, column);
    if info.None? then Outcome(st, Some(IndexError))
    else match DispatchType(v.lists, column)
      case None => Outcome(st, None)
      case Some(t) =>
        assert t == "numeric" || t == "date";
        BothChecksRows(st, name, column, t, info.value.min, info.value.max, conv);
        BothChecks(st, name, column, t, info.value.min, info.value.max, conv)
  }

  /** `check_dtype`, then, unless it raised, `check_range`, on the form `name`. */
  function BothChecks(st: State, name: string, column: string, t: string, lo: Bound, hi: Bound, conv: Converters): (r: Outcome)
    requires name in st.forms
    ensures Evolves(st, r.st, name)
  {
    var s1 := CheckDtypeStep(st.forms[name], st.outs, column, t, conv);
    if s1.err.Some? then Outcome(State(st.forms[name := s1.form], s1.outs), s1.err)
    else
      var s2 := CheckRangeStep(s1.form, s1.outs, column, t, lo, hi, conv);
      Outcome(State(st.forms[name := s2.form], s2.outs), s2.err)
  }

  /** The rows the two checks add name the field and carry one of the two reasons. */
  lemma BothChecksRows(st: State, name: string, column: string, t: string, lo: Bound, hi: Bound, conv: Converters)
    requires name in st.forms
    ensures var r := BothChecks(st, name, column, t, lo, hi, conv);
      forall o :: o in r.st.outs[|st.outs|..] ==> o.fieldName == column && (o.reason == TypeReason(t) || o.reason == RangeReason(t))
  {
    var s1 := CheckDtypeStep(st.forms[name], st.outs, column, t, conv);
    if s1.err.None? {
      var s2 := CheckRangeStep(s1.form, s1.outs, column, t, lo, hi, conv);
      NewRowsAppend(st.outs, s1.outs, s2.outs, column, t);
    }
  }

  /** Rows added in two steps, each naming the field with its reason, are all so named. */
  lemma NewRowsAppend(outs0: seq<OutlierRow>, outs1: seq<OutlierRow>, outs2: seq<OutlierRow>, column: string, t: string)
    requires outs0 <= outs1 <= outs2
    requires forall o :: o in outs1[|outs0|..] ==> o.fieldName == column && o.reason == TypeReason(t)
    requires forall o :: o in outs2[|outs1|..] ==> o.fieldName == column && o.reason == RangeReason(t)
    ensures forall o :: o in outs2[|outs0|..] ==> o.fieldName == column && (o.reason == TypeReason(t) || o.reason == RangeReason(t))
  {
    assert outs2[|outs0|..] == outs1[|outs0|..] + outs2[|outs1|..];
  }

  /** The field is dispatched and its type check passes, so both checks run. */
  lemma CheckFieldBothChecks(st: State, name: string, column: string, v: Validation, conv: Converters)
    requires name in st.forms
    requires InfoOf(v.rules, column).Some? && DispatchType(v.lists, column).Some?
    requires CheckDtypeStep(st.forms[name], st.outs, column, DispatchType(v.lists, column).value, conv).err.None?
    ensures var t := DispatchType(v.lists, column).value;
      var info := InfoOf(v.rules, column).value;
      var s1 := CheckDtypeStep(st.forms[name], st.outs, column, t, conv);
      var s2 := CheckRangeStep(s1.form, s1.outs, column, t, info.min, info.max, conv);
      CheckField(st, name, column, v, conv) == Outcome(State(st.forms[name := s2.form], s2.outs), s2.err)
  {
  }

  /** The inner loop over the fields `cols` of the form `name`, stopping at the first exception. */
  function RunFields(st: State, name: string, cols: seq<string>, v: Validation, conv: Converters): (r: Outcome)
    requires name in st.forms
    ensures Evolves(st, r.st, name)
    decreases |cols|
  {
    if cols == [] then Outcome(st, None)
    else
      var p := RunFields(st, name, cols[..|cols| - 1], v, conv);
      if p.err.Some? then p
      else
        var c := CheckField(p.st, name, cols[|cols| - 1], v, conv);
        GrowsTransitive(st, p.st, c.st);
        c
  }

  /** The outer loop over the forms `names`, each with the fields the table assigns it. */
  function RunForms(st: State, names: seq<string>, v: Validation, conv: Converters): (r: Outcome)
    requires forall n :: n in names ==> n in st.forms
    ensures Grows(st, r.st)
    ensures forall n :: n in st.forms && n !in names ==> r.st.forms[n] == st.forms[n]
    decreases |names|
  {
    if names == [] then Outcome(st, None)
    else
      var init := names[..|names| - 1];
      var name := names[|names| - 1];
      assert forall n :: n in init ==> n in names;
      var p := RunForms(st, init, v, conv);
      if p.err.Some? then p
      else
        var q := RunFields(p.st, name, FieldsOf(v.rules, name), v, conv);
        GrowsTransitive(st, p.st, q.st);
        q
  }

  /** One more iteration of the fields loop. */
  lemma RunFieldsNext(st: State, name: string, cols: seq<string>, j: nat, v: Validation, conv: Converters)
    requires name in st.forms && j < |cols|
    ensures var p := RunFields(st, name, cols[..j], v, conv);
      RunFields(st, name, cols[..j + 1], v, conv) == if p.err.Some? then p else CheckField(p.st, name, cols[j], v, conv)
  {
    assert cols[..j + 1][..j] == cols[..j];
  }

  /** One more iteration of the forms loop. */
  lemma RunFormsNext(st: State, names: seq<string>, k: nat, v: Validation, conv: Converters)
    requires forall n :: n in names ==> n in st.forms
    requires k < |names|
    ensures forall n :: n in names[..k] ==> n in st.forms
    ensures var p := RunForms(st, names[..k], v, conv);
      RunForms(st, names[..k + 1], v, conv) == if p.err.Some? then p else RunFields(p.st, names[k], FieldsOf(v.rules, names[k]), v, conv)
  {
    assert names[..k + 1][..k] == names[..k];
    assert forall n :: n in names[..k] ==> n in names;
  }

  /** Once a field raises, the later fields of the form are not checked. */
  lemma {:induction false} RunFieldsStops(st: State, name: string, cols: seq<string>, k: nat, v: Validation, conv: Converters)
    requires name in st.forms && k <= |cols|
    requires RunFields(st, name, cols[..k], v, conv).err.Some?
    ensures RunFields(st, name, cols, v, conv) == RunFields(st, name, cols[..k], v, conv)
    decreases |cols| - k
  {
    if k < |cols| {
      var init := cols[..|cols| - 1];
      assert init[..k] == cols[..k];
      RunFieldsStops(st, name, init, k, v, conv);
    } else {
      assert cols[..k] == cols;
    }
  }

  /** Once a form raises, the later forms are not checked. */
  lemma {:induction false} RunFormsStops(st: State, names: seq<string>, k: nat, v: Validation, conv: Converters)
    requires forall n :: n in names ==> n in st.forms
    requires k <= |names| && RunForms(st, names[..k], v, conv).err.Some?
    ensures RunForms(st, names, v, conv) == RunForms(st, names[..k], v, conv)
    decreases |names| - k
  {
    assert forall n :: n in names[..k] ==> n in names;
    if k < |names| {
      var init := names[..|names| - 1];
      assert init[..k] == names[..k];
      assert forall n :: n in init ==> n in names;
      RunFormsStops(st, init, k, v, conv);
    } else {
      assert names[..k] == names;
    }
  }

  /** The labels `generate_outliers` gives the form status codes. */
  function StatusLabel(v: Value): (r: Value)
    ensures v == Num(0) ==> r == Str("incomplete")
    ensures v == Num(1) ==> r == Str("unverified")
    ensures r == Str("complete") <==> v == Num(2) || v == Str("complete")
    ensures v !in {Num(0), Num(1), Num(2)} ==> r == v
  {
    match v
    case Num(0) => Str("incomplete")
    case Num(1) => Str("unverified")
    case Num(2) => Str("complete")
    case _ => v
  }

  function Relabel(outs: seq<OutlierRow>): (r: seq<OutlierRow>)
    ensures |r| == |outs|
    ensures forall i :: 0 <= i < |outs| ==> r[i] == outs[i].(formStatus := StatusLabel(outs[i].formStatus))
  {
    seq(|outs|, i requires 0 <= i < |outs| => outs[i].(formStatus := StatusLabel(outs[i].formStatus)))
  }

  function CompleteOnly(outs: seq<OutlierRow>): (r: seq<OutlierRow>)
    ensures |r| <= |outs|
    ensures forall o :: o in r <==> o in outs && o.formStatus == Str("complete")
  {
    if outs == [] then []
    else (if outs[0].formStatus == Str("complete") then [outs[0]] else []) + CompleteOnly(outs[1..])
  }

  /** The filter keeps order and multiplicity: one row stays exactly when it is complete. */
  lemma {:induction false} CompleteOnlyAppend(a: seq<OutlierRow>, b: seq<OutlierRow>, x: OutlierRow)
    ensures CompleteOnly(a + b) == CompleteOnly(a) + CompleteOnly(b)
    ensures CompleteOnly([x]) == if x.formStatus == Str("complete") then [x] else []
  {
    assert [x][1..] == [];
    if a == [] {
      assert a + b == b;
    } else {
      var head := if a[0].formStatus == Str("complete") then [a[0]] else [];
      assert (a + b)[0] == a[0] && (a + b)[1..] == a[1..] + b;
      assert CompleteOnly(a + b) == head + CompleteOnly(a[1..] + b);
      CompleteOnlyAppend(a[1..], b, x);
      AppendAssociates(head, CompleteOnly(a[1..]), CompleteOnly(b));
    }
  }

  /** The formatting at the end of `generate_outliers`: status labels, then the optional filter. */
  function Finalize(outs: seq<OutlierRow>, filterIncomplete: bool): seq<OutlierRow> {
    if filterIncomplete then CompleteOnly(Relabel(outs)) else Relabel(outs)
  }

  /**
   * With the filter on, exactly the rows whose status is 2 (or already labelled complete) remain,
   * all labelled `complete`; with it off, every row is kept with its status labelled.
   */
  lemma FinalizeKeepsComplete(outs: seq<OutlierRow>, filterIncomplete: bool)
    ensures filterIncomplete ==> forall o :: o in Finalize(outs, true) ==> o.formStatus == Str("complete")
    ensures filterIncomplete ==> forall i :: 0 <= i < |outs| ==>
      (outs[i].formStatus in {Num(2), Str("complete")} <==> Relabel(outs)[i] in Finalize(outs, true))
    ensures !filterIncomplete ==> |Finalize(outs, false)| == |outs|
  {
    var r := Relabel(outs);
    forall i | 0 <= i < |outs|
      ensures outs[i].formStatus in {Num(2), Str("complete")} <==> r[i] in Finalize(outs, true)
    {
      assert r[i] in r;
    }
  }

  /** A row reported in a suffix of the table is reported at some index of the table. */
  lemma ReportedAt(outs: seq<OutlierRow>, from: nat, r: Row, column: string, reason: string)
    requires from <= |outs| && ReportedIn(outs[from..], r, column, reason)
    ensures exists m :: from <= m < |outs| && Reports(outs[m], r, column, reason)
  {
    var o :| o in outs[from..] && Reports(o, r, column, reason);
    var k :| 0 <= k < |outs[from..]| && outs[from..][k] == o;
    assert outs[from + k] == o;
  }

  /** The formatting keeps each row, relabelled, unless the filter is on and the row is not complete. */
  lemma FinalizeKeepsRow(outs: seq<OutlierRow>, m: nat, filterIncomplete: bool)
    requires m < |outs|
    ensures var o := outs[m].(formStatus := StatusLabel(outs[m].formStatus));
      !filterIncomplete || o.formStatus == Str("complete") ==> o in Finalize(outs, filterIncomplete)
  {
    var rel := Relabel(outs);
    assert rel[m] in rel;
  }

  /** `generate_outliers`: the nested loops, then, unless one raised, the formatting. */
  function Generate(st: State, names: seq<string>, v: Validation, conv: Converters, filterIncomplete: bool): (r: Outcome)
    requires forall n :: n in names ==> n in st.forms
  {
    var p := RunForms(st, names, v, conv);
    if p.err.Some? then p else Outcome(p.st.(outs := Finalize(p.st.outs, filterIncomplete)), None)
  }

  /** An outlier row a check can produce: a dispatched field and one of the four reasons. */
  predicate Reasoned(o: OutlierRow, v: Validation) {
    && o.reason in {TypeReason("numeric"), TypeReason("date"), RangeReason("numeric"), RangeReason("date")}
    && DispatchType(v.lists, o.fieldName).Some?
  }

  /** ... and the field belongs, by the validation table, to one of the forms `names`. */
  predicate Checked(o: OutlierRow, v: Validation, names: seq<string>) {
    Reasoned(o, v) && exists n :: n in names && o.fieldName in FieldsOf(v.rules, n)
  }

  /** The fields loop only adds rows for the fields it visits. */
  lemma {:induction false} RunFieldsRows(st: State, name: string, cols: seq<string>, v: Validation, conv: Converters)
    requires name in st.forms
    ensures var r := RunFields(st, name, cols, v, conv);
      forall o :: o in r.st.outs[|st.outs|..] ==> o.fieldName in cols && Reasoned(o, v)
    decreases |cols|
  {
    var r := RunFields(st, name, cols, v, conv);
    if cols != [] {
      var init := cols[..|cols| - 1];
      var p := RunFields(st, name, init, v, conv);
      RunFieldsRows(st, name, init, v, conv);
      if p.err.None? {
        assert r == CheckField(p.st, name, cols[|cols| - 1], v, conv);
        AppendFieldRows(st.outs, p.st.outs, r.st.outs, cols, v);
      }
    }
  }

  /** Rows of the earlier fields, then rows of the last field, are rows of the fields `cols`. */
  lemma AppendFieldRows(outs0: seq<OutlierRow>, outs1: seq<OutlierRow>, outs2: seq<OutlierRow>, cols: seq<string>, v: Validation)
    requires cols != [] && outs0 <= outs1 <= outs2
    requires forall o :: o in outs1[|outs0|..] ==> o.fieldName in cols[..|cols| - 1] && Reasoned(o, v)
    requires forall o :: o in outs2[|outs1|..] ==>
      o.fieldName == cols[|cols| - 1] && DispatchType(v.lists, o.fieldName).Some?
      && o.reason in {TypeReason("numeric"), TypeReason("date"), RangeReason("numeric"), RangeReason("date")}
    ensures forall o :: o in outs2[|outs0|..] ==> o.fieldName in cols && Reasoned(o, v)
  {
    assert outs2[|outs0|..] == outs1[|outs0|..] + outs2[|outs1|..];
    assert cols == cols[..|cols| - 1] + [cols[|cols| - 1]];
  }

  /** Rows checked for earlier forms, followed by rows of the next form's fields, are all checked. */
  lemma ExtendChecked(outs0: seq<OutlierRow>, outs1: seq<OutlierRow>, outs2: seq<OutlierRow>, v: Validation, names: seq<string>)
    requires names != [] && outs0 <= outs1 <= outs2
    requires forall o :: o in outs1[|outs0|..] ==> Checked(o, v, names[..|names| - 1])
    requires forall o :: o in outs2[|outs1|..] ==> o.fieldName in FieldsOf(v.rules, names[|names| - 1]) && Reasoned(o, v)
    ensures forall o :: o in outs2[|outs0|..] ==> Checked(o, v, names)
  {
    assert outs2[|outs0|..] == outs1[|outs0|..] + outs2[|outs1|..];
    forall o | o in outs2[|outs0|..] ensures Checked(o, v, names) {
      if o in outs1[|outs0|..] {
        var n :| n in names[..|names| - 1] && o.fieldName in FieldsOf(v.rules, n);
        assert n in names;
      } else {
        assert names[|names| - 1] in names;
      }
    }
  }

  /** The forms loop only adds rows for fields the table assigns to the forms it visits. */
  lemma {:induction false} RunFormsRows(st: State, names: seq<string>, v: Validation, conv: Converters)
    requires forall n :: n in names ==> n in st.forms
    ensures var r := RunForms(st, names, v, conv);
      forall o :: o in r.st.outs[|st.outs|..] ==> Checked(o, v, names)
    decreases |names|
  {
    if names != [] {
      var r := RunForms(st, names, v, conv);
      var init := names[..|names| - 1];
      var name := names[|names| - 1];
      assert forall n :: n in init ==> n in names;
      var p := RunForms(st, init, v, conv);
      RunFormsRows(st, init, v, conv);
      if p.err.None? {
        RunFieldsRows(p.st, name, FieldsOf(v.rules, name), v, conv);
        ExtendChecked(st.outs, p.st.outs, r.st.outs, v, names);
      } else {
        ExtendChecked(st.outs, p.st.outs, p.st.outs, v, names);
      }
    }
  }

  /**
   * After `generate_outliers` every row of the table is an earlier row or a check's row, with its
   * status labelled: only fields of the visited forms are checked, with the four reasons.
   */
  lemma GeneratedRows(st: State, names: seq<string>, v: Validation, conv: Converters, filterIncomplete: bool)
    requires forall n :: n in names ==> n in st.forms
    requires Generate(st, names, v, conv, filterIncomplete).err.None?
    ensures var r := Generate(st, names, v, conv, filterIncomplete);
      forall o :: o in r.st.outs ==>
        exists i :: 0 <= i < |RunForms(st, names, v, conv).st.outs| && RelabelledFrom(o, RunForms(st, names, v, conv).st.outs, i)
          && (i < |st.outs| || Checked(o, v, names))
  {
    GeneratedOuts(st, names, v, conv, filterIncomplete);
    RunFormsRows(st, names, v, conv);
    FinalizedRows(st.outs, RunForms(st, names, v, conv).st.outs, filterIncomplete, v, names);
  }

  /** Without an exception the table is the loops' rows, formatted. */
  lemma GeneratedOuts(st: State, names: seq<string>, v: Validation, conv: Converters, filterIncomplete: bool)
    requires forall n :: n in names ==> n in st.forms
    requires Generate(st, names, v, conv, filterIncomplete).err.None?
    ensures Generate(st, names, v, conv, filterIncomplete).st.outs == Finalize(RunForms(st, names, v, conv).st.outs, filterIncomplete)
  {
  }

  /** Formatting keeps each row, relabelled, so the rows a run added stay checked rows. */
  lemma FinalizedRows(outs0: seq<OutlierRow>, outs: seq<OutlierRow>, filterIncomplete: bool, v: Validation, names: seq<string>)
    requires |outs0| <= |outs|
    requires forall o :: o in outs[|outs0|..] ==> Checked(o, v, names)
    ensures forall o :: o in Finalize(outs, filterIncomplete) ==>
      exists i :: 0 <= i < |outs| && RelabelledFrom(o, outs, i) && (i < |outs0| || Checked(o, v, names))
  {
    var rel := Relabel(outs);
    forall o | o in Finalize(outs, filterIncomplete)
      ensures exists i :: 0 <= i < |outs| && RelabelledFrom(o, outs, i) && (i < |outs0| || Checked(o, v, names))
    {
      assert o in rel;
      var i :| 0 <= i < |rel| && rel[i] == o;
      assert RelabelledFrom(o, outs, i);
      if i >= |outs0| {
        var q := outs[i];
        assert q == outs[|outs0|..][i - |outs0|];
        assert Checked(q, v, names);
        assert o.reason == q.reason && o.fieldName == q.fieldName;
      }
    }
  }

  predicate RelabelledFrom(o: OutlierRow, outs: seq<OutlierRow>, i: nat)
    requires i < |outs|
  {
    o == outs[i].(formStatus := StatusLabel(outs[i].formStatus))
  }

  /** `o` reports the cell of `r` in `column` for `reason`. */
  predicate Reports(o: OutlierRow, r: Row, column: string, reason: string) {
    o.recordId == r.recordId && o.fieldName == column && o.currentValue == Cell(r, column) && o.reason == reason
  }

  /** Some row of `outs` reports the cell of `r` in `column` for `reason`. */
  predicate ReportedIn(outs: seq<OutlierRow>, r: Row, column: string, reason: string) {
    exists o :: o in outs && Reports(o, r, column, reason)
  }

  /** The type test (`range` false) or the range test (`range` true) a dispatched field gets. */
  function CheckTest(column: string, dataType: string, info: Rule, conv: Converters, range: bool): Test {
    if range then RangeTest(column, Converter(conv, dataType), ComparedBound(info.min, dataType, conv),
                            ComparedBound(info.max, dataType, conv))
    else TypeTest(column, Converter(conv, dataType))
  }

  function CheckReason(dataType: string, range: bool): string {
    if range then RangeReason(dataType) else TypeReason(dataType)
  }

  /** Two forms with the same data fail the same tests and are reported by the same rows. */
  lemma SameDataSameRow(f: Form, g: Form, i: nat, t: Test, outs: seq<OutlierRow>, column: string, reason: string)
    requires SameData(f, g) && i < |f.rows|
    ensures Fails(f.rows[i], t) <==> Fails(g.rows[i], t)
    ensures ReportedIn(outs, f.rows[i], column, reason) <==> ReportedIn(outs, g.rows[i], column, reason)
  {
    assert Cell(f.rows[i], t.column) == Cell(g.rows[i], t.column);
    assert Cell(f.rows[i], column) == Cell(g.rows[i], column);
    if ReportedIn(outs, f.rows[i], column, reason) {
      var o :| o in outs && Reports(o, f.rows[i], column, reason);
      assert Reports(o, g.rows[i], column, reason);
    }
    if ReportedIn(outs, g.rows[i], column, reason) {
      var o :| o in outs && Reports(o, g.rows[i], column, reason);
      assert Reports(o, f.rows[i], column, reason);
    }
  }

  /** A row reported among the rows added after `outs0` stays so as the table grows. */
  lemma ReportedGrows(outs0: seq<OutlierRow>, outs1: seq<OutlierRow>, outs2: seq<OutlierRow>, r: Row, column: string, reason: string)
    requires outs0 <= outs1 <= outs2
    ensures ReportedIn(outs1[|outs0|..], r, column, reason) ==> ReportedIn(outs2[|outs0|..], r, column, reason)
    ensures ReportedIn(outs2[|outs1|..], r, column, reason) ==> ReportedIn(outs2[|outs0|..], r, column, reason)
  {
    assert outs2[|outs0|..] == outs1[|outs0|..] + outs2[|outs1|..];
  }

  /**
   * The converse of `RecordedRowsFail`: every failing row of the frame is reported, with its own
   * record id and its own cell.
   */
  lemma RecordReportsFailures(df: Form, outs: seq<OutlierRow>, column: string, t: Test, reason: string, i: nat)
    requires RecordStep(df, outs, column, Ids(FailingIds(df.rows, t)), reason).err.None?
    requires i < |df.rows| && Fails(df.rows[i], t)
    ensures ReportedIn(RecordStep(df, outs, column, Ids(FailingIds(df.rows, t)), reason).outs[|outs|..], df.rows[i], column, reason)
  {
    var ids := FailingIds(df.rows, t);
    assert df.rows[i].recordId in ids;
    var x := Extract(df, column, Ids(ids), reason, None);
    ExtractSelectsFlaggedRows(df, column, Ids(ids), reason, None);
    var o := TagRow(x.form.rows[i], column, LastCompleteColumn(df.columns).value, reason, None);
    assert x.form.rows[i].recordId == df.rows[i].recordId && x.form.rows[i].cells == df.rows[i].cells;
    assert o in x.batch.value && Reports(o, df.rows[i], column, reason);
  }

  /** `check_dtype` and `check_range` report every row whose value fails them. */
  lemma CheckReportsFailures(df: Form, outs: seq<OutlierRow>, column: string, dataType: string, info: Rule,
                             conv: Converters, range: bool, i: nat)
    requires !range ==> CheckDtypeStep(df, outs, column, dataType, conv).err.None?
    requires range ==> CheckRangeStep(df, outs, column, dataType, info.min, info.max, conv).err.None?
    requires i < |df.rows| && Fails(df.rows[i], CheckTest(column, dataType, info, conv, range))
    ensures var s := if range then CheckRangeStep(df, outs, column, dataType, info.min, info.max, conv)
                     else CheckDtypeStep(df, outs, column, dataType, conv);
      ReportedIn(s.outs[|outs|..], df.rows[i], column, CheckReason(dataType, range))
  {
    var t := CheckTest(column, dataType, info, conv, range);
    assert df.rows[i].recordId in FailingIds(df.rows, t);
    RecordReportsFailures(df, outs, column, t, CheckReason(dataType, range), i);
  }

  /** One field's checks report every failing row of the form, by the type test and by the range test. */
  lemma CheckFieldReports(st: State, name: string, column: string, v: Validation, conv: Converters, range: bool, i: nat)
    requires name in st.forms && CheckField(st, name, column, v, conv).err.None?
    requires InfoOf(v.rules, column).Some? && DispatchType(v.lists, column).Some?
    requires i < |st.forms[name].rows|
    requires Fails(st.forms[name].rows[i], CheckTest(column, DispatchType(v.lists, column).value, InfoOf(v.rules, column).value, conv, range))
    ensures ReportedIn(CheckField(st, name, column, v, conv).st.outs[|st.outs|..], st.forms[name].rows[i], column,
      CheckReason(DispatchType(v.lists, column).value, range))
  {
    var t := DispatchType(v.lists, column).value;
    var info := InfoOf(v.rules, column).value;
    var df := st.forms[name];
    var reason := CheckReason(t, range);
    var s1 := CheckDtypeStep(df, st.outs, column, t, conv);
    assert s1.err.None?;
    CheckFieldBothChecks(st, name, column, v, conv);
    var s2 := CheckRangeStep(s1.form, s1.outs, column, t, info.min, info.max, conv);
    if range {
      SameDataSameRow(df, s1.form, i, CheckTest(column, t, info, conv, true), s2.outs[|s1.outs|..], column, reason);
      CheckReportsFailures(s1.form, s1.outs, column, t, info, conv, true, i);
      ReportedGrows(st.outs, s1.outs, s2.outs, df.rows[i], column, reason);
    } else {
      CheckReportsFailures(df, st.outs, column, t, info, conv, false, i);
      ReportedGrows(st.outs, s1.outs, s2.outs, df.rows[i], column, reason);
    }
  }

  /** A prefix of the fields loop leaves a prefix of its table, and raises only if the whole loop does. */
  lemma {:induction false} RunFieldsPrefix(st: State, name: string, cols: seq<string>, k: nat, v: Validation, conv: Converters)
    requires name in st.forms && k <= |cols|
    ensures var p := RunFields(st, name, cols[..k], v, conv);
      var r := RunFields(st, name, cols, v, conv);
      Grows(p.st, r.st) && (r.err.None? ==> p.err.None?)
    decreases |cols| - k
  {
    if k < |cols| {
      var init := cols[..|cols| - 1];
      assert init[..k] == cols[..k];
      RunFieldsPrefix(st, name, init, k, v, conv);
      var p := RunFields(st, name, init, v, conv);
      if p.err.None? {
        GrowsTransitive(RunFields(st, name, cols[..k], v, conv).st, p.st, CheckField(p.st, name, cols[|cols| - 1], v, conv).st);
      }
    } else {
      assert cols[..k] == cols;
    }
  }

  /** A prefix of the forms loop leaves a prefix of its table, and raises only if the whole loop does. */
  lemma {:induction false} RunFormsPrefix(st: State, names: seq<string>, k: nat, v: Validation, conv: Converters)
    requires forall n :: n in names ==> n in st.forms
    requires k <= |names|
    ensures forall n :: n in names[..k] ==> n in st.forms
    ensures var p := RunForms(st, names[..k], v, conv);
      var r := RunForms(st, names, v, conv);
      Grows(p.st, r.st) && (r.err.None? ==> p.err.None?)
    decreases |names| - k
  {
    assert forall n :: n in names[..k] ==> n in names;
    if k < |names| {
      var init := names[..|names| - 1];
      assert init[..k] == names[..k];
      assert forall n :: n in init ==> n in names;
      RunFormsPrefix(st, init, k, v, conv);
      var p := RunForms(st, init, v, conv);
      if p.err.None? {
        var name := names[|names| - 1];
        GrowsTransitive(RunForms(st, names[..k], v, conv).st, p.st, RunFields(p.st, name, FieldsOf(v.rules, name), v, conv).st);
      }
    } else {
      assert names[..k] == names;
    }
  }

  /** The fields loop, run without an exception, reports every failing row of every dispatched field. */
  lemma RunFieldsReports(st: State, name: string, cols: seq<string>, j: nat, v: Validation, conv: Converters, range: bool, i: nat)
    requires name in st.forms && j < |cols| && RunFields(st, name, cols, v, conv).err.None?
    requires InfoOf(v.rules, cols[j]).Some? && DispatchType(v.lists, cols[j]).Some?
    requires i < |st.forms[name].rows|
    requires Fails(st.forms[name].rows[i], CheckTest(cols[j], DispatchType(v.lists, cols[j]).value, InfoOf(v.rules, cols[j]).value, conv, range))
    ensures ReportedIn(RunFields(st, name, cols, v, conv).st.outs[|st.outs|..], st.forms[name].rows[i], cols[j],
      CheckReason(DispatchType(v.lists, cols[j]).value, range))
  {
    var column := cols[j];
    var t := DispatchType(v.lists, column).value;
    var reason := CheckReason(t, range);
    var r := RunFields(st, name, cols, v, conv);
    var p := RunFields(st, name, cols[..j], v, conv);
    RunFieldsPrefix(st, name, cols, j + 1, v, conv);
    RunFieldsNext(st, name, cols, j, v, conv);
    if p.err.Some? {
      assert false;
    }
    var c := CheckField(p.st, name, column, v, conv);
    SameDataSameRow(st.forms[name], p.st.forms[name], i, CheckTest(column, t, InfoOf(v.rules, column).value, conv, range),
      c.st.outs[|p.st.outs|..], column, reason);
    CheckFieldReports(p.st, name, column, v, conv, range, i);
    ReportedGrows(st.outs, p.st.outs, c.st.outs, st.forms[name].rows[i], column, reason);
    ReportedGrows(st.outs, c.st.outs, r.st.outs, st.forms[name].rows[i], column, reason);
  }

  /** The forms loop, run without an exception, reports every failing row of every dispatched field of every form. */
  lemma RunFormsReports(st: State, names: seq<string>, k: nat, column: string, v: Validation, conv: Converters, range: bool, i: nat)
    requires forall n :: n in names ==> n in st.forms
    requires RunForms(st, names, v, conv).err.None?
    requires k < |names| && column in FieldsOf(v.rules, names[k])
    requires InfoOf(v.rules, column).Some? && DispatchType(v.lists, column).Some?
    requires i < |st.forms[names[k]].rows|
    requires Fails(st.forms[names[k]].rows[i], CheckTest(column, DispatchType(v.lists, column).value, InfoOf(v.rules, column).value, conv, range))
    ensures ReportedIn(RunForms(st, names, v, conv).st.outs[|st.outs|..], st.forms[names[k]].rows[i], column,
      CheckReason(DispatchType(v.lists, column).value, range))
  {
    var name := names[k];
    var t := DispatchType(v.lists, column).value;
    var reason := CheckReason(t, range);
    var fields := FieldsOf(v.rules, name);
    var r := RunForms(st, names, v, conv);
    RunFormsPrefix(st, names, k + 1, v, conv);
    RunFormsNext(st, names, k, v, conv);
    var p := RunForms(st, names[..k], v, conv);
    if p.err.Some? {
      assert false;
    }
    var q := RunFields(p.st, name, fields, v, conv);
    var j :| 0 <= j < |fields| && fields[j] == column;
    SameDataSameRow(st.forms[name], p.st.forms[name], i, CheckTest(column, t, InfoOf(v.rules, column).value, conv, range),
      q.st.outs[|p.st.outs|..], column, reason);
    RunFieldsReports(p.st, name, fields, j, v, conv, range, i);
    ReportedGrows(st.outs, p.st.outs, q.st.outs, st.forms[name].rows[i], column, reason);
    ReportedGrows(st.outs, q.st.outs, r.st.outs, st.forms[name].rows[i], column, reason);
  }

  /**
   * `generate_outliers` misses no violation: when it raises nothing, a row of a visited form whose
   * value fails the type or range check of a dispatched field of that form is reported by a row
   * of the table before formatting, and that row, relabelled, is in the final table unless the
   * filter is on and its status is not `complete`.
   */
  lemma GenerateReportsFailures(st: State, names: seq<string>, v: Validation, conv: Converters, filterIncomplete: bool,
                                k: nat, column: string, range: bool, i: nat)
    requires forall n :: n in names ==> n in st.forms
    requires Generate(st, names, v, conv, filterIncomplete).err.None?
    requires k < |names| && column in FieldsOf(v.rules, names[k])
    requires InfoOf(v.rules, column).Some? && DispatchType(v.lists, column).Some?
    requires i < |st.forms[names[k]].rows|
    requires Fails(st.forms[names[k]].rows[i], CheckTest(column, DispatchType(v.lists, column).value, InfoOf(v.rules, column).value, conv, range))
    ensures exists o :: (
      && o in RunForms(st, names, v, conv).st.outs
      && Reports(o, st.forms[names[k]].rows[i], column, CheckReason(DispatchType(v.lists, column).value, range))
      && (!filterIncomplete || StatusLabel(o.formStatus) == Str("complete") ==>
            o.(formStatus := StatusLabel(o.formStatus)) in Generate(st, names, v, conv, filterIncomplete).st.outs))
  {
    var outs := RunForms(st, names, v, conv).st.outs;
    var row := st.forms[names[k]].rows[i];
    var reason := CheckReason(DispatchType(v.lists, column).value, range);
    RunFormsReports(st, names, k, column, v, conv, range, i);
    ReportedAt(outs, |st.outs|, row, column, reason);
    var m :| 0 <= m < |outs| && Reports(outs[m], row, column, reason);
    FinalizeKeepsRow(outs, m, filterIncomplete);
    GeneratedOuts(st, names, v, conv, filterIncomplete);
    assert outs[m] in outs;
  }

  /** `formOrder` lists the keys of `forms` once each, as a dictionary's iteration does. */
  ghost predicate FormOrder(forms: map<string, Form>, formOrder: seq<string>) {
    && (forall n :: n in formOrder <==> n in forms)
    && forall i, j :: 0 <= i < j < |formOrder| ==> formOrder[i] != formOrder[j]
  }

  /**
   * The `Outliers` object. `formOrder` is the iteration order of the `forms` dictionary;
   * `validation` and `cols` are `validation_df` and `cols_to_validate`, and `outliersDf` is the
   * outlier table. A frame handed to a method comes back as `df'`, the frame after the call.
   */
  class Outliers {
    var forms: map<string, Form>
    const formOrder: seq<string>
    const conv: Converters
    var validation: seq<Rule>
    var cols: Dispatch
    var outliersDf: seq<OutlierRow>

    ghost predicate Valid()
      reads this
    {
      FormOrder(forms, formOrder)
    }

    /** The state before `_instance_validation_df` runs: an empty table and no dispatch lists. */
    constructor (forms: map<string, Form>, formOrder: seq<string>, conv: Converters)
      requires FormOrder(forms, formOrder)
      ensures Valid()
      ensures this.forms == forms && this.formOrder == formOrder && this.conv == conv
      ensures validation == [] && cols == Dispatch([], [], [], []) && outliersDf == []
    {
      this.forms := forms;
      this.formOrder := formOrder;
      this.conv := conv;
      validation := [];
      cols := Dispatch([], [], [], []);
      outliersDf := [];
    }

    /** `_instance_validation_df`: builds the table step by step; a bound that does not convert raises. */
    method InstanceValidationDf(codebook: seq<CodebookRow>) returns (err: Option<Error>)
      modifies this
      ensures forms == old(forms) && outliersDf == old(outliersDf)
      ensures var b := BuildValidation(codebook, conv);
        b.Success? ==> err.None? && validation == b.value.rules && cols == b.value.lists
      ensures var b := BuildValidation(codebook, conv);
        b.Failure? ==> err == Some(b.error) && validation == old(validation) && cols == old(cols)
    {
      var df := KeptRules(codebook);
      var numeric := FixMinMax(df, NumericTypes, conv.numeric);
      if numeric.Failure? {
        return Some(numeric.error);
      }
      var dates := FixMinMax(numeric.value, DateTypes, conv.date);
      if dates.Failure? {
        return Some(dates.error);
      }
      df := NormaliseRules(dates.value);
      cols := Dispatch(FieldNames(df, NumericList), FieldNames(df, DateList), FieldNames(df, RequiredList),
        FieldNames(df, BranchingList));
      validation := Renamed(df);
      return None;
    }

    /** `update_outliers_df`: the batch follows the rows already in the table. */
    method UpdateOutliersDf(batch: seq<OutlierRow>)
      modifies this
      ensures outliersDf == old(outliersDf) + batch
      ensures forms == old(forms) && validation == old(validation) && cols == old(cols)
    {
      if batch != [] {
        outliersDf := outliersDf + batch;
      }
    }

    /** `process_invalid_records`. */
    method ProcessInvalidRecords(df: Form, column: string, keys: Keys, reason: string) returns (df': Form, err: Option<Error>)
      modifies this
      ensures var s := RecordStep(df, old(outliersDf), column, keys, reason);
        df' == s.form && outliersDf == s.outs && err == s.err
      ensures forms == old(forms) && validation == old(validation) && cols == old(cols)
    {
      if KeyCount(keys) == 0 {
        return df, None;
      }
      var x := Extract(df, column, keys, reason, None);
      df' := x.form;
      if x.batch.Failure? {
        return df', Some(x.batch.error);
      }
      UpdateOutliersDf(x.batch.value);
      err := None;
    }

    /** `check_dtype`. */
    method CheckDtype(df: Form, column: string, dataType: string) returns (df': Form, err: Option<Error>)
      modifies this
      ensures var s := CheckDtypeStep(df, old(outliersDf), column, dataType, conv);
        df' == s.form && outliersDf == s.outs && err == s.err
      ensures forms == old(forms) && validation == old(validation) && cols == old(cols)
    {
      if !KnownType(dataType) {
        return df, Some(ValueError(DataTypeMessage));
      }
      if column !in df.columns {
        return df, Some(KeyError(column));
      }
      var invalid := FailingIds(df.rows, TypeTest(column, Converter(conv, dataType)));
      df', err := df, None;
      if invalid != [] {
        df', err := ProcessInvalidRecords(df, column, Ids(invalid), TypeReason(dataType));
      }
    }

    /** `check_range`. */
    method CheckRange(df: Form, column: string, dataType: string, lo: Bound, hi: Bound) returns (df': Form, err: Option<Error>)
      modifies this
      ensures var s := CheckRangeStep(df, old(outliersDf), column, dataType, lo, hi, conv);
        df' == s.form && outliersDf == s.outs && err == s.err
      ensures forms == old(forms) && validation == old(validation) && cols == old(cols)
    {
      df', err := df, None;
      if lo.NoBound? && hi.NoBound? {
        return;
      }
      if !KnownType(dataType) {
        return df, Some(ValueError(DataTypeMessage));
      }
      if column !in df.columns {
        return df, Some(KeyError(column));
      }
      var l, h := ComparedBound(lo, dataType, conv), ComparedBound(hi, dataType, conv);
      if l.RawBound? || h.RawBound? {
        return df, Some(TypeError);
      }
      var invalid := FailingIds(df.rows, RangeTest(column, Converter(conv, dataType), l, h));
      if invalid != [] {
        df', err := ProcessInvalidRecords(df, column, Ids(invalid), RangeReason(dataType));
      }
    }

    /** The body of the inner loop of `generate_outliers` for one field of the form `name`. */
    method CheckColumn(name: string, column: string) returns (err: Option<Error>)
      requires name in forms
      modifies this
      ensures var c := CheckField(old(State(forms, outliersDf)), name, column, Validation(validation, cols), conv);
        State(forms, outliersDf) == c.st && err == c.err
      ensures validation == old(validation) && cols == old(cols)
    {
      ghost var st := State(forms, outliersDf);
      var info := InfoOf(validation, column);
      if info.None? {
        return Some(IndexError);
      }
      var t := DispatchType(cols, column);
      if t.None? {
        return None;
      }
      ghost var s1 := CheckDtypeStep(st.forms[name], st.outs, column, t.value, conv);
      var df1, e1 := CheckDtype(forms[name], column, t.value);
      assert df1 == s1.form && outliersDf == s1.outs && e1 == s1.err;
      if e1.Some? {
        forms := forms[name := df1];
        return e1;
      }
      ghost var s2 := CheckRangeStep(s1.form, s1.outs, column, t.value, info.value.min, info.value.max, conv);
      var df2, e2 := CheckRange(df1, column, t.value, info.value.min, info.value.max);
      assert df2 == s2.form && outliersDf == s2.outs && e2 == s2.err;
      forms := forms[name := df2];
      CheckFieldBothChecks(st, name, column, Validation(validation, cols), conv);
      return e2;
    }

    /** `generate_outliers`: the checks of every form's fields, then the formatting. */
    method GenerateOutliers(filterIncomplete: bool) returns (err: Option<Error>)
      requires Valid()
      modifies this
      ensures Valid()
      ensures var g := Generate(old(State(forms, outliersDf)), formOrder, Validation(validation, cols), conv, filterIncomplete);
        State(forms, outliersDf) == g.st && err == g.err
      ensures validation == old(validation) && cols == old(cols)
    {
      ghost var st0 := State(forms, outliersDf);
      var v := Validation(validation, cols);
      var k := 0;
      while k < |formOrder|
        invariant 0 <= k <= |formOrder| && Valid()
        invariant validation == old(validation) && cols == old(cols) && forms.Keys == st0.forms.Keys
        invariant RunForms(st0, formOrder[..k], v, conv) == Outcome(State(forms, outliersDf), None)
      {
        var e := CheckFormFields(formOrder[k]);
        RunFormsNext(st0, formOrder, k, v, conv);
        if e.Some? {
          RunFormsStops(st0, formOrder, k + 1, v, conv);
          return e;
        }
        k := k + 1;
      }
      assert formOrder[..k] == formOrder;
      outliersDf := Finalize(outliersDf, filterIncomplete);
      err := None;
    }

    /** The inner loop of `generate_outliers`: the fields the table assigns to the form `name`. */
    method CheckFormFields(name: string) returns (err: Option<Error>)
      requires name in forms
      modifies this
      ensures var r := RunFields(old(State(forms, outliersDf)), name, FieldsOf(validation, name), Validation(validation, cols), conv);
        State(forms, outliersDf) == r.st && err == r.err
      ensures validation == old(validation) && cols == old(cols)
    {
      ghost var sf := State(forms, outliersDf);
      var v := Validation(validation, cols);
      var fields := FieldsOf(validation, name);
      var j := 0;
      while j < |fields|
        invariant 0 <= j <= |fields| && name in forms
        invariant validation == old(validation) && cols == old(cols)
        invariant RunFields(sf, name, fields[..j], v, conv) == Outcome(State(forms, outliersDf), None)
      {
        var e := CheckColumn(name, fields[j]);
        RunFieldsNext(sf, name, fields, j, v, conv);
        if e.Some? {
          RunFieldsStops(sf, name, fields, j + 1, v, conv);
          return e;
        }
        j := j + 1;
      }
      assert fields[..j] == fields;
      err := None;
    }
  }

  /** `Outliers(forms, codebook)`: the constructor raises when the validation table cannot be built. */
  method New(forms: map<string, Form>, formOrder: seq<string>, codebook: seq<CodebookRow>, conv: Converters)
    returns (r: Result<Outliers, Error>)
    requires FormOrder(forms, formOrder)
    ensures BuildValidation(codebook, conv).Failure? ==> r == Failure(BuildValidation(codebook, conv).error)
    ensures r.Success? ==> var b := BuildValidation(codebook, conv).value;
      && fresh(r.value) && r.value.Valid() && r.value.forms == forms && r.value.formOrder == formOrder
      && r.value.conv == conv && r.value.validation == b.rules && r.value.cols == b.lists && r.value.outliersDf == []
    ensures BuildValidation(codebook, conv).Success? ==> r.Success?
  {
    var o := new Outliers(forms, formOrder, conv);
    var err := o.InstanceValidationDf(codebook);
    if err.Some? {
      return Failure(err.value);
    }
    return Success(o);
  }
}
