/**
 * The tabular data the core works on: form tables (one per REDCap instrument), the keys a
 * check uses to flag records, and the outlier rows extracted from a form for those keys.
 */
module Frames {
  import opened Wrappers
  import opened Text

  /** A data-frame cell: NaN/None, a string, or an integer. */
  datatype Value = Null | Str(s: string) | Num(n: int)

  /** One row of a form table; `cells` holds every column other than the three fixed ones. */
  datatype Row = Row(recordId: string, dag: Value, instance: Value, cells: map<string, Value>)

  /** A form table: its column names in frame order and its rows. */
  datatype Form = Form(columns: seq<string>, rows: seq<Row>)

  const InstanceColumn := "redcap_repeat_instance"

  const CompleteSuffix := "_complete"

  const DagColumn := "redcap_data_access_group"

  /** The exceptions the core can raise. */
  datatype Error =
    | KeyError(key: string)
    | IndexError
    | ValueError(message: string)
    | TypeError
    | AttributeError(key: string)

  function Cell(r: Row, column: string): Value {
    if column in r.cells then r.cells[column] else Null
  }

  predicate HasInstanceColumn(f: Form) { InstanceColumn in f.columns }

  /**
   * The records a check flags: bare record ids, or (record id, repeat instance) pairs.
   * The source tells the two apart by the type of the list's first element.
   */
  datatype Keys = Ids(ids: seq<string>) | Pairs(pairs: seq<(string, int)>)

  function KeyCount(k: Keys): nat {
    match k
    case Ids(ids) => |ids|
    case Pairs(ps) => |ps|
  }

  /** `isin` on `record_id`, or on the `(record_id, redcap_repeat_instance)` tuple. */
  predicate Matches(r: Row, k: Keys) {
    match k
    case Ids(ids) => r.recordId in ids
    case Pairs(ps) => r.instance.Num? && (r.recordId, r.instance.n) in ps
  }

  /** An outlier: the offending row's identity, the field, its current value, its status and why. */
  datatype OutlierRow = OutlierRow(
    recordId: string,
    dag: Value,
    instance: Value,
    fieldName: string,
    currentValue: Value,
    formStatus: Value,
    reason: string,
    formName: Option<string>)

  /** No column after index `i` ends in `_complete`. */
  predicate LastEnding(columns: seq<string>, i: nat) {
    forall j :: i < j < |columns| ==> !EndsWith(columns[j], CompleteSuffix)
  }

  /** The name of the last column ending in `_complete`, the one that holds the form status. */
  function LastCompleteColumn(columns: seq<string>): (r: Option<string>)
    ensures r.None? <==> forall i :: 0 <= i < |columns| ==> !EndsWith(columns[i], CompleteSuffix)
    ensures r.Some? ==> EndsWith(r.value, CompleteSuffix)
    ensures r.Some? ==>
      exists i :: 0 <= i < |columns| && columns[i] == r.value && LastEnding(columns, i)
  {
    if columns == [] then None
    else if EndsWith(columns[|columns| - 1], CompleteSuffix) then Some(columns[|columns| - 1])
    else LastCompleteColumn(columns[..|columns| - 1])
  }

  /** `g` has the rows of `f`, with the same record ids, access groups and cells. */
  predicate SameData(f: Form, g: Form) {
    && |g.rows| == |f.rows|
    && forall i :: 0 <= i < |f.rows| ==>
      g.rows[i].recordId == f.rows[i].recordId && g.rows[i].dag == f.rows[i].dag && g.rows[i].cells == f.rows[i].cells
  }

  /** `df['redcap_repeat_instance'] = np.nan` when the column is missing. */
  function WithInstanceColumn(f: Form): (g: Form)
    ensures HasInstanceColumn(g) && SameData(f, g)
    ensures HasInstanceColumn(f) ==> g == f
    ensures !HasInstanceColumn(f) ==> g.columns == f.columns + [InstanceColumn]
    ensures !HasInstanceColumn(f) ==> forall i :: 0 <= i < |f.rows| ==> g.rows[i] == f.rows[i].(instance := Null)
  {
    if HasInstanceColumn(f) then f
    else Form(f.columns + [InstanceColumn], seq(|f.rows|, i requires 0 <= i < |f.rows| => f.rows[i].(instance := Null)))
  }

  /** The rows of `rows` that `keys` flags, in table order (a boolean mask). */
  function SelectRows(rows: seq<Row>, keys: Keys): (r: seq<Row>)
    ensures |r| <= |rows|
    ensures forall x :: x in r ==> x in rows && Matches(x, keys)
    ensures forall i :: 0 <= i < |rows| && Matches(rows[i], keys) ==> rows[i] in r
  {
    if rows == [] then []
    else (if Matches(rows[0], keys) then [rows[0]] else []) + SelectRows(rows[1..], keys)
  }

  /**
   * The mask keeps order and multiplicity: a single row is kept exactly when it is flagged, and
   * the selection of a concatenation is the concatenation of the selections.
   */
  lemma {:induction false} SelectRowsAppend(a: seq<Row>, b: seq<Row>, keys: Keys, x: Row)
    ensures SelectRows(a + b, keys) == SelectRows(a, keys) + SelectRows(b, keys)
    ensures SelectRows([x], keys) == if Matches(x, keys) then [x] else []
  {
    assert [x][1..] == [];
    if a == [] {
      assert a + b == b;
    } else {
      var head := if Matches(a[0], keys) then [a[0]] else [];
      assert (a + b)[0] == a[0] && (a + b)[1..] == a[1..] + b;
      assert SelectRows(a + b, keys) == head + SelectRows(a[1..] + b, keys);
      SelectRowsAppend(a[1..], b, keys, x);
      AppendAssociates(head, SelectRows(a[1..], keys), SelectRows(b, keys));
    }
  }

  function TagRow(r: Row, column: string, statusColumn: string, reason: string, formName: Option<string>): OutlierRow {
    OutlierRow(r.recordId, r.dag, r.instance, column, Cell(r, column), Cell(r, statusColumn), reason, formName)
  }

  function TagRows(rows: seq<Row>, column: string, statusColumn: string, reason: string, formName: Option<string>)
    : (r: seq<OutlierRow>)
    ensures |r| == |rows|
    ensures forall i :: 0 <= i < |rows| ==> r[i] == TagRow(rows[i], column, statusColumn, reason, formName)
  {
    seq(|rows|, i requires 0 <= i < |rows| => TagRow(rows[i], column, statusColumn, reason, formName))
  }

  /** The columns the extraction copies out besides the id, the instance and the status are present. */
  predicate SubsetPresent(g: Form, column: string) {
    DagColumn in g.columns && column in g.columns
  }

  /** The form after the call (it may have gained the instance column) and the batch or the exception. */
  datatype Extraction = Extraction(form: Form, batch: Result<seq<OutlierRow>, Error>)

  /**
   * The extraction shared by both `process_invalid_records`: mask the flagged rows, find the
   * status column, add a null instance column when missing, then copy out the id, access group,
   * instance, field and status columns of the selected rows and tag them.
   */
  function Extract(df: Form, column: string, keys: Keys, reason: string, formName: Option<string>): (x: Extraction)
    ensures keys.Pairs? && !HasInstanceColumn(df) ==> x == Extraction(df, Failure(KeyError(InstanceColumn)))
    ensures (keys.Ids? || HasInstanceColumn(df)) && LastCompleteColumn(df.columns).None? ==>
      x == Extraction(df, Failure(IndexError))
    ensures LastCompleteColumn(df.columns).Some? && (keys.Ids? || HasInstanceColumn(df)) ==>
      x.form == WithInstanceColumn(df)
    ensures SameData(df, x.form)
    ensures x.batch.Failure? <==>
      (keys.Pairs? && !HasInstanceColumn(df)) || LastCompleteColumn(df.columns).None? || !SubsetPresent(WithInstanceColumn(df), column)
    ensures x.batch.Success? ==> |x.batch.value| <= |df.rows|
    ensures x.batch.Success? ==>
      forall o :: o in x.batch.value ==> o.fieldName == column && o.reason == reason && o.formName == formName
  {
    if keys.Pairs? && !HasInstanceColumn(df) then Extraction(df, Failure(KeyError(InstanceColumn)))
    else match LastCompleteColumn(df.columns)
      case None => Extraction(df, Failure(IndexError))
      case Some(status) =>
        var g := WithInstanceColumn(df);
        if column !in g.columns then Extraction(g, Failure(KeyError(column)))
        else if DagColumn !in g.columns then Extraction(g, Failure(KeyError(DagColumn)))
        else Extraction(g, Success(TagRows(SelectRows(g.rows, keys), column, status, reason, formName)))
  }

  /**
   * Exactly the flagged rows of the form come out, each tagged with the column's value and the
   * status; the batch is the tagged mask selection, so it keeps table order and multiplicity
   * (`SelectRowsAppend`).
   */
  lemma ExtractSelectsFlaggedRows(df: Form, column: string, keys: Keys, reason: string, formName: Option<string>)
    requires Extract(df, column, keys, reason, formName).batch.Success?
    ensures var x := Extract(df, column, keys, reason, formName);
      var status := LastCompleteColumn(df.columns).value;
      x.batch.value == TagRows(SelectRows(x.form.rows, keys), column, status, reason, formName)
    ensures var x := Extract(df, column, keys, reason, formName);
      var status := LastCompleteColumn(df.columns).value;
      && (forall i :: 0 <= i < |df.rows| && Matches(x.form.rows[i], keys) ==>
            TagRow(x.form.rows[i], column, status, reason, formName) in x.batch.value)
      && (forall o :: o in x.batch.value ==>
            exists i :: 0 <= i < |df.rows| && Matches(x.form.rows[i], keys)
              && o == TagRow(x.form.rows[i], column, status, reason, formName))
  {
    var x := Extract(df, column, keys, reason, formName);
    var status := LastCompleteColumn(df.columns).value;
    var g := x.form;
    var sel := SelectRows(g.rows, keys);
    forall o | o in x.batch.value
      ensures exists i :: 0 <= i < |df.rows| && Matches(g.rows[i], keys) && o == TagRow(g.rows[i], column, status, reason, formName)
    {
      var k :| 0 <= k < |sel| && x.batch.value[k] == o;
      assert sel[k] in g.rows;
      var i :| 0 <= i < |g.rows| && g.rows[i] == sel[k];
    }
  }

  /** Flagging a record id selects every row of the form with that id, all repeat instances included. */
  lemma IdFlagsEveryInstance(df: Form, column: string, ids: seq<string>, reason: string, formName: Option<string>, i: nat)
    requires Extract(df, column, Ids(ids), reason, formName).batch.Success?
    requires i < |df.rows| && df.rows[i].recordId in ids
    ensures var x := Extract(df, column, Ids(ids), reason, formName);
      exists o :: o in x.batch.value && o.recordId == df.rows[i].recordId
        && o.instance == x.form.rows[i].instance && o.currentValue == Cell(df.rows[i], column)
  {
    ExtractSelectsFlaggedRows(df, column, Ids(ids), reason, formName);
    var x := Extract(df, column, Ids(ids), reason, formName);
    var status := LastCompleteColumn(df.columns).value;
    assert x.form.rows[i].recordId == df.rows[i].recordId && x.form.rows[i].cells == df.rows[i].cells;
    assert TagRow(x.form.rows[i], column, status, reason, formName) in x.batch.value;
  }
}
