/** The label helpers and the outlier extraction of the transformer handler. */
module Transformer {
  import opened Wrappers
  import opened Text
  import opened Frames

  /** A cell seen by the label helpers: a scalar, or a list left by checkbox decoding. */
  datatype Labelled = Scalar(v: string) | Items(xs: seq<string>)

  predicate AllKeys(xs: seq<string>, mapping: map<string, string>) {
    forall i :: 0 <= i < |xs| ==> xs[i] in mapping
  }

  /**
   * `replace_label`: a scalar is mapped when it is a key; a list is mapped element-wise only when
   * every element is a key, and otherwise the KeyError hands back the whole input unchanged.
   */
  function ReplaceLabel(x: Labelled, mapping: map<string, string>): (r: Labelled)
    ensures r.Scalar? == x.Scalar?
    ensures x.Scalar? ==> r == if x.v in mapping then Scalar(mapping[x.v]) else x
    ensures x.Items? ==> |r.xs| == |x.xs|
    ensures x.Items? && AllKeys(x.xs, mapping) ==> forall i :: 0 <= i < |x.xs| ==> r.xs[i] == mapping[x.xs[i]]
    ensures x.Items? && !AllKeys(x.xs, mapping) ==> r == x
  {
    match x
    case Scalar(v) => if v in mapping then Scalar(mapping[v]) else x
    case Items(xs) =>
      if AllKeys(xs, mapping) then Items(seq(|xs|, i requires 0 <= i < |xs| => mapping[xs[i]])) else x
  }

  /** A mapping that sends each of its keys to itself leaves every cell as it was. */
  lemma ReplaceLabelIdentity(x: Labelled, mapping: map<string, string>)
    requires forall k :: k in mapping ==> mapping[k] == k
    ensures ReplaceLabel(x, mapping) == x
  {
    if x.Items? && AllKeys(x.xs, mapping) {
      assert ReplaceLabel(x, mapping).xs == x.xs;
    }
  }

  /**
   * `replace_array_item`: in a list, every item whose lower-case form equals `otherValue` becomes
   * `lookup`, the value of `df.loc[index, other_column]`, or the exception that lookup raises;
   * the lookup only happens once an item matches. Anything that is not a list comes back untouched.
   */
  function ReplaceArrayItem(value: Labelled, lookup: Result<string, Error>, otherValue: string)
    : (r: Result<Labelled, Error>)
    ensures value.Scalar? ==> r == Success(value)
    ensures value.Items? && lookup.Success? ==> r.Success? && r.value.Items? && |r.value.xs| == |value.xs|
    ensures value.Items? && lookup.Success? ==> forall i :: 0 <= i < |value.xs| ==>
      r.value.xs[i] == if Lower(value.xs[i]) == otherValue then lookup.value else value.xs[i]
    ensures value.Items? && lookup.Failure? ==>
      (r == Failure(lookup.error) <==> exists i :: 0 <= i < |value.xs| && Lower(value.xs[i]) == otherValue)
    ensures value.Items? && lookup.Failure? && r.Success? ==> r.value == value
  {
    match value
    case Scalar(_) => Success(value)
    case Items(xs) =>
      if lookup.Success? then
        Success(Items(seq(|xs|, i requires 0 <= i < |xs| => if Lower(xs[i]) == otherValue then lookup.value else xs[i])))
      else if exists i :: 0 <= i < |xs| && Lower(xs[i]) == otherValue then Failure(lookup.error)
      else Success(value)
  }

  /** The lower-cased item never holds an ASCII capital, so an `otherValue` with one never matches. */
  lemma ReplaceArrayItemNeedsLowerCase(value: Labelled, lookup: Result<string, Error>, otherValue: string, k: nat)
    requires k < |otherValue| && 'A' <= otherValue[k] <= 'Z'
    ensures ReplaceArrayItem(value, lookup, otherValue) == Success(value)
  {
    match value
    case Scalar(_) =>
    case Items(xs) =>
      forall i | 0 <= i < |xs| ensures Lower(xs[i]) != otherValue {
        if k < |xs[i]| {
          assert !('A' <= Lower(xs[i])[k] <= 'Z');
        }
      }
      if lookup.Success? {
        assert ReplaceArrayItem(value, lookup, otherValue).value.xs == xs;
      }
  }

  /**
   * The transformer's `process_invalid_records`: unlike the engine's version it reads
   * `invalid_records[0]` without checking for an empty list, and it tags each row with the
   * form name. `df'` is the caller's frame after the call, which may have gained the
   * `redcap_repeat_instance` column.
   */
  method ProcessInvalidRecords(df: Form, column: string, formName: string, invalidRecords: Keys, reasonDesc: string)
    returns (df': Form, outliers: Result<seq<OutlierRow>, Error>)
    ensures KeyCount(invalidRecords) == 0 ==> df' == df && outliers == Failure(IndexError)
    ensures KeyCount(invalidRecords) > 0 ==>
      var x := Extract(df, column, invalidRecords, reasonDesc, Some(formName));
      df' == x.form && outliers == x.batch
  {
    df' := df;
    if KeyCount(invalidRecords) == 0 {
      return df', Failure(IndexError);
    }
    if invalidRecords.Pairs? && !HasInstanceColumn(df) {
      return df', Failure(KeyError(InstanceColumn));
    }
    var completeColumn := LastCompleteColumn(df.columns);
    if completeColumn.None? {
      return df', Failure(IndexError);
    }
    df' := WithInstanceColumn(df);
    if column !in df'.columns {
      return df', Failure(KeyError(column));
    }
    if DagColumn !in df'.columns {
      return df', Failure(KeyError(DagColumn));
    }
    var selected := SelectRows(df'.rows, invalidRecords);
    outliers := Success(TagRows(selected, column, completeColumn.value, reasonDesc, Some(formName)));
  }
}
