/**
 * The REDCap project object: its forms, its outlier dictionary and the keyed merge that
 * grows it, the identifier fields of the codebook, and the missing-data codes.
 */
module Project {
  import opened Wrappers
  import opened Text
  import opened Frames
  import opened ValidationTable

  /** A value of the outlier dictionary: a list, a dictionary, or anything else. */
  datatype Entry = ListEntry(items: seq<Value>) | DictEntry(entries: map<string, Value>) | OtherEntry(other: Value)

  /** The six keys a new project starts with, three lists and three dictionaries, all empty. */
  const InitialOutliers: map<string, Entry> := map[
    "incomplete_records" := ListEntry([]),
    "unverified_records" := ListEntry([]),
    "duplicated_values" := ListEntry([]),
    "invalid_records" := DictEntry(map[]),
    "unmapped_labels" := DictEntry(map[]),
    "missing_datacodes" := DictEntry(map[])]

  /** The default map of missing-data codes to their descriptions. */
  const DefaultMissingCodes: map<string, string> := map[
    "NI" := "No information",
    "INV" := "Invalid",
    "UNK" := "Unknown",
    "NASK" := "Not asked",
    "ASKU" := "Asked but unknown",
    "NAV" := "Temporarily unavailable",
    "MSK" := "Masked",
    "NA" := "Not applicable",
    "NAVU" := "Not available",
    "NP" := "Not present",
    "OTH" := "Other"]

  /**
   * The missing-data codes `__init__` leaves in place as written: the default map when the
   * argument is `None`, and otherwise no attribute at all (`None` here).
   */
  function MissingCodesAsWritten(arg: Option<map<string, string>>): (r: Option<map<string, string>>)
    ensures arg.None? ==> r == Some(DefaultMissingCodes)
    ensures arg.Some? ==> r.None?
  {
    if arg.None? then Some(DefaultMissingCodes) else None
  }

  /** A caller's own codes are dropped: the object ends up with no missing-data codes at all. */
  lemma CallerCodesLost()
    ensures MissingCodesAsWritten(Some(map["NI" := "No information"])).None?
    ensures MissingCodesAsWritten(Some(DefaultMissingCodes)) != Some(DefaultMissingCodes)
  {
  }

  /** The evidently intended codes: the caller's map when given, the default map otherwise. */
  function MissingCodes(arg: Option<map<string, string>>): (r: map<string, string>)
    ensures arg.Some? ==> r == arg.value
    ensures arg.None? ==> r == DefaultMissingCodes
  {
    if arg.None? then DefaultMissingCodes else arg.value
  }

  /** The corrected constructor always has codes, and agrees with the code as written where that has them. */
  lemma MissingCodesAgree(arg: Option<map<string, string>>)
    ensures MissingCodesAsWritten(arg).Some? ==> MissingCodesAsWritten(arg).value == MissingCodes(arg)
    ensures arg.None? ==> MissingCodes(arg).Keys == {"NI", "INV", "UNK", "NASK", "ASKU", "NAV", "MSK", "NA", "NAVU", "NP", "OTH"}
  {
  }

  /** `_instance_identifier_fields`: the names of the codebook fields marked as identifiers, in codebook order. */
  function IdentifierFields(codebook: seq<CodebookRow>): (r: seq<string>)
    ensures |r| <= |codebook|
    ensures forall x :: x in r <==> exists i :: 0 <= i < |codebook| && codebook[i].identifier == "y" && codebook[i].fieldName == x
  {
    if codebook == [] then []
    else
      var t := IdentifierFields(codebook[1..]);
      assert forall i :: 1 <= i < |codebook| ==> codebook[i] == codebook[1..][i - 1];
      Selected(codebook[0]) + t
  }

  /** The name of an identifier row, as a one-element selection. */
  function Selected(row: CodebookRow): seq<string> {
    if row.identifier == "y" then [row.fieldName] else []
  }

  /** The selection keeps codebook order: it distributes over concatenation. */
  lemma {:induction false} IdentifierFieldsAppend(a: seq<CodebookRow>, b: seq<CodebookRow>)
    ensures IdentifierFields(a + b) == IdentifierFields(a) + IdentifierFields(b)
  {
    if a == [] {
      assert a + b == b;
    } else {
      var c := a + b;
      assert c[0] == a[0] && c[1..] == a[1..] + b;
      IdentifierFieldsAppend(a[1..], b);
      calc {
        IdentifierFields(c);
        Selected(a[0]) + IdentifierFields(a[1..] + b);
        Selected(a[0]) + (IdentifierFields(a[1..]) + IdentifierFields(b));
      }
    }
  }

  /**
   * One key of `update_outliers`: a list extends the list already there, a dictionary updates the
   * dictionary already there (incoming keys win), an absent key receives a list or dictionary as
   * it is, and any other value is ignored. Extending or updating an entry of the other kind raises.
   */
  function MergeOne(outliers: map<string, Entry>, key: string, value: Entry): (r: Result<map<string, Entry>, Error>)
    ensures value.OtherEntry? ==> r == Success(outliers)
    ensures !value.OtherEntry? && key !in outliers ==> r == Success(outliers[key := value])
    ensures value.ListEntry? && key in outliers ==>
      if outliers[key].ListEntry? then r == Success(outliers[key := ListEntry(outliers[key].items + value.items)])
      else r == Failure(AttributeError("extend"))
    ensures value.DictEntry? && key in outliers ==>
      if outliers[key].DictEntry? then r.Success? && key in r.value && r.value[key].DictEntry?
        && r.value[key].entries.Keys == outliers[key].entries.Keys + value.entries.Keys
        && (forall k :: k in value.entries ==> r.value[key].entries[k] == value.entries[k])
        && (forall k :: k in outliers[key].entries && k !in value.entries ==> r.value[key].entries[k] == outliers[key].entries[k])
      else r == Failure(AttributeError("update"))
    ensures r.Success? ==> forall k :: k in outliers && k != key ==> k in r.value && r.value[k] == outliers[k]
    ensures r.Success? ==> r.value.Keys == outliers.Keys + (if value.OtherEntry? then {} else {key})
  {
    match value
    case OtherEntry(_) => Success(outliers)
    case ListEntry(xs) =>
      if key !in outliers then Success(outliers[key := value])
      else if outliers[key].ListEntry? then Success(outliers[key := ListEntry(outliers[key].items + xs)])
      else Failure(AttributeError("extend"))
    case DictEntry(m) =>
      if key !in outliers then Success(outliers[key := value])
      else if outliers[key].DictEntry? then Success(outliers[key := DictEntry(outliers[key].entries + m)])
      else Failure(AttributeError("update"))
  }

  /** The dictionary after the loop, and the exception that stopped it; earlier keys stay merged. */
  datatype Merge = Merge(outliers: map<string, Entry>, err: Option<Error>)

  function Keys(items: seq<(string, Entry)>): set<string> {
    set i | 0 <= i < |items| :: items[i].0
  }

  /** `update_outliers` over the argument's items in order. */
  function MergeAll(outliers: map<string, Entry>, items: seq<(string, Entry)>): (r: Merge)
    ensures outliers.Keys <= r.outliers.Keys <= outliers.Keys + Keys(items)
    decreases |items|
  {
    if items == [] then Merge(outliers, None)
    else
      var init := items[..|items| - 1];
      var (key, value) := items[|items| - 1];
      assert Keys(items) == Keys(init) + {key} by {
        assert forall i :: 0 <= i < |init| ==> init[i] == items[i];
      }
      var p := MergeAll(outliers, init);
      if p.err.Some? then p
      else
        var q := MergeOne(p.outliers, key, value);
        if q.Failure? then Merge(p.outliers, Some(q.error)) else Merge(q.value, None)
  }

  /** Keys the argument does not mention keep their entries, whether or not the loop raised. */
  lemma {:induction false} MergeAllUntouched(outliers: map<string, Entry>, items: seq<(string, Entry)>, k: string)
    requires k in outliers && k !in Keys(items)
    ensures k in MergeAll(outliers, items).outliers && MergeAll(outliers, items).outliers[k] == outliers[k]
    decreases |items|
  {
    if items != [] {
      var init := items[..|items| - 1];
      assert Keys(init) <= Keys(items) by {
        assert forall i :: 0 <= i < |init| ==> init[i] == items[i];
      }
      MergeAllUntouched(outliers, init, k);
      assert items[|items| - 1].0 in Keys(items);
    }
  }

  /**
   * A list entry that only list items touch grows by their lists, in order: old items first.
   */
  lemma {:induction false} MergeAllExtends(outliers: map<string, Entry>, items: seq<(string, Entry)>, k: string)
    requires k in outliers && outliers[k].ListEntry?
    requires forall i :: 0 <= i < |items| && items[i].0 == k ==> items[i].1.ListEntry?
    requires MergeAll(outliers, items).err.None?
    ensures k in MergeAll(outliers, items).outliers
    ensures MergeAll(outliers, items).outliers[k] == ListEntry(outliers[k].items + Extension(items, k))
    decreases |items|
  {
    if items != [] {
      var init := items[..|items| - 1];
      var (key, value) := items[|items| - 1];
      assert forall i :: 0 <= i < |init| ==> init[i] == items[i];
      var p := MergeAll(outliers, init);
      assert p.err.None?;
      MergeAllExtends(outliers, init, k);
      MergeOneExtends(p.outliers, key, value, k);
      var tail := if key == k && value.ListEntry? then value.items else [];
      assert MergeAll(outliers, items) == Merge(MergeOne(p.outliers, key, value).value, None);
      assert Extension(items, k) == Extension(init, k) + tail;
      AppendAssociates(outliers[k].items, Extension(init, k), tail);
    }
  }


  /** One merged item extends the list under `k` by the item's list when the item is for `k`. */
  lemma MergeOneExtends(outliers: map<string, Entry>, key: string, value: Entry, k: string)
    requires k in outliers && outliers[k].ListEntry?
    requires key == k ==> value.ListEntry?
    requires MergeOne(outliers, key, value).Success?
    ensures var r := MergeOne(outliers, key, value).value;
      k in r && r[k] == ListEntry(outliers[k].items + if key == k && value.ListEntry? then value.items else [])
  {
    if key != k {
      assert outliers[k].items + [] == outliers[k].items;
    }
  }

  /** The concatenated lists the items carry for key `k`. */
  function Extension(items: seq<(string, Entry)>, k: string): seq<Value> {
    if items == [] then []
    else
      var (key, value) := items[|items| - 1];
      Extension(items[..|items| - 1], k) + if key == k && value.ListEntry? then value.items else []
  }

  /**
   * The project object, without its API handlers: the codebook arrives already loaded. The caller's
   * missing-data codes are stored, which the code as written omits.
   */
  class REDCapProject {
    var forms: map<string, Form>
    var outliers: map<string, Entry>
    var missingDatacodes: map<string, string>
    var codebook: seq<CodebookRow>
    var identifierFields: seq<string>

    constructor (codebook: seq<CodebookRow>, missingDatacodes: Option<map<string, string>>)
      ensures this.codebook == codebook && forms == map[] && outliers == InitialOutliers
      ensures identifierFields == IdentifierFields(codebook)
      ensures this.missingDatacodes == MissingCodes(missingDatacodes)
    {
      forms := map[];
      outliers := InitialOutliers;
      this.codebook := codebook;
      identifierFields := IdentifierFields(codebook);
      this.missingDatacodes := MissingCodes(missingDatacodes);
    }

    /** `update_forms`. */
    method UpdateForms(forms: map<string, Form>)
      modifies this
      ensures this.forms == forms
      ensures outliers == old(outliers) && codebook == old(codebook) && identifierFields == old(identifierFields)
      ensures missingDatacodes == old(missingDatacodes)
    {
      this.forms := forms;
    }

    /** `update_single_form`: only the named form changes. */
    method UpdateSingleForm(formName: string, form: Form)
      modifies this
      ensures forms == old(forms)[formName := form]
      ensures forall n :: n in old(forms) && n != formName ==> n in forms && forms[n] == old(forms)[n]
      ensures outliers == old(outliers) && codebook == old(codebook) && identifierFields == old(identifierFields)
      ensures missingDatacodes == old(missingDatacodes)
    {
      forms := forms[formName := form];
    }

    /** One key of `update_outliers`; on an exception the dictionary is left as it was. */
    method MergeItem(key: string, value: Entry) returns (err: Option<Error>)
      modifies this
      ensures var q := MergeOne(old(outliers), key, value);
        if q.Failure? then err == Some(q.error) && outliers == old(outliers) else err.None? && outliers == q.value
      ensures forms == old(forms) && codebook == old(codebook) && identifierFields == old(identifierFields)
      ensures missingDatacodes == old(missingDatacodes)
    {
      err := None;
      if value.ListEntry? {
        if key !in outliers {
          outliers := outliers[key := value];
        } else if outliers[key].ListEntry? {
          outliers := outliers[key := ListEntry(outliers[key].items + value.items)];
        } else {
          err := Some(AttributeError("extend"));
        }
      } else if value.DictEntry? {
        if key !in outliers {
          outliers := outliers[key := value];
        } else if outliers[key].DictEntry? {
          outliers := outliers[key := DictEntry(outliers[key].entries + value.entries)];
        } else {
          err := Some(AttributeError("update"));
        }
      }
    }

    /** `update_outliers`: the loop over the argument's items. */
    method UpdateOutliers(items: seq<(string, Entry)>) returns (err: Option<Error>)
      modifies this
      ensures MergeAll(old(outliers), items) == Merge(outliers, err)
      ensures forms == old(forms) && codebook == old(codebook) && identifierFields == old(identifierFields)
      ensures missingDatacodes == old(missingDatacodes)
    {
      var i := 0;
      while i < |items|
        invariant 0 <= i <= |items|
        invariant forms == old(forms) && codebook == old(codebook) && identifierFields == old(identifierFields)
        invariant missingDatacodes == old(missingDatacodes)
        invariant MergeAll(old(outliers), items[..i]) == Merge(outliers, None)
      {
        MergeAllNext(old(outliers), items, i);
        var e := MergeItem(items[i].0, items[i].1);
        if e.Some? {
          MergeAllStops(old(outliers), items, i + 1);
          return e;
        }
        i := i + 1;
      }
      assert items[..i] == items;
      err := None;
    }
  }

  /** One more item: the merge of the prefix, then that item's merge. */
  lemma MergeAllNext(outliers: map<string, Entry>, items: seq<(string, Entry)>, i: nat)
    requires i < |items| && MergeAll(outliers, items[..i]).err.None?
    ensures var p := MergeAll(outliers, items[..i]).outliers;
      var q := MergeOne(p, items[i].0, items[i].1);
      MergeAll(outliers, items[..i + 1]) == if q.Failure? then Merge(p, Some(q.error)) else Merge(q.value, None)
  {
    assert items[..i + 1][..i] == items[..i];
  }

  /** Once an item raises, the later items are not merged. */
  lemma {:induction false} MergeAllStops(outliers: map<string, Entry>, items: seq<(string, Entry)>, k: nat)
    requires k <= |items| && MergeAll(outliers, items[..k]).err.Some?
    ensures MergeAll(outliers, items) == MergeAll(outliers, items[..k])
    decreases |items| - k
  {
    if k < |items| {
      var init := items[..|items| - 1];
      assert init[..k] == items[..k];
      MergeAllStops(outliers, init, k);
    } else {
      assert items[..k] == items;
    }
  }
}
