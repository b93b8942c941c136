/**
 * The project's custom outlier rules. Each rule reads the forms, never writes them, and
 * returns the arguments for one `process_invalid_records` call: the frame, the column, the
 * form name, the flagged record ids and the reason.
 */
module CustomRules {
  import opened Wrappers
  import opened Text
  import opened Frames
  import Checksums

  /** The five-key dictionary every rule returns. */
  datatype RuleResult = RuleResult(df: Form, column: string, formName: string, invalidRecords: seq<string>, reasonDesc: string)

  const Separator := " - "

  const DiagnosisForm := "diagnostico"

  const ComorbidityForm := "comorbidade"

  const DiagnosisColumn := "doenca_cid10"

  const ComorbidityColumn := "cid10_comorbidade"

  const IdentificationForm := "identificacao"

  const CpfColumn := "cpf"

  const CidReason := "CID10 Diagn\U{f3}stico igual ao CID10 comorbidade"

  const InvalidCpfReason := "CPF invalidado pelo algoritmo de verifica\U{e7}\U{e3}o"

  const MissingCpfReason := "CPF em branco ou uso de missing data code"

  /** The first separator of `s` starts at index `k`. */
  predicate FirstSeparator(s: string, k: nat) {
    OccursAt(s, Separator, k) && forall j: nat :: j < k ==> !OccursAt(s, Separator, j)
  }

  /**
   * `s.split(' - ')[1]`: the text between the first separator and the next one (or the end);
   * `None` when there is no separator and the index raises.
   */
  function SecondField(s: string): (r: Option<string>)
    ensures r.None? <==> forall j: nat :: !OccursAt(s, Separator, j)
    ensures r.Some? ==> exists i: nat :: FirstSeparator(s, i) && FieldAt(s, i + |Separator|, r.value)
  {
    match Find(s, Separator)
    case None => None
    case Some(i) =>
      var rest := s[i + |Separator|..];
      SecondFieldIsField(s, i);
      match Find(rest, Separator)
      case None => Some(rest)
      case Some(j) => Some(rest[..j])
  }

  lemma SecondFieldIsField(s: string, i: nat)
    requires Find(s, Separator) == Some(i)
    ensures var rest := s[i + |Separator|..];
      && FirstSeparator(s, i)
      && (Find(rest, Separator).None? ==> FieldAt(s, i + |Separator|, rest))
      && (Find(rest, Separator).Some? ==> FieldAt(s, i + |Separator|, rest[..Find(rest, Separator).value]))
  {
    var k := i + |Separator|;
    var rest := s[k..];
    match Find(rest, Separator)
    case None =>
      assert s[k..k + |rest|] == rest;
      forall m: nat | k <= m < k + |rest| ensures !OccursAt(s, Separator, m) {
        OccursInSuffix(s, k, m);
      }
    case Some(j) =>
      FieldBeforeSeparator(s, k, j);
  }

  /** The text up to the first separator after index `k` is a field. */
  lemma FieldBeforeSeparator(s: string, k: nat, j: nat)
    requires k <= |s| && Find(s[k..], Separator) == Some(j)
    ensures FieldAt(s, k, s[k..][..j])
  {
    var rest := s[k..];
    var f := rest[..j];
    assert s[k..k + j] == f;
    forall m: nat | k <= m < k + j ensures !OccursAt(s, Separator, m) {
      OccursInSuffix(s, k, m);
    }
    OccursInSuffix(s, k, k + j);
  }

  /** A separator at index `m` of `s` is one at index `m - k` of `s[k..]`. */
  lemma OccursInSuffix(s: string, k: nat, m: nat)
    requires k <= m && k <= |s|
    ensures OccursAt(s, Separator, m) <==> OccursAt(s[k..], Separator, m - k)
  {
    if m + |Separator| <= |s| {
      assert s[m..m + |Separator|] == s[k..][m - k..m - k + |Separator|];
    }
  }

  /**
   * `f` starts at index `k` of `s`, no separator of `s` starts inside it, and it is followed by a
   * separator or by the end of `s`.
   */
  predicate FieldAt(s: string, k: nat, f: string) {
    && k + |f| <= |s| && s[k..k + |f|] == f
    && (forall j: nat :: k <= j < k + |f| ==> !OccursAt(s, Separator, j))
    && (k + |f| == |s| || OccursAt(s, Separator, k + |f|))
  }

  /** At most one field starts at a given index, so `SecondField`'s contract fixes its value. */
  lemma FieldAtUnique(s: string, k: nat, f: string, g: string)
    requires FieldAt(s, k, f) && FieldAt(s, k, g)
    ensures f == g
  {
  }

  /** `x.split(' - ')[1].strip()` on a non-null diagnosis cell; a number has no `split`. */
  function DiagnosisCid(v: Value): (r: Result<Option<string>, Error>)
    ensures v.Null? ==> r == Success(None)
    ensures v.Num? ==> r == Failure(AttributeError("split"))
    ensures v.Str? ==> (r.Failure? <==> SecondField(v.s).None?)
    ensures v.Str? && r.Success? ==> r == Success(Some(Strip(SecondField(v.s).value)))
  {
    match v
    case Null => Success(None)
    case Num(_) => Failure(AttributeError("split"))
    case Str(s) =>
      match SecondField(s)
      case None => Failure(IndexError)
      case Some(f) => Success(Some(Strip(f)))
  }

  /** The rows of `right` that share `l`'s record id, each paired with `l`. */
  function Partners(l: Row, right: seq<Row>): (r: seq<(Row, Row)>)
    ensures forall p :: p in r <==> p.0 == l && p.1 in right && p.1.recordId == l.recordId
  {
    if right == [] then []
    else (if right[0].recordId == l.recordId then [(l, right[0])] else []) + Partners(l, right[1..])
  }

  /** `pd.merge(left, right, on=['record_id'])`: every pair of rows with the same id, left-major. */
  function Joined(left: seq<Row>, right: seq<Row>): (r: seq<(Row, Row)>)
    ensures forall p :: p in r <==> p.0 in left && p.1 in right && p.0.recordId == p.1.recordId
  {
    if left == [] then [] else Partners(left[0], right) + Joined(left[1..], right)
  }

  /**
   * A joined column keeps its name only when exactly one side has it (otherwise the merge
   * suffixes it); its value comes from that side.
   */
  predicate Joinable(left: Form, right: Form, column: string) {
    (column in left.columns) != (column in right.columns)
  }

  function JoinedCell(p: (Row, Row), left: Form, column: string): Value {
    if column in left.columns then Cell(p.0, column) else Cell(p.1, column)
  }

  /** The diagnosis cell of pair `i` is the first one that raises. */
  predicate FirstBadCell(pairs: seq<(Row, Row)>, left: Form, i: int) {
    && 0 <= i < |pairs|
    && DiagnosisCid(JoinedCell(pairs[i], left, DiagnosisColumn)).Failure?
    && forall j :: 0 <= j < i ==> DiagnosisCid(JoinedCell(pairs[j], left, DiagnosisColumn)).Success?
  }

  /** The `apply` over the joined diagnosis column: the first malformed cell raises. */
  function DiagnosisCids(pairs: seq<(Row, Row)>, left: Form): (r: Result<seq<Option<string>>, Error>)
    ensures r.Success? <==> forall i :: 0 <= i < |pairs| ==> DiagnosisCid(JoinedCell(pairs[i], left, DiagnosisColumn)).Success?
    ensures r.Success? ==> |r.value| == |pairs|
    ensures r.Success? ==> forall i :: 0 <= i < |pairs| ==> r.value[i] == DiagnosisCid(JoinedCell(pairs[i], left, DiagnosisColumn)).value
    ensures r.Failure? ==> exists i :: FirstBadCell(pairs, left, i) && DiagnosisCid(JoinedCell(pairs[i], left, DiagnosisColumn)) == Failure(r.error)
  {
    if pairs == [] then Success([])
    else
      var d := DiagnosisCid(JoinedCell(pairs[0], left, DiagnosisColumn));
      var t := DiagnosisCids(pairs[1..], left);
      assert forall i :: 1 <= i < |pairs| ==> pairs[i] == pairs[1..][i - 1];
      if d.Failure? then
        assert FirstBadCell(pairs, left, 0);
        Failure(d.error)
      else if t.Failure? then
        var k :| FirstBadCell(pairs[1..], left, k) && DiagnosisCid(JoinedCell(pairs[1..][k], left, DiagnosisColumn)) == Failure(t.error);
        assert FirstBadCell(pairs, left, k + 1);
        t
      else Success([d.value] + t.value)
  }

  /** The pair's diagnosis code is present and equals its comorbidity cell. */
  predicate Agrees(p: (Row, Row), cid: Option<string>, left: Form) {
    cid.Some? && JoinedCell(p, left, ComorbidityColumn) == Str(cid.value)
  }

  /** The record ids of the agreeing pairs, one per pair, in join order. */
  function PairIds(pairs: seq<(Row, Row)>, cids: seq<Option<string>>, left: Form): (r: seq<string>)
    requires |cids| == |pairs|
    ensures |r| <= |pairs|
    ensures forall x :: x in r <==> exists i :: 0 <= i < |pairs| && Agrees(pairs[i], cids[i], left) && pairs[i].0.recordId == x
  {
    if pairs == [] then []
    else
      var t := PairIds(pairs[1..], cids[1..], left);
      assert forall i :: 1 <= i < |pairs| ==> pairs[i] == pairs[1..][i - 1] && cids[i] == cids[1..][i - 1];
      (if Agrees(pairs[0], cids[0], left) then [pairs[0].0.recordId] else []) + t
  }

  /**
   * The list keeps join order and lists an id once per agreeing pair: one pair gives its id
   * exactly when it agrees, and the list of a concatenation is the concatenation of the lists.
   */
  lemma {:induction false} PairIdsAppend(a: seq<(Row, Row)>, ca: seq<Option<string>>, b: seq<(Row, Row)>,
                                         cb: seq<Option<string>>, left: Form, p: (Row, Row), c: Option<string>)
    requires |ca| == |a| && |cb| == |b|
    ensures PairIds(a + b, ca + cb, left) == PairIds(a, ca, left) + PairIds(b, cb, left)
    ensures PairIds([p], [c], left) == if Agrees(p, c, left) then [p.0.recordId] else []
  {
    assert [p][1..] == [] && [c][1..] == [];
    if a == [] {
      assert a + b == b && ca + cb == cb;
    } else {
      var head := if Agrees(a[0], ca[0], left) then [a[0].0.recordId] else [];
      assert (a + b)[0] == a[0] && (a + b)[1..] == a[1..] + b;
      assert (ca + cb)[0] == ca[0] && (ca + cb)[1..] == ca[1..] + cb;
      assert PairIds(a + b, ca + cb, left) == head + PairIds(a[1..] + b, ca[1..] + cb, left);
      PairIdsAppend(a[1..], ca[1..], b, cb, left, p, c);
      AppendAssociates(head, PairIds(a[1..], ca[1..], left), PairIds(b, cb, left));
    }
  }

  /** `diag_cid_equals_comorb_cid`. */
  function DiagCidEqualsComorbCid(forms: map<string, Form>): (r: Result<RuleResult, Error>)
    ensures DiagnosisForm !in forms ==> r == Failure(KeyError(DiagnosisForm))
    ensures DiagnosisForm in forms && ComorbidityForm !in forms ==> r == Failure(KeyError(ComorbidityForm))
    ensures DiagnosisForm in forms && ComorbidityForm in forms ==>
      var ds, cs := forms[DiagnosisForm], forms[ComorbidityForm];
      var cids := DiagnosisCids(Joined(ds.rows, cs.rows), ds);
      && (!Joinable(ds, cs, DiagnosisColumn) ==> r == Failure(KeyError(DiagnosisColumn)))
      && (Joinable(ds, cs, DiagnosisColumn) && cids.Failure? ==> r == Failure(cids.error))
      && (Joinable(ds, cs, DiagnosisColumn) && cids.Success? && !Joinable(ds, cs, ComorbidityColumn) ==>
           r == Failure(KeyError(ComorbidityColumn)))
      && (Joinable(ds, cs, DiagnosisColumn) && Joinable(ds, cs, ComorbidityColumn) && cids.Success? ==> r.Success?)
    ensures r.Success? ==> (DiagnosisForm in forms && ComorbidityForm in forms
      && Joinable(forms[DiagnosisForm], forms[ComorbidityForm], DiagnosisColumn)
      && Joinable(forms[DiagnosisForm], forms[ComorbidityForm], ComorbidityColumn))
    ensures r.Success? ==> (r.value.df == forms[ComorbidityForm] && r.value.column == ComorbidityColumn
      && r.value.formName == ComorbidityForm && r.value.reasonDesc == CidReason)
    ensures r.Success? ==> var ds := forms[DiagnosisForm];
      forall x :: x in r.value.invalidRecords <==> exists p :: p in Joined(ds.rows, forms[ComorbidityForm].rows) && SameCid(p, ds) && p.0.recordId == x
    ensures r.Success? ==> var pairs := Joined(forms[DiagnosisForm].rows, forms[ComorbidityForm].rows);
      var cids := DiagnosisCids(pairs, forms[DiagnosisForm]);
      cids.Success? && r.value.invalidRecords == PairIds(pairs, cids.value, forms[DiagnosisForm])
  {
    if DiagnosisForm !in forms then Failure(KeyError(DiagnosisForm))
    else if ComorbidityForm !in forms then Failure(KeyError(ComorbidityForm))
    else
      var ds := forms[DiagnosisForm];
      var cs := forms[ComorbidityForm];
      var pairs := Joined(ds.rows, cs.rows);
      if !Joinable(ds, cs, DiagnosisColumn) then Failure(KeyError(DiagnosisColumn))
      else
        var cids := DiagnosisCids(pairs, ds);
        if cids.Failure? then Failure(cids.error)
        else if !Joinable(ds, cs, ComorbidityColumn) then Failure(KeyError(ComorbidityColumn))
        else
          var ids := PairIds(pairs, cids.value, ds);
          PairIdsSameCid(pairs, cids.value, ds);
          Success(RuleResult(cs, ComorbidityColumn, ComorbidityForm, ids, CidReason))
  }

  /** With the parsed diagnosis codes, the agreeing pairs are those whose two codes are the same. */
  lemma PairIdsSameCid(pairs: seq<(Row, Row)>, cids: seq<Option<string>>, ds: Form)
    requires |cids| == |pairs|
    requires forall i :: 0 <= i < |pairs| ==>
      DiagnosisCid(JoinedCell(pairs[i], ds, DiagnosisColumn)).Success?
      && cids[i] == DiagnosisCid(JoinedCell(pairs[i], ds, DiagnosisColumn)).value
    ensures forall x :: x in PairIds(pairs, cids, ds) <==> exists p :: p in pairs && SameCid(p, ds) && p.0.recordId == x
  {
    var ids := PairIds(pairs, cids, ds);
    forall x | x in ids ensures exists p :: p in pairs && SameCid(p, ds) && p.0.recordId == x {
      var i :| 0 <= i < |pairs| && Agrees(pairs[i], cids[i], ds) && pairs[i].0.recordId == x;
      assert SameCid(pairs[i], ds);
    }
    forall x | exists p :: p in pairs && SameCid(p, ds) && p.0.recordId == x ensures x in ids {
      var p :| p in pairs && SameCid(p, ds) && p.0.recordId == x;
      var i :| 0 <= i < |pairs| && pairs[i] == p;
      assert Agrees(pairs[i], cids[i], ds);
    }
  }

  /** A joined pair whose diagnosis code is present and equals its comorbidity code. */
  predicate SameCid(p: (Row, Row), left: Form) {
    var d := DiagnosisCid(JoinedCell(p, left, DiagnosisColumn));
    d.Success? && Agrees(p, d.value, left)
  }

  /** The join pairs exactly the diagnosis and comorbidity rows of one record. */
  lemma JoinedPairsRows(ds: seq<Row>, cs: seq<Row>, i: nat, j: nat)
    requires i < |ds| && j < |cs| && ds[i].recordId == cs[j].recordId
    ensures (ds[i], cs[j]) in Joined(ds, cs)
  {
    assert ds[i] in ds && cs[j] in cs;
  }

  /**
   * A record id is listed once per agreeing pair, so it can repeat: two agreeing pairs of the
   * same record list its id at least twice.
   */
  lemma CidIdsRepeat(pairs: seq<(Row, Row)>, cids: seq<Option<string>>, left: Form, i: nat, j: nat)
    requires |cids| == |pairs| && i < j < |pairs|
    requires Agrees(pairs[i], cids[i], left) && Agrees(pairs[j], cids[j], left)
    requires pairs[i].0.recordId == pairs[j].0.recordId
    ensures multiset(PairIds(pairs, cids, left))[pairs[i].0.recordId] >= 2
  {
    var x := pairs[i].0.recordId;
    var front, back := PairIds(pairs[..j], cids[..j], left), PairIds(pairs[j..], cids[j..], left);
    assert PairIds(pairs, cids, left) == front + back by {
      assert pairs == pairs[..j] + pairs[j..] && cids == cids[..j] + cids[j..];
      PairIdsAppend(pairs[..j], cids[..j], pairs[j..], cids[j..], left, pairs[j], cids[j]);
    }
    assert x in front by {
      assert pairs[..j][i] == pairs[i] && cids[..j][i] == cids[i];
    }
    assert x in back by {
      PairIdsLeading(pairs[j..], cids[j..], left);
    }
    assert multiset(front + back)[x] == multiset(front)[x] + multiset(back)[x];
  }

  /** A list whose first pair agrees starts with that pair's id. */
  lemma PairIdsLeading(pairs: seq<(Row, Row)>, cids: seq<Option<string>>, left: Form)
    requires |cids| == |pairs| && pairs != [] && Agrees(pairs[0], cids[0], left)
    ensures PairIds(pairs, cids, left) != [] && PairIds(pairs, cids, left)[0] == pairs[0].0.recordId
  {
  }

  /** Python `str()` of a cell. */
  function PyStr(v: Value): string {
    match v
    case Null => "nan"
    case Str(s) => s
    case Num(n) => IntToDecimal(n)
  }

  /** A non-null CPF cell that `validate_cpf(..., return_value=False)` does not accept. */
  predicate CpfRejected(v: Value) {
    v != Null && Checksums.ValidateCpf(PyStr(v), false) != Checksums.Bool(true)
  }

  /** The record ids of the rows whose CPF cell is rejected (`missing` false) or null (`missing` true). */
  function CpfIds(rows: seq<Row>, missing: bool): (r: seq<string>)
    ensures |r| <= |rows|
    ensures !missing ==> forall x :: x in r <==> exists i :: 0 <= i < |rows| && CpfRejected(Cell(rows[i], CpfColumn)) && rows[i].recordId == x
    ensures missing ==> forall x :: x in r <==> exists i :: 0 <= i < |rows| && Cell(rows[i], CpfColumn) == Null && rows[i].recordId == x
  {
    if rows == [] then []
    else
      var c := Cell(rows[0], CpfColumn);
      var t := CpfIds(rows[1..], missing);
      assert forall i :: 1 <= i < |rows| ==> rows[i] == rows[1..][i - 1];
      (if (if missing then c == Null else CpfRejected(c)) then [rows[0].recordId] else []) + t
  }

  /** The id list keeps table order and lists an id once per matching row. */
  lemma {:induction false} CpfIdsAppend(a: seq<Row>, b: seq<Row>, missing: bool, x: Row)
    ensures CpfIds(a + b, missing) == CpfIds(a, missing) + CpfIds(b, missing)
    ensures var c := Cell(x, CpfColumn);
      CpfIds([x], missing) == if (if missing then c == Null else CpfRejected(c)) then [x.recordId] else []
  {
    assert [x][1..] == [];
    if a == [] {
      assert a + b == b;
    } else {
      var c := Cell(a[0], CpfColumn);
      var head := if (if missing then c == Null else CpfRejected(c)) then [a[0].recordId] else [];
      assert (a + b)[0] == a[0] && (a + b)[1..] == a[1..] + b;
      assert CpfIds(a + b, missing) == head + CpfIds(a[1..] + b, missing);
      CpfIdsAppend(a[1..], b, missing, x);
      AppendAssociates(head, CpfIds(a[1..], missing), CpfIds(b, missing));
    }
  }

  /** `check_invalid_cpf` (`missing` false) and `check_missing_cpf` (`missing` true). */
  function CpfRule(forms: map<string, Form>, missing: bool): (r: Result<RuleResult, Error>)
    ensures IdentificationForm !in forms ==> r == Failure(KeyError(IdentificationForm))
    ensures IdentificationForm in forms && CpfColumn !in forms[IdentificationForm].columns ==> r == Failure(KeyError(CpfColumn))
    ensures IdentificationForm in forms && CpfColumn in forms[IdentificationForm].columns ==> r.Success?
    ensures r.Success? ==> (r.value.df == forms[IdentificationForm] && r.value.column == CpfColumn
      && r.value.formName == IdentificationForm
      && r.value.reasonDesc == if missing then MissingCpfReason else InvalidCpfReason)
    ensures r.Success? ==> r.value.invalidRecords == CpfIds(forms[IdentificationForm].rows, missing)
  {
    if IdentificationForm !in forms then Failure(KeyError(IdentificationForm))
    else
      var f := forms[IdentificationForm];
      if CpfColumn !in f.columns then Failure(KeyError(CpfColumn))
      else Success(RuleResult(f, CpfColumn, IdentificationForm, CpfIds(f.rows, missing),
        if missing then MissingCpfReason else InvalidCpfReason))
  }

  function CheckInvalidCpf(forms: map<string, Form>): Result<RuleResult, Error> { CpfRule(forms, false) }

  function CheckMissingCpf(forms: map<string, Form>): Result<RuleResult, Error> { CpfRule(forms, true) }

  /**
   * The two CPF rules never list the same record off the same row: an id on both lists has a
   * null row and a non-null row, so on a form with one row per record the lists are disjoint.
   */
  lemma CpfListsDisjoint(forms: map<string, Form>, x: string)
    requires CheckInvalidCpf(forms).Success?
    requires x in CheckInvalidCpf(forms).value.invalidRecords && x in CheckMissingCpf(forms).value.invalidRecords
    ensures var rows := forms[IdentificationForm].rows;
      exists i, j :: 0 <= i < |rows| && 0 <= j < |rows| && i != j && rows[i].recordId == x && rows[j].recordId == x
        && Cell(rows[i], CpfColumn) != Null && Cell(rows[j], CpfColumn) == Null
  {
    var rows := forms[IdentificationForm].rows;
    var i :| 0 <= i < |rows| && CpfRejected(Cell(rows[i], CpfColumn)) && rows[i].recordId == x;
    var j :| 0 <= j < |rows| && Cell(rows[j], CpfColumn) == Null && rows[j].recordId == x;
  }

  /** A valid CPF cell is never listed as invalid, whatever its punctuation. */
  lemma ValidCpfNotListed(forms: map<string, Form>, i: nat)
    requires CheckInvalidCpf(forms).Success?
    requires i < |forms[IdentificationForm].rows|
    requires var c := Cell(forms[IdentificationForm].rows[i], CpfColumn);
      c.Str? && Checksums.CpfValid(Checksums.Digits(c.s))
    requires forall j :: 0 <= j < |forms[IdentificationForm].rows| ==>
      forms[IdentificationForm].rows[j].recordId == forms[IdentificationForm].rows[i].recordId ==> j == i
    ensures forms[IdentificationForm].rows[i].recordId !in CheckInvalidCpf(forms).value.invalidRecords
  {
    var rows := forms[IdentificationForm].rows;
    var r := Checksums.ValidateCpf(Cell(rows[i], CpfColumn).s, false);
    assert Checksums.Accepted(r);
  }
}
