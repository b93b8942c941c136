/**
 * The two national-identifier check-digit validators of the transformer handler:
 * CPF (Brazilian taxpayer number, two mod-11 check digits) and
 * CNS (national health card, mod-11 with weights 15 down to 1).
 */
module Checksums {
  import opened Wrappers
  import opened Text

  /**
   * What the validators hand back. In value mode (`return_value=True`) a success is a
   * string and a failure is NaN; in boolean mode both are booleans.
   */
  datatype Answer = Str(s: string) | NaN | Bool(b: bool)

  function Reject(returnValue: bool): (r: Answer)
    ensures !Accepted(r)
  {
    if returnValue then NaN else Bool(false)
  }

  predicate Accepted(r: Answer) { r.Str? || r == Bool(true) }

  /** The integer values of the digit characters of `s`, other characters discarded. */
  function Digits(s: string): (ds: seq<int>)
    ensures |ds| <= |s|
    ensures forall i :: 0 <= i < |ds| ==> 0 <= ds[i] <= 9
  {
    if s == [] then []
    else (if IsDigit(s[0]) then [DigitValue(s[0])] else []) + Digits(s[1..])
  }

  /**
   * Digit extraction works character by character and keeps order: a digit character gives its
   * value, any other character nothing, and the digits of a concatenation are the concatenation
   * of the digits.
   */
  lemma {:induction false} DigitsAppend(a: string, b: string, c: char)
    ensures Digits(a + b) == Digits(a) + Digits(b)
    ensures Digits([c]) == if IsDigit(c) then [DigitValue(c)] else []
  {
    assert [c][1..] == [];
    if a == [] {
      assert a + b == b;
    } else {
      var head := if IsDigit(a[0]) then [DigitValue(a[0])] else [];
      assert (a + b)[0] == a[0] && (a + b)[1..] == a[1..] + b;
      assert Digits(a + b) == head + Digits(a[1..] + b);
      DigitsAppend(a[1..], b, c);
      AppendAssociates(head, Digits(a[1..]), Digits(b));
    }
  }

  /** The string of the digits `ds`. */
  function DigitString(ds: seq<int>): (s: string)
    requires forall i :: 0 <= i < |ds| ==> 0 <= ds[i] <= 9
    ensures |s| == |ds| && forall i :: 0 <= i < |s| ==> IsDigit(s[i])
  {
    if ds == [] then "" else [DigitChar(ds[0])] + DigitString(ds[1..])
  }

  /** The sum of `ds[i] * (w - i)`: the digits weighted by `w`, `w - 1`, ... */
  function WeightedSum(ds: seq<int>, w: int): int {
    if ds == [] then 0 else ds[0] * w + WeightedSum(ds[1..], w - 1)
  }

  /** A CPF check digit: `(sum * 10 mod 11) mod 10`. */
  function CpfCheckDigit(ds: seq<int>, w: int): (d: int)
    ensures 0 <= d <= 9
  {
    (WeightedSum(ds, w) * 10 % 11) % 10
  }

  /** The CPF rule: eleven digits whose last two are the check digits of the first nine and ten. */
  predicate CpfValid(ds: seq<int>) {
    && |ds| == 11
    && ds[9] == CpfCheckDigit(ds[..9], 10)
    && ds[10] == CpfCheckDigit(ds[..10], 11)
  }

  /** `validate_cpf(cpf, return_value)`. */
  function ValidateCpf(cpf: string, returnValue: bool): (r: Answer)
    ensures |Digits(cpf)| != 11 ==> r == Reject(returnValue)
    ensures Accepted(r) <==> CpfValid(Digits(cpf))
    ensures !Accepted(r) ==> r == Reject(returnValue)
    ensures Accepted(r) && !returnValue ==> r == Bool(true)
    ensures Accepted(r) && returnValue ==>
      r.Str? && |r.s| == 11 && (forall i :: 0 <= i < 11 ==> IsDigit(r.s[i])) && Digits(r.s) == Digits(cpf)
  {
    var ds := Digits(cpf);
    if |ds| != 11 then Reject(returnValue)
    else if ds[9] != CpfCheckDigit(ds[..9], 10) then Reject(returnValue)
    else if ds[10] != CpfCheckDigit(ds[..10], 11) then Reject(returnValue)
    else if returnValue then (DigitsOfDigitString(ds); Str(DigitString(ds)))
    else Bool(true)
  }

  lemma {:induction false} DigitsOfDigitString(ds: seq<int>)
    requires forall i :: 0 <= i < |ds| ==> 0 <= ds[i] <= 9
    ensures Digits(DigitString(ds)) == ds
  {
    if ds != [] {
      var s := DigitString(ds);
      assert s[1..] == DigitString(ds[1..]);
      DigitsOfDigitString(ds[1..]);
    }
  }

  /** Normalising is idempotent: validating the normalised string gives it back. */
  lemma CpfNormalisationIdempotent(cpf: string)
    requires ValidateCpf(cpf, true).Str?
    ensures ValidateCpf(ValidateCpf(cpf, true).s, true) == ValidateCpf(cpf, true)
  {
    var ds := Digits(cpf);
    DigitsOfDigitString(ds);
  }

  /** A digit-only string that is not exactly eleven long takes the wrong-length path. */
  lemma {:induction false} DigitsOfDigitOnly(s: string)
    requires forall i :: 0 <= i < |s| ==> IsDigit(s[i])
    ensures |Digits(s)| == |s|
    ensures forall i :: 0 <= i < |s| ==> Digits(s)[i] == DigitValue(s[i])
  {
    if s != [] {
      DigitsOfDigitOnly(s[1..]);
    }
  }

  lemma CpfWrongLength(s: string, returnValue: bool)
    requires forall i :: 0 <= i < |s| ==> IsDigit(s[i])
    requires |s| == 10 || |s| == 12
    ensures ValidateCpf(s, returnValue) == Reject(returnValue)
  {
    DigitsOfDigitOnly(s);
  }

  /** The well-known valid number 111.444.777-35. */
  lemma CpfKnownValid(cpf: string)
    requires cpf == "11144477735"
    ensures ValidateCpf(cpf, false) == Bool(true)
  {
    var ds := [1, 1, 1, 4, 4, 4, 7, 7, 7, 3, 5];
    DigitsOfDigitOnly(cpf);
    assert Digits(cpf) == ds;
    KnownCheckDigits(ds);
  }

  /** A punctuation character anywhere in the number is ignored. */
  lemma PunctuationIgnored(a: string, b: string, p: char)
    requires !IsDigit(p)
    ensures Digits(a + [p] + b) == Digits(a + b)
    ensures ValidateCpf(a + [p] + b, true) == ValidateCpf(a + b, true)
  {
    DigitsAppend(a, [p] + b, p);
    DigitsAppend([p], b, p);
    DigitsAppend(a, b, p);
    AppendAssociates(a, [p], b);
  }

  /** The same number written with its usual punctuation normalises to its eleven digits. */
  lemma CpfPunctuatedValid(cpf: string)
    requires cpf == "111.444.777-35"
    ensures ValidateCpf(cpf, true) == Str("11144477735")
  {
    assert cpf == "111" + ['.'] + "444.777-35";
    PunctuationIgnored("111", "444.777-35", '.');
    assert "111" + "444.777-35" == "111444" + ['.'] + "777-35";
    PunctuationIgnored("111444", "777-35", '.');
    assert "111444" + "777-35" == "111444777" + ['-'] + "35";
    PunctuationIgnored("111444777", "35", '-');
    assert "111444777" + "35" == "11144477735";
    CpfKnownNormalised("11144477735");
  }

  /** Normalising the plain number gives it back. */
  lemma CpfKnownNormalised(cpf: string)
    requires cpf == "11144477735"
    ensures ValidateCpf(cpf, true) == Str(cpf)
  {
    CpfKnownValid(cpf);
    var r := ValidateCpf(cpf, true);
    DigitsOfDigitOnly(cpf);
    DigitStringDetermined(r.s, cpf);
  }

  /** Two strings of digits only with the same digits are the same string. */
  lemma DigitStringDetermined(s: string, t: string)
    requires forall i :: 0 <= i < |s| ==> IsDigit(s[i])
    requires forall i :: 0 <= i < |t| ==> IsDigit(t[i])
    requires Digits(s) == Digits(t)
    ensures s == t
  {
    DigitsOfDigitOnly(s);
    DigitsOfDigitOnly(t);
    assert |s| == |t|;
    forall i | 0 <= i < |s|
      ensures s[i] == t[i]
    {
      assert DigitValue(s[i]) == Digits(s)[i] == DigitValue(t[i]);
      assert s[i] as int == t[i] as int;
    }
  }

  lemma KnownCheckDigits(ds: seq<int>)
    requires ds == [1, 1, 1, 4, 4, 4, 7, 7, 7, 3, 5]
    ensures CpfValid(ds)
  {
    assert ds[..9] == [1, 1, 1, 4, 4, 4, 7, 7, 7];
    assert ds[..10] == [1, 1, 1, 4, 4, 4, 7, 7, 7, 3];
    assert WeightedSum([1, 1, 1, 4, 4, 4, 7, 7, 7], 10) == 162;
    assert WeightedSum([1, 1, 1, 4, 4, 4, 7, 7, 7, 3], 11) == 204;
  }

  function WeightTotal(n: nat, w: int): int {
    if n == 0 then 0 else w + WeightTotal(n - 1, w - 1)
  }

  lemma {:induction false} ConstantWeightedSum(d: int, n: nat, w: int)
    ensures WeightedSum(seq(n, _ => d), w) == d * WeightTotal(n, w)
  {
    if n > 0 {
      assert seq(n, _ => d)[1..] == seq(n - 1, _ => d);
      ConstantWeightedSum(d, n - 1, w - 1);
    }
  }

  /** The source has no repeated-digit rule, and every repeated-digit string passes both check digits. */
  lemma CpfAcceptsRepeatedDigits(d: int)
    requires 0 <= d <= 9
    ensures ValidateCpf(DigitString(seq(11, _ => d)), false) == Bool(true)
  {
    var ds := seq(11, _ => d);
    DigitsOfDigitString(ds);
    RepeatedCheckDigits(d, ds);
  }

  lemma RepeatedCheckDigits(d: int, ds: seq<int>)
    requires 0 <= d <= 9 && ds == seq(11, _ => d)
    ensures CpfValid(ds)
  {
    assert ds[..9] == seq(9, _ => d);
    assert ds[..10] == seq(10, _ => d);
    ConstantWeightedSum(d, 9, 10);
    ConstantWeightedSum(d, 10, 11);
    assert WeightTotal(9, 10) == 54;
    assert WeightTotal(10, 11) == 65;
  }

  // ---------------------------------------------------------------- CNS

  /** `int(c)` on each character in turn: the digit values, or the first character `int` refuses. */
  function ParseDigits(s: string): (r: Result<seq<int>, char>)
    ensures r.Success? <==> forall i :: 0 <= i < |s| ==> IsDigit(s[i])
    ensures r.Success? ==> |r.value| == |s| && forall i :: 0 <= i < |s| ==> r.value[i] == DigitValue(s[i])
    ensures r.Failure? ==> !IsDigit(r.error) && r.error in s
  {
    if s == [] then Success([])
    else if !IsDigit(s[0]) then Failure(s[0])
    else match ParseDigits(s[1..])
      case Failure(c) => Failure(c)
      case Success(ds) => Success([DigitValue(s[0])] + ds)
  }

  /** `11 - soma % 11`, or 0 when the remainder is 0. */
  function CnsCheckValue(soma: int): (dv: int)
    ensures 0 <= dv <= 10
    ensures dv == 10 <==> soma % 11 == 1
    ensures soma % 11 == 0 <==> dv == 0
  {
    var resto := soma % 11;
    if resto != 0 then 11 - resto else 0
  }

  /**
   * The value the source rebuilds from the first eleven characters `pis` of a CNS that starts
   * with 1 or 2: `pis + "000" + dv`, or `pis + "001" + dv2` when `dv` is 10.
   */
  function CnsReconstruct(pis: string): (r: Result<string, char>)
    ensures r.Success? <==> forall i :: 0 <= i < |pis| ==> IsDigit(pis[i])
    ensures r.Success? ==> |r.value| == |pis| + 4 && r.value[..|pis|] == pis
    ensures r.Success? ==>
      var soma := WeightedSum(ParseDigits(pis).value, 15);
      if soma % 11 == 1 then r.value[|pis|..] == "0018"
      else r.value[|pis|..] == "000" + [DigitChar(CnsCheckValue(soma))]
  {
    match ParseDigits(pis)
    case Failure(c) => Failure(c)
    case Success(ds) =>
      var soma := WeightedSum(ds, 15);
      var dv := CnsCheckValue(soma);
      if dv == 10 then
        var dv2 := CnsCheckValue(WeightedSum(ds, 15) + 2);
        assert dv2 == 8;
        Success(pis + "001" + NatToDecimal(dv2))
      else
        Success(pis + "000" + NatToDecimal(dv))
  }

  predicate LeadsPis(cns: string) { cns != [] && (cns[0] == '1' || cns[0] == '2') }

  predicate LeadsProvisional(cns: string) { cns != [] && (cns[0] == '7' || cns[0] == '8' || cns[0] == '9') }

  /**
   * `validate_cns(cns, return_value)`; a `Failure(c)` is the ValueError `int(c)` raises.
   * Only the length test looks at the stripped string.
   */
  function ValidateCns(cns: string, returnValue: bool): (r: Result<Answer, char>)
    ensures |Strip(cns)| != 15 ==> r == Success(Reject(returnValue))
    ensures !LeadsPis(cns) && !LeadsProvisional(cns) ==> r == Success(Reject(returnValue))
    ensures r.Success? && Accepted(r.value) ==> r.value == (if returnValue then Str(cns) else Bool(true))
    ensures r.Success? && !Accepted(r.value) ==> r.value == Reject(returnValue)
  {
    if |Strip(cns)| != 15 then Success(Reject(returnValue))
    else
      match CnsVerdict(cns)
      case Failure(c) => Failure(c)
      case Success(ok) => Success(if !ok then Reject(returnValue) else if returnValue then Str(cns) else Bool(true))
  }

  /** The two leading-digit routines of `validate_cns`, once the length test has passed. */
  function CnsVerdict(cns: string): (r: Result<bool, char>)
    requires |cns| >= 15
    ensures !LeadsPis(cns) && !LeadsProvisional(cns) ==> r == Success(false)
  {
    if LeadsPis(cns) then
      match CnsReconstruct(cns[..11])
      case Failure(c) => Failure(c)
      case Success(resultado) => Success(cns == resultado)
    else if LeadsProvisional(cns) then
      match ParseDigits(cns[..15])
      case Failure(c) => Failure(c)
      case Success(ds) => Success(WeightedSum(ds, 15) % 11 == 0)
    else Success(false)
  }

  /** Both modes accept the same inputs and raise on the same inputs. */
  lemma CnsModesAgree(cns: string)
    ensures ValidateCns(cns, true).Success? == ValidateCns(cns, false).Success?
    ensures ValidateCns(cns, true).Success? ==>
      (Accepted(ValidateCns(cns, true).value) <==> ValidateCns(cns, false).value == Bool(true))
  {
  }

  /** Leading 1 or 2: accepted exactly when the input equals the 15-character reconstruction. */
  lemma CnsPisBranch(cns: string, returnValue: bool)
    requires |Strip(cns)| == 15 && LeadsPis(cns)
    requires forall i :: 0 <= i < 11 ==> IsDigit(cns[i])
    ensures |CnsReconstruct(cns[..11]).value| == 15
    ensures ValidateCns(cns, returnValue).Success?
    ensures Accepted(ValidateCns(cns, returnValue).value) <==> cns == CnsReconstruct(cns[..11]).value
  {
  }

  /** Leading 7, 8 or 9: accepted exactly when the digits weighted 15..1 sum to a multiple of 11. */
  lemma CnsProvisionalBranch(cns: string, returnValue: bool)
    requires |Strip(cns)| == 15 && LeadsProvisional(cns)
    requires forall i :: 0 <= i < 15 ==> IsDigit(cns[i])
    ensures ValidateCns(cns, returnValue).Success?
    ensures Accepted(ValidateCns(cns, returnValue).value)
        <==> WeightedSum(ParseDigits(cns[..15]).value, 15) % 11 == 0
  {
  }

  /** A non-digit among the characters a branch reads raises instead of answering. */
  lemma CnsNonDigitRaises(cns: string, returnValue: bool, i: nat)
    requires |Strip(cns)| == 15
    requires (LeadsPis(cns) && i < 11) || (LeadsProvisional(cns) && i < 15)
    requires !IsDigit(cns[i])
    ensures ValidateCns(cns, returnValue).Failure?
  {
    if LeadsPis(cns) {
      assert cns[..11][i] == cns[i];
    } else {
      assert cns[..15][i] == cns[i];
    }
  }

  /** Trimming is only used for the length test: leading whitespace makes the input invalid. */
  lemma CnsLeadingSpaceRejected(cns: string, returnValue: bool)
    requires cns != [] && IsSpace(cns[0])
    ensures ValidateCns(cns, returnValue) == Success(Reject(returnValue))
  {
  }

  // ------------------------------------------- single-character changes

  lemma {:induction false} WeightedSumUpdate(ds: seq<int>, w: int, i: nat, x: int)
    requires i < |ds|
    ensures WeightedSum(ds[i := x], w) == WeightedSum(ds, w) + (x - ds[i]) * (w - i)
  {
    if i > 0 {
      assert ds[i := x][1..] == ds[1..][i - 1 := x];
      WeightedSumUpdate(ds[1..], w - 1, i - 1, x);
    } else {
      assert ds[i := x][1..] == ds[1..];
    }
  }

  lemma ParseDigitsUpdate(s: string, i: nat, c: char)
    requires i < |s| && IsDigit(c) && ParseDigits(s).Success?
    ensures ParseDigits(s[i := c]) == Success(ParseDigits(s).value[i := DigitValue(c)])
  {
    assert ParseDigits(s[i := c]).Success?;
    assert ParseDigits(s[i := c]).value == ParseDigits(s).value[i := DigitValue(c)];
  }

  /** A non-zero digit difference times a weight in 1..15 other than 11 is never a multiple of 11. */
  lemma WeightedDifferenceNonZero(d: int, k: int)
    requires -9 <= d <= 9 && d != 0
    requires 1 <= k <= 15 && k != 11
    ensures d * k % 11 != 0
  {
    if k == 1 { } else if k == 2 { } else if k == 3 { } else if k == 4 { }
    else if k == 5 { } else if k == 6 { } else if k == 7 { } else if k == 8 { }
    else if k == 9 { } else if k == 10 { } else if k == 12 { } else if k == 13 { }
    else if k == 14 { } else { assert k == 15; }
  }

  /** The last four characters rebuilt for a base whose weighted sum is `soma`. */
  function CnsSuffix(soma: int): (r: string)
    ensures |r| == 4
  {
    if soma % 11 == 1 then "0018" else "000" + [DigitChar(CnsCheckValue(soma))]
  }

  lemma CnsSuffixInjective(a: int, b: int)
    requires CnsSuffix(a) == CnsSuffix(b)
    ensures a % 11 == b % 11
  {
    assert CnsSuffix(a)[2] == CnsSuffix(b)[2];
    if a % 11 != 1 && b % 11 != 1 {
      assert CnsSuffix(a)[3] == CnsSuffix(b)[3];
      assert DigitValue(CnsSuffix(a)[3]) == CnsCheckValue(a);
      assert DigitValue(CnsSuffix(b)[3]) == CnsCheckValue(b);
    }
  }

  /** The acceptance rule for a 15-digit CNS, over its digit values `ds`. */
  predicate CnsDigitsAccepted(cns: string, ds: seq<int>)
    requires |cns| == 15 && |ds| == 15
  {
    if LeadsPis(cns) then cns[11..] == CnsSuffix(WeightedSum(ds[..11], 15))
    else LeadsProvisional(cns) && WeightedSum(ds, 15) % 11 == 0
  }

  /** On 15 digits, `validate_cns` answers by the acceptance rule. */
  lemma CnsFifteenDigits(cns: string)
    requires |cns| == 15 && forall i :: 0 <= i < 15 ==> IsDigit(cns[i])
    ensures ParseDigits(cns).Success?
    ensures ValidateCns(cns, false) == Success(Bool(CnsDigitsAccepted(cns, ParseDigits(cns).value)))
  {
    StripDigits(cns);
    CnsDigitsVerdict(cns);
  }

  /** A digit string has no surrounding whitespace to strip. */
  lemma StripDigits(s: string)
    requires s != [] && forall i :: 0 <= i < |s| ==> IsDigit(s[i])
    ensures Strip(s) == s
  {
    assert !IsSpace(s[0]) && !IsSpace(s[|s| - 1]);
  }

  /** On fifteen digits the verdict is the acceptance rule. */
  lemma CnsDigitsVerdict(cns: string)
    requires |cns| == 15 && forall i :: 0 <= i < 15 ==> IsDigit(cns[i])
    ensures ParseDigits(cns).Success?
    ensures CnsVerdict(cns) == Success(CnsDigitsAccepted(cns, ParseDigits(cns).value))
  {
    if LeadsPis(cns) {
      CnsPisVerdict(cns);
    } else {
      assert cns[..15] == cns;
    }
  }

  /** With leading 1 or 2, the verdict on fifteen digits compares the last four with the rebuilt suffix. */
  lemma CnsPisVerdict(cns: string)
    requires |cns| == 15 && forall i :: 0 <= i < 15 ==> IsDigit(cns[i]) && LeadsPis(cns)
    ensures ParseDigits(cns).Success?
    ensures CnsVerdict(cns) == Success(cns[11..] == CnsSuffix(WeightedSum(ParseDigits(cns).value[..11], 15)))
  {
    var ds := ParseDigits(cns).value;
    var pis := cns[..11];
    assert ParseDigits(pis).value == ds[..11];
    var r := CnsReconstruct(pis).value;
    assert r == pis + r[11..];
    assert cns == pis + cns[11..];
  }

  /** Accepted CNS values of exactly 15 characters are all digits. */
  lemma CnsAcceptedIsDigits(cns: string)
    requires |cns| == 15 && ValidateCns(cns, false) == Success(Bool(true))
    ensures forall i :: 0 <= i < 15 ==> IsDigit(cns[i])
  {
    if LeadsPis(cns) {
      var r := CnsReconstruct(cns[..11]).value;
      assert cns == r;
      assert forall i :: 0 <= i < 11 ==> IsDigit(cns[..11][i]);
    } else {
      assert cns[..15] == cns;
    }
  }

  predicate AllDigits(s: string) { forall k :: 0 <= k < |s| ==> IsDigit(s[k]) }

  /** Changing the digit at index `i` of an all-digit CNS changes its digit values at `i` only. */
  lemma CnsDigitChange(cns: string, i: nat, c: char)
    requires |cns| == 15 && forall k :: 0 <= k < 15 ==> IsDigit(cns[k])
    requires i < 15 && IsDigit(c)
    ensures AllDigits(cns[i := c])
    ensures ParseDigits(cns[i := c]).value == ParseDigits(cns).value[i := DigitValue(c)]
  {
    ParseDigitsUpdate(cns, i, c);
  }

  lemma FifthDigitKeepsRule(cns: string, ds: seq<int>, c: char)
    requires |cns| == 15 && |ds| == 15 && IsDigit(c)
    requires CnsDigitsAccepted(cns, ds)
    ensures CnsDigitsAccepted(cns[4 := c], ds[4 := DigitValue(c)])
  {
    var x := DigitValue(c);
    var ds' := ds[4 := x];
    var cns' := cns[4 := c];
    assert LeadsPis(cns') == LeadsPis(cns) && LeadsProvisional(cns') == LeadsProvisional(cns);
    if LeadsPis(cns) {
      assert ds'[..11] == ds[..11][4 := x];
      WeightedSumUpdate(ds[..11], 15, 4, x);
      ModElevenShift(WeightedSum(ds[..11], 15), x - ds[4]);
      CnsSuffixMod(WeightedSum(ds'[..11], 15), WeightedSum(ds[..11], 15));
      assert cns'[11..] == cns[11..];
    } else {
      WeightedSumUpdate(ds, 15, 4, x);
      ModElevenShift(WeightedSum(ds, 15), x - ds[4]);
    }
  }

  lemma ModElevenShift(a: int, d: int)
    ensures (a + d * 11) % 11 == a % 11
  {
  }

  lemma CnsSuffixMod(a: int, b: int)
    requires a % 11 == b % 11
    ensures CnsSuffix(a) == CnsSuffix(b)
  {
  }

  /**
   * Weight 11 falls on the fifth character (index 4) in both branches, so any digit written
   * there leaves an accepted CNS accepted: the check does not catch a change in that position.
   */
  lemma CnsFifthDigitUnchecked(cns: string, c: char)
    requires |cns| == 15 && IsDigit(c)
    requires ValidateCns(cns, false) == Success(Bool(true))
    ensures ValidateCns(cns[4 := c], false) == Success(Bool(true))
  {
    CnsAcceptedIsDigits(cns);
    CnsFifteenDigits(cns);
    CnsDigitChange(cns, 4, c);
    CnsFifteenDigits(cns[4 := c]);
    FifthDigitKeepsRule(cns, ParseDigits(cns).value, c);
  }

  lemma ProvisionalRuleCatches(cns: string, ds: seq<int>, i: nat, c: char)
    requires |cns| == 15 && |ds| == 15 && LeadsProvisional(cns) && IsDigit(c)
    requires forall k :: 0 <= k < 15 ==> 0 <= ds[k] <= 9
    requires CnsDigitsAccepted(cns, ds)
    requires i < 15 && i != 4 && DigitValue(c) != ds[i]
    requires i == 0 ==> c == '7' || c == '8' || c == '9'
    ensures !CnsDigitsAccepted(cns[i := c], ds[i := DigitValue(c)])
  {
    var x := DigitValue(c);
    WeightedSumUpdate(ds, 15, i, x);
    WeightedDifferenceNonZero(x - ds[i], 15 - i);
    ModNonZeroSum(WeightedSum(ds, 15), (x - ds[i]) * (15 - i));
    assert !LeadsPis(cns[i := c]);
  }

  lemma ModDiffers(a: int, b: int)
    requires b % 11 != 0
    ensures (a + b) % 11 != a % 11
  {
  }

  lemma ModNonZeroSum(a: int, b: int)
    requires a % 11 == 0 && b % 11 != 0
    ensures (a + b) % 11 != 0
  {
  }

  /** With leading 7, 8 or 9 every other single-digit change that keeps the branch is caught. */
  lemma CnsProvisionalCatchesChange(cns: string, i: nat, c: char)
    requires |cns| == 15 && LeadsProvisional(cns)
    requires ValidateCns(cns, false) == Success(Bool(true))
    requires i < 15 && i != 4 && IsDigit(c) && c != cns[i]
    requires i == 0 ==> c == '7' || c == '8' || c == '9'
    ensures ValidateCns(cns[i := c], false) == Success(Bool(false))
  {
    CnsAcceptedDigits(cns);
    var ds := ParseDigits(cns).value;
    CnsDigitChange(cns, i, c);
    ProvisionalRuleCatches(cns, ds, i, c);
    CnsRejectedDigits(cns[i := c], ds[i := DigitValue(c)]);
  }

  lemma PisRuleCatches(cns: string, ds: seq<int>, i: nat, c: char)
    requires |cns| == 15 && |ds| == 15 && LeadsPis(cns) && IsDigit(c)
    requires forall k :: 0 <= k < 15 ==> 0 <= ds[k] <= 9
    requires CnsDigitsAccepted(cns, ds)
    requires i < 15 && i != 4 && c != cns[i] && DigitValue(c) != ds[i]
    requires i == 0 ==> c == '1' || c == '2'
    ensures !CnsDigitsAccepted(cns[i := c], ds[i := DigitValue(c)])
  {
    var x := DigitValue(c);
    var m := cns[i := c];
    var ds' := ds[i := x];
    assert LeadsPis(m);
    if i < 11 {
      var sum := WeightedSum(ds[..11], 15);
      assert ds'[..11] == ds[..11][i := x] && ds[..11][i] == ds[i];
      WeightedSumUpdate(ds[..11], 15, i, x);
      WeightedDifferenceNonZero(x - ds[i], 15 - i);
      ModDiffers(sum, (x - ds[i]) * (15 - i));
      assert m[11..] == cns[11..];
      if CnsDigitsAccepted(m, ds') {
        CnsSuffixInjective(WeightedSum(ds'[..11], 15), sum);
        assert false;
      }
    } else {
      assert ds'[..11] == ds[..11];
      assert m[11..][i - 11] != cns[11..][i - 11];
    }
  }

  /** With leading 1 or 2 every other single-digit change that keeps the branch is caught. */
  lemma CnsPisCatchesChange(cns: string, i: nat, c: char)
    requires |cns| == 15 && LeadsPis(cns)
    requires ValidateCns(cns, false) == Success(Bool(true))
    requires i < 15 && i != 4 && IsDigit(c) && c != cns[i]
    requires i == 0 ==> c == '1' || c == '2'
    ensures ValidateCns(cns[i := c], false) == Success(Bool(false))
  {
    CnsAcceptedDigits(cns);
    var ds := ParseDigits(cns).value;
    CnsDigitChange(cns, i, c);
    PisRuleCatches(cns, ds, i, c);
    CnsRejectedDigits(cns[i := c], ds[i := DigitValue(c)]);
  }

  /** An accepted 15-character CNS is all digits and satisfies the acceptance rule. */
  lemma CnsAcceptedDigits(cns: string)
    requires |cns| == 15 && ValidateCns(cns, false) == Success(Bool(true))
    ensures AllDigits(cns) && ParseDigits(cns).Success? && |ParseDigits(cns).value| == 15
    ensures forall k :: 0 <= k < 15 ==> ParseDigits(cns).value[k] == DigitValue(cns[k])
    ensures CnsDigitsAccepted(cns, ParseDigits(cns).value)
  {
    CnsAcceptedIsDigits(cns);
    CnsFifteenDigits(cns);
  }

  /** Fifteen digits that break the acceptance rule are rejected. */
  lemma CnsRejectedDigits(cns: string, ds: seq<int>)
    requires |cns| == 15 && AllDigits(cns) && |ds| == 15
    requires ParseDigits(cns) == Success(ds) && !CnsDigitsAccepted(cns, ds)
    ensures ValidateCns(cns, false) == Success(Bool(false))
  {
    CnsFifteenDigits(cns);
  }
}
