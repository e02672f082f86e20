/** The checkout route: the voucher table, voucher validation, and the
    amount the payment session is created for (voucher applied, a $1
    floor, conversion to cents). Amounts are exact `real` dollars; the
    clock is the parameter `now`, a time in milliseconds. */
module Checkout {

  import opened Wrappers
  import opened Text

  datatype DiscountKind = Percent | Fixed

  /** A voucher: a percentage or a fixed dollar amount off, with an optional
      use limit (never enforced) and an optional expiry time. */
  datatype Voucher = Voucher(discount: nat, kind: DiscountKind, description: string,
                             maxUses: Option<nat>, expiresAt: Option<int>)

  const VoucherCodes: map<string, Voucher> := map[
    "LAUNCH20" := Voucher(20, Percent, "20% off launch discount", None, None),
    "FIRST50" := Voucher(50, Fixed, "$50 off first order", None, None),
    "FRIEND10" := Voucher(10, Percent, "10% friend referral", None, None),
    "AUTHOR25" := Voucher(25, Percent, "25% author discount", None, None),
    "BETA95" := Voucher(95, Percent, "95% beta tester discount", None, None),
    "TESTDRIVE" := Voucher(95, Percent, "95% test discount", None, None)]

  /** The outcome of `validateVoucher`. */
  datatype VoucherCheck = VoucherCheck(valid: bool, discountAmount: real, error: Option<string>)

  const InvalidCode := "Invalid voucher code"
  const ExpiredCode := "Voucher has expired"

  /** The table key a customer's code is looked up under: the code
      upper-cased, with the white space around it removed. */
  function NormaliseCode(code: string): (key: string)
    ensures |key| <= |code|
    ensures key == [] || (!IsSpace(key[0]) && !IsSpace(key[|key| - 1]))
    ensures forall i :: 0 <= i < |key| ==> !('a' <= key[i] <= 'z')
  {
    KeyFacts(code);
    Trim(ToUpper(code))
  }

  lemma KeyFacts(code: string)
    ensures |Trim(ToUpper(code))| <= |code|
    ensures var key := Trim(ToUpper(code)); key == [] || (!IsSpace(key[0]) && !IsSpace(key[|key| - 1]))
    ensures var key := Trim(ToUpper(code)); forall i :: 0 <= i < |key| ==> !('a' <= key[i] <= 'z')
  {
    var upper := ToUpper(code);
    var key, lead := Trim(upper), LeadingSpace(upper);
    assert |upper| == |code| && lead + |key| <= |upper|;
    assert key == upper[lead..lead + |key|];
    UpperSliceHasNoLower(code, key, lead);
  }

  /** No part of an upper-cased string holds a lower-case ASCII letter. */
  lemma UpperSliceHasNoLower(s: string, part: string, lo: nat)
    requires lo + |part| <= |s| && part == ToUpper(s)[lo..lo + |part|]
    ensures forall i :: 0 <= i < |part| ==> !('a' <= part[i] <= 'z')
  {
    forall i | 0 <= i < |part| ensures !('a' <= part[i] <= 'z') {
      assert part[i] == UpperChar(s[lo + i]);
    }
  }

  /** Normalising a key again changes nothing. */
  lemma NormaliseCodeIdempotent(code: string)
    ensures NormaliseCode(NormaliseCode(code)) == NormaliseCode(code)
  {
    var key := NormaliseCode(code);
    assert ToUpper(key) == key;
    TrimUnpadded(key);
  }

  function RMin(a: real, b: real): real { if a <= b then a else b }
  function RMax(a: real, b: real): real { if a >= b then a else b }

  predicate Expired(v: Voucher, now: int) {
    v.expiresAt.Some? && v.expiresAt.value < now
  }

  /** The amount a voucher takes off a subtotal. */
  function Discount(v: Voucher, subtotal: real): (d: real)
    ensures v.kind == Fixed ==> d <= subtotal && d <= v.discount as real
    ensures v.kind == Fixed ==> (d == subtotal || d == v.discount as real)
    ensures v.kind == Percent ==> d * 100.0 == subtotal * v.discount as real
    ensures v.kind == Percent && subtotal >= 0.0 && v.discount <= 100 ==> 0.0 <= d <= subtotal
  {
    if v.kind == Percent then PercentOf(subtotal, v.discount)
    else RMin(v.discount as real, subtotal)
  }

  /** `subtotal * (pct / 100)`. */
  function PercentOf(subtotal: real, pct: nat): (d: real)
    ensures subtotal >= 0.0 && pct <= 100 ==> 0.0 <= d <= subtotal
    ensures d * 100.0 == subtotal * pct as real
  {
    subtotal * (pct as real / 100.0)
  }

  /** `validateVoucher(code, subtotal)`. */
  function ValidateVoucher(code: string, subtotal: real, now: int): (r: VoucherCheck)
    ensures r.valid <==> NormaliseCode(code) in VoucherCodes && !Expired(VoucherCodes[NormaliseCode(code)], now)
    ensures !r.valid ==> r.discountAmount == 0.0 && r.error.Some?
    ensures NormaliseCode(code) !in VoucherCodes ==> r.error == Some(InvalidCode)
    ensures NormaliseCode(code) in VoucherCodes && Expired(VoucherCodes[NormaliseCode(code)], now) ==>
              r.error == Some(ExpiredCode)
    ensures r.valid ==> r.error.None? && r.discountAmount == Discount(VoucherCodes[NormaliseCode(code)], subtotal)
  {
    var upperCode := NormaliseCode(code);
    if upperCode !in VoucherCodes then VoucherCheck(false, 0.0, Some(InvalidCode))
    else
      var voucher := VoucherCodes[upperCode];
      if Expired(voucher, now) then VoucherCheck(false, 0.0, Some(ExpiredCode))
      else VoucherCheck(true, Discount(voucher, subtotal), None)
  }

  /** What holds of every entry of the table: a code that is not empty, no
      expiry time, no use limit, and a percentage of at most 95. */
  lemma TableFacts()
    ensures forall key :: key in VoucherCodes ==>
              |key| > 0 && VoucherCodes[key].expiresAt.None? && VoucherCodes[key].maxUses.None?
              && (VoucherCodes[key].kind == Percent ==> VoucherCodes[key].discount <= 95)
  {
    forall key | key in VoucherCodes
      ensures |key| > 0 && VoucherCodes[key].expiresAt.None? && VoucherCodes[key].maxUses.None?
              && (VoucherCodes[key].kind == Percent ==> VoucherCodes[key].discount <= 95)
    {
    }
  }

  /** An empty code normalises to the empty key. */
  lemma EmptyCodeUnknown()
    ensures NormaliseCode([]) == []
  {
    assert |ToUpper([])| == 0;
  }

  /** No voucher in the table has an expiry time, so every known code is
      accepted at every moment. */
  lemma EveryKnownCodeIsValid(code: string, subtotal: real, now: int)
    requires NormaliseCode(code) in VoucherCodes
    ensures ValidateVoucher(code, subtotal, now).valid
  {
    TableFacts();
  }

  /** Every table entry takes off between nothing and the whole subtotal. */
  lemma DiscountWithinSubtotal(code: string, subtotal: real, now: int)
    requires subtotal >= 0.0
    ensures 0.0 <= ValidateVoucher(code, subtotal, now).discountAmount <= subtotal
  {
    var key := NormaliseCode(code);
    if key in VoucherCodes {
      TableFacts();
      var v := VoucherCodes[key];
      assert v.kind == Percent ==> v.discount <= 95;
      assert 0.0 <= Discount(v, subtotal) <= subtotal;
    }
  }

  /** Whether the checkout applies the customer's voucher: it is given
      (JavaScript truthiness: absent or empty means none) and valid. As no
      voucher expires, that is whenever its key is in the table. */
  predicate Applies(total: real, voucherCode: Option<string>, now: int)
    ensures Applies(total, voucherCode, now) <==>
              voucherCode.Some? && voucherCode.value != "" && NormaliseCode(voucherCode.value) in VoucherCodes
  {
    TableFacts();
    voucherCode.Some? && voucherCode.value != "" && ValidateVoucher(voucherCode.value, total, now).valid
  }

  /** What the checkout takes off the page's total: the voucher's discount
      when it applies, nothing otherwise. */
  function AppliedDiscount(total: real, voucherCode: Option<string>, now: int): (d: real)
    ensures !Applies(total, voucherCode, now) ==> d == 0.0
    ensures Applies(total, voucherCode, now) ==> d == Discount(VoucherCodes[NormaliseCode(voucherCode.value)], total)
    ensures total >= 0.0 ==> 0.0 <= d <= total
  {
    if Applies(total, voucherCode, now) then
      var check := ValidateVoucher(voucherCode.value, total, now);
      assert total >= 0.0 ==> 0.0 <= check.discountAmount <= total by {
        if total >= 0.0 { DiscountWithinSubtotal(voucherCode.value, total, now); }
      }
      check.discountAmount
    else 0.0
  }

  /** The amount charged: the total less the applied discount, but never
      less than one dollar. */
  function ChargedAmount(total: real, voucherCode: Option<string>, now: int): (r: real)
    ensures r >= 1.0
    ensures r >= total - AppliedDiscount(total, voucherCode, now)
    ensures r == total - AppliedDiscount(total, voucherCode, now) || r == 1.0
  {
    RMax(total - AppliedDiscount(total, voucherCode, now), 1.0)
  }

  /** `Math.round(x)`: the nearest integer, halves rounded up. */
  function Round(x: real): (n: int)
    ensures n as real - 0.5 <= x < n as real + 0.5
  {
    (x + 0.5).Floor
  }

  /** The amount computation of the checkout handler: start from the
      page's total, apply a valid voucher, raise to the $1 floor and
      convert to the payment provider's cents. */
  method ComputeCharge(totalAmount: real, voucherCode: Option<string>, now: int)
    returns (finalAmount: real, appliedVoucher: Option<string>, unitAmount: int)
    ensures finalAmount == ChargedAmount(totalAmount, voucherCode, now)
    ensures appliedVoucher.Some? <==> Applies(totalAmount, voucherCode, now)
    ensures appliedVoucher.Some? ==> appliedVoucher.value == ToUpper(voucherCode.value)
    ensures !Applies(totalAmount, voucherCode, now) ==> finalAmount == RMax(totalAmount, 1.0)
    ensures unitAmount == Round(finalAmount * 100.0) && unitAmount >= 100
  {
    finalAmount := totalAmount;
    appliedVoucher := None;
    if voucherCode.Some? && voucherCode.value != "" {
      var voucherResult := ValidateVoucher(voucherCode.value, finalAmount, now);
      if voucherResult.valid {
        finalAmount := finalAmount - voucherResult.discountAmount;
        appliedVoucher := Some(ToUpper(voucherCode.value));
      }
    }
    finalAmount := RMax(finalAmount, 1.0);
    unitAmount := Round(finalAmount * 100.0);
  }

  lemma NormalisedLaunch()
    ensures ToUpper(" launch20") == " LAUNCH20"
    ensures NormaliseCode(" launch20") == "LAUNCH20"
  {
    UpperLaunch();
    TrimmedLaunch();
  }

  lemma UpperLaunch()
    ensures ToUpper(" launch20") == " LAUNCH20"
  {
    assert ToUpper(" launch20") == " LAUNCH20";
  }

  lemma TrimmedLaunch()
    ensures Trim(" LAUNCH20") == "LAUNCH20"
  {
    LaunchParts();
    TrimLeadingSpace(' ', "LAUNCH20");
    TrimUnpadded("LAUNCH20");
  }

  lemma LaunchParts()
    ensures " LAUNCH20" == [' '] + "LAUNCH20"
  {
  }

  lemma NormalisedBeta()
    ensures NormaliseCode("beta95") == "BETA95"
  {
    assert ToUpper("beta95") == "BETA95";
    TrimUnpadded("BETA95");
  }

  /** The code recorded on the session is upper-cased but not trimmed, so
      it can differ from the key the voucher was found under. */
  lemma AppliedCodeIsNotTrimmed()
    ensures Applies(100.0, Some(" launch20"), 0)
    ensures ToUpper(" launch20") == " LAUNCH20" != NormaliseCode(" launch20")
  {
    NormalisedLaunch();
    EveryKnownCodeIsValid(" launch20", 100.0, 0);
  }

  /** An example: the 95% voucher on an $882 order charges $44.10. */
  lemma Beta95Example(now: int)
    ensures ChargedAmount(882.0, Some("beta95"), now) == 44.1
    ensures Round(ChargedAmount(882.0, Some("beta95"), now) * 100.0) == 4410
  {
    NormalisedBeta();
    EveryKnownCodeIsValid("beta95", 882.0, now);
    assert AppliedDiscount(882.0, Some("beta95"), now) == 837.9;
  }
}
