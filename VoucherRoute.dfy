/** The voucher-validation route the order page can ask before checkout.
    It keeps its own copy of the voucher table and of the discount
    arithmetic, which must agree with the checkout route's; the lemmas at
    the end prove that they do. */
module VoucherRoute {

  import opened Wrappers
  import opened Text
  import Checkout

  /** A table entry of this route; it has no use limit and no expiry field. */
  datatype Entry = Entry(discount: nat, kind: Checkout.DiscountKind, description: string)

  const VoucherCodes: map<string, Entry> := map[
    "LAUNCH20" := Entry(20, Checkout.Percent, "20% off launch discount"),
    "FIRST50" := Entry(50, Checkout.Fixed, "$50 off first order"),
    "FRIEND10" := Entry(10, Checkout.Percent, "10% friend referral"),
    "AUTHOR25" := Entry(25, Checkout.Percent, "25% author discount"),
    "BETA95" := Entry(95, Checkout.Percent, "95% beta tester discount"),
    "TESTDRIVE" := Entry(95, Checkout.Percent, "95% test discount")]

  /** The JSON body the route answers with. */
  datatype Response =
    | Rejected(error: string)
    | Accepted(code: string, discount: nat, kind: Checkout.DiscountKind, description: string,
               discountAmount: real, newTotal: real)

  /** The discount the route quotes for an entry: the percentage of the
      subtotal, or the fixed amount but no more than the subtotal. */
  function Quote(e: Entry, subtotal: real): (d: real)
    ensures e.kind == Checkout.Percent ==> d * 100.0 == subtotal * e.discount as real
    ensures e.kind == Checkout.Fixed ==>
              d <= subtotal && d <= e.discount as real && (d == subtotal || d == e.discount as real)
  {
    if e.kind == Checkout.Percent then Checkout.PercentOf(subtotal, e.discount)
    else Checkout.RMin(e.discount as real, subtotal)
  }

  /** The route's answer for a code and a subtotal: the code is
      upper-cased and trimmed, looked up, and for a known code the
      discount and the total after it (at least $1) are quoted. The same
      arithmetic as the checkout's is written out again in this route. */
  function Respond(code: string, subtotal: real): (r: Response)
    ensures r.Accepted? <==> Trim(ToUpper(code)) in VoucherCodes
    ensures r.Rejected? ==> r.error == "Invalid voucher code"
    ensures r.Accepted? ==> r.code == Trim(ToUpper(code))
    ensures r.Accepted? ==> var e := VoucherCodes[r.code];
              r.discount == e.discount && r.kind == e.kind && r.description == e.description
              && r.discountAmount == Quote(e, subtotal)
    ensures r.Accepted? ==>
              r.newTotal >= 1.0 && r.newTotal >= subtotal - r.discountAmount
              && (r.newTotal == 1.0 || r.newTotal == subtotal - r.discountAmount)
  {
    var upperCode := Trim(ToUpper(code));
    if upperCode !in VoucherCodes then Rejected("Invalid voucher code")
    else
      var voucher := VoucherCodes[upperCode];
      var discountAmount := Quote(voucher, subtotal);
      Accepted(upperCode, voucher.discount, voucher.kind, voucher.description,
               discountAmount, Checkout.RMax(subtotal - discountAmount, 1.0))
  }

  /** For a non-negative subtotal the discount it reports lies between
      nothing and the subtotal, and the new total never exceeds the
      subtotal unless the $1 floor lifts it. */
  lemma RespondWithinSubtotal(code: string, subtotal: real)
    requires subtotal >= 0.0
    ensures Respond(code, subtotal).Accepted? ==>
              0.0 <= Respond(code, subtotal).discountAmount <= subtotal
              && Respond(code, subtotal).newTotal <= Checkout.RMax(subtotal, 1.0)
  {
    var key := Trim(ToUpper(code));
    if key in VoucherCodes {
      TableFacts();
      QuoteWithinSubtotal(VoucherCodes[key], subtotal);
    }
  }

  /** The quote for one entry whose percentage is at most 100. */
  lemma QuoteWithinSubtotal(e: Entry, subtotal: real)
    requires subtotal >= 0.0 && (e.kind == Checkout.Percent ==> e.discount <= 100)
    ensures var d := Quote(e, subtotal);
            0.0 <= d <= subtotal && Checkout.RMax(subtotal - d, 1.0) <= Checkout.RMax(subtotal, 1.0)
  {
  }

  lemma TableFacts()
    ensures forall key :: key in VoucherCodes ==>
              (VoucherCodes[key].kind == Checkout.Percent ==> VoucherCodes[key].discount <= 95)
  {
    forall key | key in VoucherCodes
      ensures VoucherCodes[key].kind == Checkout.Percent ==> VoucherCodes[key].discount <= 95
    {
    }
  }

  /** The two tables hold the same codes, and each code's discount, kind
      and description agree. */
  lemma TablesAgree()
    ensures VoucherCodes.Keys == Checkout.VoucherCodes.Keys
    ensures forall key :: key in VoucherCodes ==>
              var e, v := VoucherCodes[key], Checkout.VoucherCodes[key];
              e.discount == v.discount && e.kind == v.kind && e.description == v.description
  {
    forall key | key in VoucherCodes
      ensures key in Checkout.VoucherCodes
      ensures var e, v := VoucherCodes[key], Checkout.VoucherCodes[key];
              e.discount == v.discount && e.kind == v.kind && e.description == v.description
    {
    }
    forall key | key in Checkout.VoucherCodes ensures key in VoucherCodes {
    }
  }

  /** The route accepts exactly the codes checkout applies, reports the
      discount checkout subtracts, and quotes the amount checkout charges;
      for a code it rejects, checkout charges the undiscounted amount. */
  lemma RouteAgreesWithCheckout(code: string, subtotal: real, now: int)
    ensures Respond(code, subtotal).Accepted? <==> Checkout.Applies(subtotal, Some(code), now)
    ensures Respond(code, subtotal).Accepted? ==>
              Respond(code, subtotal).discountAmount == Checkout.AppliedDiscount(subtotal, Some(code), now)
              && Respond(code, subtotal).newTotal == Checkout.ChargedAmount(subtotal, Some(code), now)
    ensures Respond(code, subtotal).Rejected? ==>
              Checkout.ChargedAmount(subtotal, Some(code), now) == Checkout.RMax(subtotal, 1.0)
  {
    TablesAgree();
    var key := Checkout.NormaliseCode(code);
    var r := Respond(code, subtotal);
    if key in VoucherCodes {
      var e, v := VoucherCodes[key], Checkout.VoucherCodes[key];
      Checkout.TableFacts();
      Checkout.EmptyCodeUnknown();
      assert code != [];
      Checkout.EveryKnownCodeIsValid(code, subtotal, now);
      assert Checkout.Applies(subtotal, Some(code), now);
      assert r.discountAmount == Checkout.Discount(v, subtotal);
      assert Checkout.AppliedDiscount(subtotal, Some(code), now) == Checkout.Discount(v, subtotal);
    } else {
      assert !Checkout.ValidateVoucher(code, subtotal, now).valid;
    }
  }
}
