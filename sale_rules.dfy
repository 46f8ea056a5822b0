/**
 * The pure settlement rules of a sale (sales/models/sale.py): the effective discount
 * and the three-way payment status. Money is in minor units (hundredths); a percentage
 * discount value is in hundredths of a percent, so 12.50 % is 1250.
 */
module SaleRules {

  datatype DiscountType = Amount | Percentage

  /**
   * Sale status. Draft, Paid and Partial are the model's choices; Pending is the
   * literal migration 0010 writes although it is not one of them.
   */
  datatype Status = Draft | Paid | Partial | Pending

  /** calculate_discount_amount: subtotal × value / 100 for a percentage, else value. */
  function DiscountAmount(t: DiscountType, value: int, subtotal: int): real
  {
    match t
    case Percentage => subtotal as real * (value as real / 10000.0)
    case Amount => value as real
  }

  /**
   * An amount discount is its value whatever the subtotal; a percentage between 0 and
   * 100 % of a non-negative subtotal lies between 0 and the subtotal; a zero value
   * removes nothing.
   */
  lemma DiscountAmountMeaning(t: DiscountType, value: int, subtotal: int)
    ensures t == Amount ==> DiscountAmount(t, value, subtotal) == value as real
    ensures t == Percentage && 0 <= value <= 10000 && subtotal >= 0 ==>
              0.0 <= DiscountAmount(t, value, subtotal) <= subtotal as real
    ensures t == Percentage && value == 10000 ==> DiscountAmount(t, value, subtotal) == subtotal as real
    ensures value == 0 ==> DiscountAmount(t, value, subtotal) == 0.0
  {
    if t == Percentage && 0 <= value <= 10000 && subtotal >= 0 {
      var f := value as real / 10000.0;
      var x := subtotal as real;
      assert 0.0 <= f <= 1.0;
      MulNonNeg(x, f);
      MulNonNeg(x, 1.0 - f);
      assert x - x * f == x * (1.0 - f);
    }
  }

  /** compute_status: paid covers the total, anything above zero is partial, else draft. */
  function ComputeStatus(amountPaid: int, totalAmount: real): Status
  {
    if amountPaid as real >= totalAmount then Paid
    else if amountPaid > 0 then Partial
    else Draft
  }

  /** The three outcomes partition the (paid, total) plane, and Pending is never derived. */
  lemma ComputeStatusCases(amountPaid: int, totalAmount: real)
    ensures ComputeStatus(amountPaid, totalAmount) == Paid <==> amountPaid as real >= totalAmount
    ensures ComputeStatus(amountPaid, totalAmount) == Partial <==>
              0 < amountPaid && (amountPaid as real) < totalAmount
    ensures ComputeStatus(amountPaid, totalAmount) == Draft <==>
              amountPaid <= 0 && (amountPaid as real) < totalAmount
    ensures ComputeStatus(amountPaid, totalAmount) != Pending
  {
  }

  lemma MulNonNeg(a: real, b: real)
    requires a >= 0.0 && b >= 0.0
    ensures a * b >= 0.0
  {
  }
}
