/** `validate_payment`: the ordered checks a payment record passes before it
    is stored. A NULL column is `None`. */
module Payment {
  import opened Util
  import opened Validation

  /** The columns of a payment-history row that the validator reads. */
  datatype PaymentHistory = PaymentHistory(userId: Option<string>, items: Option<seq<string>>,
                                           prices: Option<seq<real>>, totalAmount: Option<real>,
                                           paymentStatus: Option<string>)

  const UserIdMissing: string := "User ID must be provided"
  const TotalNotPositive: string := "Total amount must be greater than 0"
  const StatusMissing: string := "Payment status must be provided"
  const ItemsMissing: string := "Items must be provided"
  const PricesMissing: string := "Prices must be provided"
  const CountMismatch: string := "Items and prices count must match"

  /** A list column that `not` rejects: NULL or empty. */
  predicate Blank<T>(xs: Option<seq<T>>) {
    xs.None? || xs.value == []
  }

  /** A payment that can be stored: a user, a positive total, a status, and as
      many prices as items, at least one of each. */
  predicate Complete(payment: PaymentHistory) {
    payment.userId.Some? && payment.paymentStatus.Some?
    && payment.totalAmount.Some? && payment.totalAmount.value > 0.0
    && payment.items.Some? && payment.prices.Some?
    && 1 <= |payment.items.value| == |payment.prices.value|
  }

  /** The checks in their order; a valid payment comes back unchanged. */
  function ValidatePayment(payment: PaymentHistory): (r: Checked<PaymentHistory>)
    ensures r.Valid? <==> Complete(payment)
    ensures r.Valid? ==> r.value == payment
    ensures payment.userId.None? ==> r == Rejected(UserIdMissing)
    ensures r == Rejected(CountMismatch) <==>
      payment.userId.Some? && payment.paymentStatus.Some? && payment.totalAmount.Some?
      && payment.totalAmount.value > 0.0 && !Blank(payment.items) && !Blank(payment.prices)
      && |payment.items.value| != |payment.prices.value|
  {
    if payment.userId.None? then Rejected(UserIdMissing)
    else if payment.totalAmount.None? || payment.totalAmount.value <= 0.0 then Rejected(TotalNotPositive)
    else if payment.paymentStatus.None? then Rejected(StatusMissing)
    else if Blank(payment.items) then Rejected(ItemsMissing)
    else if Blank(payment.prices) then Rejected(PricesMissing)
    else if |payment.items.value| != |payment.prices.value| then Rejected(CountMismatch)
    else Valid(payment)
  }

  /** Empty items are reported before empty prices, and a missing status
      before either. */
  lemma EmptyListsOrder(payment: PaymentHistory)
    requires payment.userId.Some? && payment.totalAmount.Some? && payment.totalAmount.value > 0.0
    ensures payment.paymentStatus.None? ==> ValidatePayment(payment) == Rejected(StatusMissing)
    ensures payment.paymentStatus.Some? && Blank(payment.items) ==> ValidatePayment(payment) == Rejected(ItemsMissing)
    ensures payment.paymentStatus.Some? && !Blank(payment.items) && Blank(payment.prices) ==>
      ValidatePayment(payment) == Rejected(PricesMissing)
  {
  }
}
