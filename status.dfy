/** The `status` endpoint: a caller may see a payment only if it owns it. */
module PaymentStatus {
  import opened Payments

  datatype PaymentStatusResponse =
    | Ok(payment: Payment)
    | NotFound(message: string)
    | InternalServerError(message: string)

  const NotFoundMessage: string := "Not found"
  const InternalErrorMessage: string := "Internal server error"

  /** Decides the response from the result of `get_payment` and the
      authenticated caller. */
  function Status(lookup: DbResult<Option<Payment>>, user: Uuid): (r: PaymentStatusResponse)
    ensures r.Ok? <==> lookup.Ok? && lookup.value.Some? && lookup.value.value.accountId == user
    ensures r.Ok? ==> r.payment == lookup.value.value
    ensures r.NotFound? <==> lookup.Ok? && (lookup.value.None? || lookup.value.value.accountId != user)
    ensures r.NotFound? ==> r.message == NotFoundMessage
    ensures r.InternalServerError? <==> lookup.Err?
    ensures r.InternalServerError? ==> r.message == InternalErrorMessage
  {
    match lookup
    case Ok(Some(payment)) =>
      if payment.accountId != user then NotFound(NotFoundMessage) else PaymentStatusResponse.Ok(payment)
    case Ok(None) => NotFound(NotFoundMessage)
    case Err(_) => InternalServerError(InternalErrorMessage)
  }

  /** An Ok response never exposes another account's payment. */
  lemma OkIsOwned(lookup: DbResult<Option<Payment>>, user: Uuid)
    ensures Status(lookup, user).Ok? ==> Status(lookup, user).payment.accountId == user
  {
  }

  /** Someone else's payment and a missing payment are indistinguishable
      to the caller. */
  lemma ForeignLooksMissing(p: Payment, user: Uuid)
    requires p.accountId != user
    ensures Status(DbResult.Ok(Some(p)), user) == Status(DbResult.Ok(None), user)
  {
  }
}
