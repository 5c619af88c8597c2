/** What a payment gateway may answer. The answer to a call is a parameter of the
    operation that makes it: any text, any amount, any failure. */
module Gateway {
  import opened Ledger

  /** The captured_amount entry of a response, in cents. `Malformed` stands for
      text that is not a decimal number. */
  datatype Reported = Absent | Null | Malformed | Reported(cents: int)

  /** `status` is the lower-cased text of the response's status entry. */
  datatype Response = Response(status: string, gatewayId: Option<string>, id: Option<string>, captured: Reported)

  datatype GatewayError = Declined | TimedOut | Unavailable

  /** `Crashed` is any exception outside the PaymentGatewayError family. */
  datatype Reply = Answered(response: Response) | Refused(error: GatewayError) | Crashed

  predicate IsSuccessText(s: string) { s in {"succeeded", "paid", "captured", "completed"} }

  predicate IsAuthorizedText(s: string) { s in {"authorized", "requires_capture"} }

  predicate IsFailureText(s: string) { s in {"failed", "declined", "rejected"} }

  predicate IsCancelledText(s: string) { s in {"cancelled", "canceled"} }

  /** A text that ends a payment's life at the gateway. */
  predicate IsFinalText(s: string) { IsSuccessText(s) || IsFailureText(s) || IsCancelledText(s) }

  /** No text belongs to two of the four groups, so the order in which the
      different writers test them does not matter. */
  lemma TextGroupsAreDisjoint(s: string)
    ensures IsSuccessText(s) ==> !IsAuthorizedText(s) && !IsFailureText(s) && !IsCancelledText(s)
    ensures IsAuthorizedText(s) ==> !IsFailureText(s) && !IsCancelledText(s)
    ensures IsFailureText(s) ==> !IsCancelledText(s)
  {
  }

  /** Python's `a or b` on optional texts. */
  function FirstTruthy(a: Option<string>, b: Option<string>): Option<string> {
    if a.Some? && a.value != "" then a else b
  }
}
