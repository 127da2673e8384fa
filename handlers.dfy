/**
  The two handlers that write the database, as they run: step by step over a
  portal object holding the users and payments tables. Each request runs to
  completion before the next starts.
 */
module Handlers {
  import opened Common
  import opened Ocr
  import opened Auth
  import opened Tables
  import Admin

  class Portal {
    var users: seq<UserRow>
    var payments: seq<PaymentRow>
    const settings: seq<string>

    /** The tables as a value. */
    function State(): Db
      reads this
    {
      Db(users, payments, settings)
    }

    ghost predicate Valid()
      reads this
    {
      Consistent(State())
    }

    /** A portal over a freshly seeded roster: nobody has paid or submitted yet. */
    constructor (roster: seq<UserRow>, passwords: seq<string>)
      requires DistinctUserIds(roster)
      requires forall i :: 0 <= i < |roster| ==> !roster[i].hasPaid && roster[i].lastSubmission.None?
      ensures State() == Db(roster, [], passwords)
      ensures Valid()
    {
      users := roster;
      payments := [];
      settings := passwords;
    }

    /**
      POST /api/submit-payment, with `freshId` the generated payment id and `ai` what
      the vision model did with the upload.
     */
    method SubmitPayment(form: SubmitForm, freshId: PaymentId, ai: AiOutcome) returns (reply: Reply<Receipt>)
      requires Valid()
      requires !PaymentIdTaken(payments, freshId)
      modifies this
      ensures Valid()
      ensures State() == Submit(old(State()), form, freshId, ai).db
      ensures reply == Submit(old(State()), form, freshId, ai).reply
    {
      ghost var before := State();
      SubmitPreservesConsistent(before, form, freshId, ai);
      if MissingFields(form) {
        return Fail(BadRequest, MissingFieldsMessage);
      }
      var userId := form.userId.value;
      if HasActivePayment(payments, userId) {
        return Fail(BadRequest, DuplicateMessage);
      }
      var paymentId := freshId;
      var imageUrl := ImageUrl(paymentId, form.screenshot.value.fileName);

      var ocrAmount: Option<int> := None;
      var ocrConfidence: Option<int> := None;
      var ocrRawText := "";
      match ai {
        case Replied(response) =>
          ocrRawText := ResponseText(response);
          var amountMatch := FirstAmountMatch(ocrRawText, 0);
          if amountMatch.Some? {
            ocrAmount := Some(ExpectedAmount);
            ocrConfidence := Some(MatchConfidence);
          } else {
            ocrConfidence := Some(NoMatchConfidence);
          }
        case NotConfigured =>
          ocrRawText := NoAiText;
          ocrConfidence := Some(NoAiConfidence);
        case CallFailed =>
          ocrRawText := FailedText;
      }

      var status := Pending;
      if ocrAmount == Some(ExpectedAmount) && AsNumber(ocrConfidence) >= PaidThreshold {
        status := Paid;
      } else if AsNumber(ocrConfidence) < PaidThreshold {
        status := NeedsReview;
      }

      payments := payments + [PaymentRow(paymentId, userId, imageUrl, ocrAmount, ocrConfidence, ocrRawText,
                                         status, form.paymentMethod, None, false)];
      users := RecordSubmission(users, userId, paymentId, status == Paid);
      reply := Ok(Receipt(paymentId, status, ocrAmount));
    }

    /** POST /api/admin/update-payment. */
    method UpdatePayment(auth: Option<string>, id: PaymentId, statusText: string, comment: Option<string>)
      returns (reply: Reply<Ack>)
      requires Valid()
      modifies this
      ensures Valid()
      ensures State() == Admin.UpdatePayment(old(State()), auth, id, statusText, comment).db
      ensures reply == Admin.UpdatePayment(old(State()), auth, id, statusText, comment).reply
    {
      ghost var before := State();
      if !Authorized(auth) {
        return Fail(Unauthorized, UnauthorizedMessage);
      }
      ReviewPreservesConsistent(before, id, statusText, comment);
      payments := SetReview(payments, id, ParseStatus(statusText), comment);
      if statusText == "PAID" {
        var found := IndexOfPayment(payments, id, 0);
        if found.Some? {
          users := MarkPaid(users, payments[found.value].owner);
        }
      }
      reply := Ok(Success);
    }
  }
}
