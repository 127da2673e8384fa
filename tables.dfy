/**
  The users and payments tables, and the two handlers that write them: a payment
  submission and an administrator's review. A table is the sequence of its rows:
  `INSERT` appends a row, `UPDATE ... WHERE` rewrites every matching row, and
  `results[0]` of a query is its first matching row.
 */
module Tables {
  import opened Common
  import opened Ocr

  type UserId = string
  type PaymentId = string

  /** A row of `users`: identity, display name, roll number, paid flag, last submission. */
  datatype UserRow = UserRow(
    id: UserId,
    name: string,
    rollNo: Option<string>,
    hasPaid: bool,
    lastSubmission: Option<PaymentId>)

  /** A row of `payments`. */
  datatype PaymentRow = PaymentRow(
    id: PaymentId,
    owner: UserId,
    imageUrl: string,
    ocrAmount: Option<int>,
    ocrConfidence: Option<int>,
    ocrRawText: string,
    status: Status,
    paymentMethod: Option<string>,
    adminComment: Option<string>,
    reviewed: bool)

  /** The database: users, payments and the settings rows (stored admin passwords). */
  datatype Db = Db(users: seq<UserRow>, payments: seq<PaymentRow>, settings: seq<string>)

  /** A handler's effect: the database afterwards and the reply. */
  datatype Step<+T> = Step(db: Db, reply: Reply<T>)

  predicate PaymentIdTaken(payments: seq<PaymentRow>, id: PaymentId) {
    exists j :: 0 <= j < |payments| && payments[j].id == id
  }

  /** The first row at or after `from` with payment id `id`. */
  function IndexOfPayment(payments: seq<PaymentRow>, id: PaymentId, from: nat): (r: Option<nat>)
    requires from <= |payments|
    ensures r.Some? ==> from <= r.value < |payments| && payments[r.value].id == id
    ensures r.Some? ==> forall j :: from <= j < r.value ==> payments[j].id != id
    ensures r.None? <==> forall j :: from <= j < |payments| ==> payments[j].id != id
    decreases |payments| - from
  {
    if from == |payments| then None
    else if payments[from].id == id then Some(from)
    else IndexOfPayment(payments, id, from + 1)
  }

  /** `SELECT user_id FROM payments WHERE payment_id = ?`, first row. */
  function OwnerOf(payments: seq<PaymentRow>, id: PaymentId): Option<UserId> {
    match IndexOfPayment(payments, id, 0)
    case None => None
    case Some(j) => Some(payments[j].owner)
  }

  // ---------------------------------------------------------------- submission

  /** The uploaded file; its bytes go only to the blob store and the vision model. */
  datatype Upload = Upload(fileName: string)

  /** The multipart form of a submission; each field may be absent. */
  datatype SubmitForm = SubmitForm(userId: Option<string>, paymentMethod: Option<string>, screenshot: Option<Upload>)

  /** The JSON body of a successful submission. */
  datatype Receipt = Receipt(paymentId: PaymentId, status: Status, detectedAmount: Option<int>)

  const MissingFieldsMessage: string := "Missing required fields"
  const DuplicateMessage: string := "You have already submitted a payment"

  /** `!userId || !screenshot`: an absent or empty user id, or no file. */
  predicate MissingFields(form: SubmitForm) {
    form.userId.None? || form.userId.value == "" || form.screenshot.None?
  }

  /** The user has a payment whose status is anything but REJECTED. */
  predicate HasActivePayment(payments: seq<PaymentRow>, user: UserId) {
    exists j :: 0 <= j < |payments| && payments[j].owner == user && payments[j].status != Rejected
  }

  /** The URL under which the image-serving endpoint returns the upload. */
  function ImageUrl(id: PaymentId, fileName: string): string {
    "/api/image/" + "payments/" + id + "_" + fileName
  }

  /** `UPDATE users SET last_submission_id = ?` (and `has_paid = 1` when `paid`) `WHERE user_id = ?` */
  function RecordSubmission(users: seq<UserRow>, user: UserId, id: PaymentId, paid: bool): seq<UserRow> {
    seq(|users|, i requires 0 <= i < |users| =>
      if users[i].id == user then users[i].(hasPaid := users[i].hasPaid || paid, lastSubmission := Some(id))
      else users[i])
  }

  /**
    The submit-payment handler with `freshId` as the generated payment id. A missing
    field, or a non-REJECTED payment of the same user, is a 400 that changes nothing;
    otherwise exactly one row is appended and the reply carries its id and a status
    that is PAID or NEEDS_REVIEW.
   */
  function Submit(db: Db, form: SubmitForm, freshId: PaymentId, ai: AiOutcome): (s: Step<Receipt>)
    ensures MissingFields(form) ==> s == Step(db, Fail(BadRequest, MissingFieldsMessage))
    ensures !MissingFields(form) && HasActivePayment(db.payments, form.userId.value)
            ==> s == Step(db, Fail(BadRequest, DuplicateMessage))
    ensures s.reply.Ok? <==> !MissingFields(form) && !HasActivePayment(db.payments, form.userId.value)
    ensures s.reply.Ok? ==> s.reply.body.paymentId == freshId && s.reply.body.status in {Paid, NeedsReview}
    ensures s.reply.Ok? ==> |s.db.payments| == |db.payments| + 1 && |s.db.users| == |db.users|
    ensures s.db.settings == db.settings
  {
    if MissingFields(form) then Step(db, Fail(BadRequest, MissingFieldsMessage))
    else
      var user := form.userId.value;
      if HasActivePayment(db.payments, user) then Step(db, Fail(BadRequest, DuplicateMessage))
      else
        var reading := Classify(ai);
        var status := DeriveStatus(reading.amount, reading.confidence);
        var row := PaymentRow(freshId, user, ImageUrl(freshId, form.screenshot.value.fileName),
                              reading.amount, reading.confidence, reading.rawText,
                              status, form.paymentMethod, None, false);
        Step(Db(RecordSubmission(db.users, user, freshId, status == Paid), db.payments + [row], db.settings),
             Ok(Receipt(freshId, status, reading.amount)))
  }

  /** An accepted submission appends one unreviewed row holding the model's reading, and keeps every earlier row. */
  lemma SubmitRecordsPayment(db: Db, form: SubmitForm, freshId: PaymentId, ai: AiOutcome)
    requires Submit(db, form, freshId, ai).reply.Ok?
    ensures var s := Submit(db, form, freshId, ai);
      var row := s.db.payments[|db.payments|];
      var reading := Classify(ai);
      && s.db.payments[..|db.payments|] == db.payments
      && row.id == freshId && row.owner == form.userId.value
      && row.imageUrl == ImageUrl(freshId, form.screenshot.value.fileName)
      && row.ocrAmount == reading.amount && row.ocrConfidence == reading.confidence
      && row.ocrRawText == reading.rawText && row.paymentMethod == form.paymentMethod
      && row.adminComment == None && !row.reviewed
      && s.reply.body == Receipt(row.id, row.status, row.ocrAmount)
  {
  }

  /**
    The status of an accepted submission depends only on the model: PAID exactly when
    it replied naming the amount; NEEDS_REVIEW otherwise (no model: confidence 0;
    failed call: confidence null).
   */
  lemma SubmitStatus(db: Db, form: SubmitForm, freshId: PaymentId, ai: AiOutcome)
    requires Submit(db, form, freshId, ai).reply.Ok?
    ensures var st := Submit(db, form, freshId, ai).reply.body.status;
      st == (if ai.Replied? && MentionsAmount(ResponseText(ai.response)) then Paid else NeedsReview)
  {
  }

  /**
    An accepted submission points the submitter's row at the new payment, raises its
    paid flag only for a PAID status, never lowers it, and leaves every other user alone.
   */
  lemma SubmitUpdatesSubmitter(db: Db, form: SubmitForm, freshId: PaymentId, ai: AiOutcome)
    requires Submit(db, form, freshId, ai).reply.Ok?
    ensures var s := Submit(db, form, freshId, ai);
      forall i :: 0 <= i < |db.users| ==>
        if db.users[i].id == form.userId.value then
          && s.db.users[i].lastSubmission == Some(freshId)
          && s.db.users[i].hasPaid == (db.users[i].hasPaid || s.reply.body.status == Paid)
          && s.db.users[i].(hasPaid := db.users[i].hasPaid, lastSubmission := db.users[i].lastSubmission) == db.users[i]
        else s.db.users[i] == db.users[i]
  {
  }

  // ---------------------------------------------------------------- review

  /** The body `{ success: true }`. */
  datatype Ack = Success

  /** `UPDATE payments SET status = ?, admin_comment = ?, reviewed_by_admin = 1 WHERE payment_id = ?` */
  function SetReview(payments: seq<PaymentRow>, id: PaymentId, status: Status, comment: Option<string>): (r: seq<PaymentRow>)
    ensures |r| == |payments|
    ensures forall j :: 0 <= j < |payments| ==> r[j].id == payments[j].id && r[j].owner == payments[j].owner
  {
    seq(|payments|, j requires 0 <= j < |payments| =>
      if payments[j].id == id then payments[j].(status := status, adminComment := comment, reviewed := true)
      else payments[j])
  }

  /** `UPDATE users SET has_paid = 1 WHERE user_id = ?` */
  function MarkPaid(users: seq<UserRow>, user: UserId): (r: seq<UserRow>)
    ensures |r| == |users|
  {
    seq(|users|, i requires 0 <= i < |users| =>
      if users[i].id == user then users[i].(hasPaid := true) else users[i])
  }

  /** A lookup by id finds the same row after `SetReview`, which keeps every id. */
  lemma SetReviewKeepsOwner(payments: seq<PaymentRow>, id: PaymentId, status: Status, comment: Option<string>)
    ensures OwnerOf(SetReview(payments, id, status, comment), id) == OwnerOf(payments, id)
  {
  }

  /**
    The update-payment handler after its authorisation check: the named payment
    takes the new status and comment and is marked reviewed; when the new status is
    PAID, the user who owns it is flagged as paid.
   */
  function ApplyReview(db: Db, id: PaymentId, statusText: string, comment: Option<string>): (d: Db)
    ensures d.settings == db.settings
    ensures |d.payments| == |db.payments| && |d.users| == |db.users|
    ensures forall j :: 0 <= j < |db.payments| && db.payments[j].id != id ==> d.payments[j] == db.payments[j]
    ensures forall j :: 0 <= j < |db.payments| && db.payments[j].id == id ==>
      && d.payments[j].status == ParseStatus(statusText)
      && StatusText(d.payments[j].status) == statusText
      && d.payments[j].adminComment == comment
      && d.payments[j].reviewed
      && d.payments[j].(status := db.payments[j].status, adminComment := db.payments[j].adminComment,
                        reviewed := db.payments[j].reviewed) == db.payments[j]
    ensures forall i :: 0 <= i < |db.users| ==>
      d.users[i].hasPaid == (db.users[i].hasPaid || (statusText == "PAID" && OwnerOf(db.payments, id) == Some(db.users[i].id)))
    ensures forall i :: 0 <= i < |db.users| ==> d.users[i].(hasPaid := db.users[i].hasPaid) == db.users[i]
    ensures !PaymentIdTaken(db.payments, id) ==> d.users == db.users
  {
    var payments := SetReview(db.payments, id, ParseStatus(statusText), comment);
    SetReviewKeepsOwner(db.payments, id, ParseStatus(statusText), comment);
    var owner := OwnerOf(payments, id);
    var users := if statusText == "PAID" && owner.Some? then MarkPaid(db.users, owner.value) else db.users;
    Db(users, payments, db.settings)
  }

  // ---------------------------------------------------------------- invariants

  ghost predicate DistinctPaymentIds(payments: seq<PaymentRow>) {
    forall j, k :: 0 <= j < k < |payments| ==> payments[j].id != payments[k].id
  }

  ghost predicate DistinctUserIds(users: seq<UserRow>) {
    forall i, k :: 0 <= i < k < |users| ==> users[i].id != users[k].id
  }

  /** Every recorded last submission is a payment of that user. */
  ghost predicate LastSubmissionsResolve(db: Db) {
    forall i :: 0 <= i < |db.users| && db.users[i].lastSubmission.Some? ==>
      exists j :: 0 <= j < |db.payments| && db.payments[j].id == db.users[i].lastSubmission.value
                                          && db.payments[j].owner == db.users[i].id
  }

  /** A user who owns any payment has a last submission. */
  ghost predicate SubmittersRecorded(db: Db) {
    forall i, j :: 0 <= i < |db.users| && 0 <= j < |db.payments| && db.payments[j].owner == db.users[i].id
      ==> db.users[i].lastSubmission.Some?
  }

  /** A user flagged as paid owns a payment that is PAID or that the administrator reviewed. */
  ghost predicate PaidFlagsWitnessed(db: Db) {
    forall i :: 0 <= i < |db.users| && db.users[i].hasPaid ==>
      exists j :: 0 <= j < |db.payments| && db.payments[j].owner == db.users[i].id
                                          && (db.payments[j].status == Paid || db.payments[j].reviewed)
  }

  /** What both writing handlers keep true of the tables. */
  ghost predicate Consistent(db: Db) {
    && DistinctPaymentIds(db.payments)
    && DistinctUserIds(db.users)
    && LastSubmissionsResolve(db)
    && SubmittersRecorded(db)
    && PaidFlagsWitnessed(db)
  }

  /** The one-active-payment rule: two payments of one user are never both non-REJECTED. */
  ghost predicate AtMostOneActive(payments: seq<PaymentRow>) {
    forall j, k :: 0 <= j < k < |payments| && payments[j].owner == payments[k].owner ==>
      payments[j].status == Rejected || payments[k].status == Rejected
  }

  lemma {:induction false} SubmitPreservesConsistent(db: Db, form: SubmitForm, freshId: PaymentId, ai: AiOutcome)
    requires Consistent(db)
    requires !PaymentIdTaken(db.payments, freshId)
    ensures Consistent(Submit(db, form, freshId, ai).db)
  {
    var s := Submit(db, form, freshId, ai);
    if s.reply.Ok? {
      var d := s.db;
      var n := |db.payments|;
      SubmitRecordsPayment(db, form, freshId, ai);
      SubmitUpdatesSubmitter(db, form, freshId, ai);
      assert forall j :: 0 <= j < n ==> d.payments[j] == db.payments[j];
      forall i | 0 <= i < |d.users| && d.users[i].lastSubmission.Some?
        ensures exists j :: 0 <= j < |d.payments| && d.payments[j].id == d.users[i].lastSubmission.value
                                                && d.payments[j].owner == d.users[i].id
      {
        if db.users[i].id == form.userId.value {
          assert d.payments[n].id == d.users[i].lastSubmission.value;
        } else {
          var j :| 0 <= j < n && db.payments[j].id == db.users[i].lastSubmission.value
                              && db.payments[j].owner == db.users[i].id;
          assert d.payments[j] == db.payments[j];
        }
      }
      forall i | 0 <= i < |d.users| && d.users[i].hasPaid
        ensures exists j :: 0 <= j < |d.payments| && d.payments[j].owner == d.users[i].id
                                                && (d.payments[j].status == Paid || d.payments[j].reviewed)
      {
        if db.users[i].hasPaid {
          var j :| 0 <= j < n && db.payments[j].owner == db.users[i].id
                              && (db.payments[j].status == Paid || db.payments[j].reviewed);
          assert d.payments[j] == db.payments[j];
        } else {
          assert d.payments[n].owner == d.users[i].id && d.payments[n].status == Paid;
        }
      }
    }
  }

  /** A submission cannot give a user a second non-REJECTED payment. */
  lemma SubmitKeepsOneActive(db: Db, form: SubmitForm, freshId: PaymentId, ai: AiOutcome)
    requires AtMostOneActive(db.payments)
    ensures AtMostOneActive(Submit(db, form, freshId, ai).db.payments)
  {
  }

  lemma ReviewPreservesConsistent(db: Db, id: PaymentId, statusText: string, comment: Option<string>)
    requires Consistent(db)
    ensures Consistent(ApplyReview(db, id, statusText, comment))
  {
  }

  /**
    The one-active-payment rule is not kept by a review: re-approving a rejected
    payment leaves its user with two non-REJECTED payments.
   */
  lemma ReviewCanBreakOneActive()
    ensures exists db: Db, id: PaymentId ::
      && Consistent(db)
      && AtMostOneActive(db.payments)
      && !AtMostOneActive(ApplyReview(db, id, "PAID", None).payments)
  {
    var first := PaymentRow("P1", "u1", "", None, Some(50), "", Rejected, None, None, true);
    var second := PaymentRow("P2", "u1", "", None, Some(50), "", NeedsReview, None, None, false);
    var db := Db([UserRow("u1", "Asha", None, false, Some("P2"))], [first, second], []);
    assert db.payments[1].id == "P2" && db.payments[1].owner == "u1";
    assert Consistent(db);
    var d := ApplyReview(db, "P1", "PAID", None);
    assert d.payments[0].status == Paid && d.payments[1].status == NeedsReview;
  }

  /**
    The paid flag outlives the approval that raised it: once a PAID review is
    followed by a REJECTED one, the user is still flagged as paid although none of
    their payments is PAID.
   */
  lemma RejectionKeepsPaidFlag()
    ensures exists db: Db, id: PaymentId ::
      var d := ApplyReview(ApplyReview(db, id, "PAID", None), id, "REJECTED", None);
      && Consistent(db)
      && |db.users| == 1
      && d.users[0].hasPaid
      && forall j :: 0 <= j < |d.payments| ==> d.payments[j].status != Paid
  {
    var only := PaymentRow("P1", "u1", "", None, Some(50), "", NeedsReview, None, None, false);
    var db := Db([UserRow("u1", "Asha", None, false, Some("P1"))], [only], []);
    assert db.payments[0].id == "P1";
    assert Consistent(db);
    var approved := ApplyReview(db, "P1", "PAID", None);
    assert OwnerOf(db.payments, "P1") == Some("u1");
    assert approved.users[0].hasPaid;
    var d := ApplyReview(approved, "P1", "REJECTED", None);
    assert d.payments[0].status == Rejected;
  }
}
