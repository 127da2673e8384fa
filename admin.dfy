/**
  The administrator's read endpoints (dashboard statistics and rows, payment
  detail) and the update-payment endpoint, each behind the bearer-prefix check.
 */
module Admin {
  import opened Common
  import opened Ocr
  import opened Auth
  import opened Tables

  const PaymentNotFoundMessage: string := "Payment not found"

  // ---------------------------------------------------------------- statistics

  /** The three `CASE` arms of the statistics query. */
  datatype Category = PaidUser | PendingUser | NeedsReviewUser

  /** paid: `has_paid = 1`; pending: unpaid with no submission; needs review: unpaid with one. */
  function CategoryOf(u: UserRow): Category {
    if u.hasPaid then PaidUser
    else if u.lastSubmission.None? then PendingUser
    else NeedsReviewUser
  }

  function Tally(u: UserRow, c: Category): nat {
    if CategoryOf(u) == c then 1 else 0
  }

  /** `SUM(CASE WHEN ... THEN 1 ELSE 0 END)` over a non-empty table. */
  function CountIn(users: seq<UserRow>, c: Category): nat {
    if users == [] then 0 else Tally(users[0], c) + CountIn(users[1..], c)
  }

  /** Every user falls in exactly one category, so the three counts add up to the total. */
  lemma {:induction false} CountsPartition(users: seq<UserRow>)
    ensures CountIn(users, PaidUser) + CountIn(users, PendingUser) + CountIn(users, NeedsReviewUser) == |users|
  {
    if users != [] {
      CountsPartition(users[1..]);
    }
  }

  /** Replacing one row moves its tally from the old row's category to the new one's. */
  lemma {:induction false} CountAfterUpdate(users: seq<UserRow>, k: nat, u: UserRow, c: Category)
    requires k < |users|
    ensures CountIn(users[k := u], c) == CountIn(users, c) - Tally(users[k], c) + Tally(u, c)
  {
    if k == 0 {
      assert users[k := u][1..] == users[1..];
    } else {
      assert users[k := u][1..] == users[1..][k - 1 := u];
      CountAfterUpdate(users[1..], k - 1, u, c);
    }
  }

  /** The statistics object; SQL's `SUM` over no rows is NULL. */
  datatype Stats = Stats(total: nat, paid: Option<nat>, pending: Option<nat>, needsReview: Option<nat>)

  /**
    The statistics query. On a non-empty table the paid, pending and needs-review
    counts partition the users; on an empty one the three sums are NULL.
   */
  function ComputeStats(users: seq<UserRow>): (s: Stats)
    ensures s.total == |users|
    ensures users == [] ==> s.paid.None? && s.pending.None? && s.needsReview.None?
    ensures users != [] ==>
      && s.paid.Some? && s.pending.Some? && s.needsReview.Some?
      && s.paid.value + s.pending.value + s.needsReview.value == s.total
    ensures users != [] ==>
      && s.paid == Some(CountIn(users, PaidUser))
      && s.pending == Some(CountIn(users, PendingUser))
      && s.needsReview == Some(CountIn(users, NeedsReviewUser))
  {
    if users == [] then Stats(0, None, None, None)
    else
      CountsPartition(users);
      Stats(|users|, Some(CountIn(users, PaidUser)), Some(CountIn(users, PendingUser)),
            Some(CountIn(users, NeedsReviewUser)))
  }

  // ---------------------------------------------------------------- dashboard rows

  /** A user and the payment its last submission names, if the left join finds one. */
  datatype JoinedRow = JoinedRow(user: UserRow, payment: Option<PaymentRow>)

  function LastPaymentOf(payments: seq<PaymentRow>, u: UserRow): Option<PaymentRow> {
    if u.lastSubmission.None? then None
    else match IndexOfPayment(payments, u.lastSubmission.value, 0)
      case None => None
      case Some(j) => Some(payments[j])
  }

  /** `users u LEFT JOIN payments p ON u.last_submission_id = p.payment_id`, one row per user. */
  function JoinRows(db: Db): (rows: seq<JoinedRow>)
    ensures |rows| == |db.users|
    ensures forall i :: 0 <= i < |rows| ==> rows[i].user == db.users[i]
  {
    seq(|db.users|, i requires 0 <= i < |db.users| => JoinedRow(db.users[i], LastPaymentOf(db.payments, db.users[i])))
  }

  /** On consistent tables the join finds, for each user, exactly the payment their last submission names, and it is theirs. */
  lemma JoinFindsLastSubmission(db: Db)
    requires Consistent(db)
    ensures forall i :: 0 <= i < |db.users| ==>
      var row := JoinRows(db)[i];
      && (row.payment.Some? <==> db.users[i].lastSubmission.Some?)
      && (row.payment.Some? ==>
            && Some(row.payment.value.id) == db.users[i].lastSubmission
            && row.payment.value.owner == db.users[i].id
            && row.payment.value in db.payments)
  {
  }

  datatype DashboardView = DashboardView(stats: Stats, rows: seq<JoinedRow>)

  /** The dashboard endpoint (the ordering of its rows is not modelled). */
  function Dashboard(db: Db, auth: Option<string>): (r: Reply<DashboardView>)
    ensures r.Fail? <==> !Authorized(auth)
    ensures r.Fail? ==> r == Fail(Unauthorized, UnauthorizedMessage)
    ensures r.Ok? ==> r.body.stats.total == |db.users| == |r.body.rows|
    ensures r.Ok? ==> r.body.stats == ComputeStats(db.users) && r.body.rows == JoinRows(db)
  {
    if !Authorized(auth) then Fail(Unauthorized, UnauthorizedMessage)
    else Ok(DashboardView(ComputeStats(db.users), JoinRows(db)))
  }

  /**
    Approving a payment of an unpaid user moves that user from needs-review to paid:
    the paid count goes up by one, the needs-review count down by one.
   */
  lemma {:induction false} ApprovalShiftsStats(db: Db, j: nat, k: nat, comment: Option<string>)
    requires Consistent(db)
    requires j < |db.payments| && k < |db.users|
    requires db.payments[j].owner == db.users[k].id && !db.users[k].hasPaid
    ensures var before := ComputeStats(db.users);
      var after := ComputeStats(ApplyReview(db, db.payments[j].id, "PAID", comment).users);
      && after.total == before.total
      && after.paid.value == before.paid.value + 1
      && after.needsReview.value == before.needsReview.value - 1
      && after.pending == before.pending
  {
    var id := db.payments[j].id;
    var users' := ApplyReview(db, id, "PAID", comment).users;
    var u := db.users[k];
    assert CategoryOf(u) == NeedsReviewUser;
    var found := IndexOfPayment(db.payments, id, 0);
    assert found == Some(j);
    assert users' == db.users[k := u.(hasPaid := true)];
    CountAfterUpdate(db.users, k, u.(hasPaid := true), PaidUser);
    CountAfterUpdate(db.users, k, u.(hasPaid := true), PendingUser);
    CountAfterUpdate(db.users, k, u.(hasPaid := true), NeedsReviewUser);
  }

  // ---------------------------------------------------------------- payment detail

  /** `p.*, u.name, u.roll_no` of one payment joined with its user. */
  datatype PaymentDetail = PaymentDetail(payment: PaymentRow, name: string, rollNo: Option<string>)

  /** The first user row with id `user`. */
  function IndexOfUser(users: seq<UserRow>, user: UserId, from: nat): (r: Option<nat>)
    requires from <= |users|
    ensures r.Some? ==> from <= r.value < |users| && users[r.value].id == user
    ensures r.None? <==> forall i :: from <= i < |users| ==> users[i].id != user
    decreases |users| - from
  {
    if from == |users| then None
    else if users[from].id == user then Some(from)
    else IndexOfUser(users, user, from + 1)
  }

  /** The first payment row at or after `from` with id `id` whose owner has a user row: the inner join. */
  function FirstJoined(db: Db, id: PaymentId, from: nat): (r: Option<nat>)
    requires from <= |db.payments|
    ensures r.Some? ==> from <= r.value < |db.payments| && db.payments[r.value].id == id
                        && IndexOfUser(db.users, db.payments[r.value].owner, 0).Some?
    ensures r.None? <==> forall j :: from <= j < |db.payments| && db.payments[j].id == id
                          ==> IndexOfUser(db.users, db.payments[j].owner, 0).None?
    decreases |db.payments| - from
  {
    if from == |db.payments| then None
    else if db.payments[from].id == id && IndexOfUser(db.users, db.payments[from].owner, 0).Some? then Some(from)
    else FirstJoined(db, id, from + 1)
  }

  /**
    The payment-detail endpoint: 401 without the bearer prefix; 404 unless some
    payment with that id has an owner in the users table; otherwise that payment with
    its owner's name and roll number.
   */
  function GetPayment(db: Db, auth: Option<string>, id: PaymentId): (r: Reply<PaymentDetail>)
    ensures !Authorized(auth) ==> r == Fail(Unauthorized, UnauthorizedMessage)
    ensures Authorized(auth) ==>
      (r.Fail? <==> !exists j, i :: 0 <= j < |db.payments| && 0 <= i < |db.users|
                                    && db.payments[j].id == id && db.users[i].id == db.payments[j].owner)
    ensures Authorized(auth) && r.Fail? ==> r == Fail(NotFound, PaymentNotFoundMessage)
    ensures r.Ok? ==> r.body.payment in db.payments && r.body.payment.id == id
                      && exists i :: 0 <= i < |db.users| && db.users[i].id == r.body.payment.owner
                                     && db.users[i].name == r.body.name && db.users[i].rollNo == r.body.rollNo
  {
    if !Authorized(auth) then Fail(Unauthorized, UnauthorizedMessage)
    else match FirstJoined(db, id, 0)
      case None => Fail(NotFound, PaymentNotFoundMessage)
      case Some(j) =>
        var u := db.users[IndexOfUser(db.users, db.payments[j].owner, 0).value];
        Ok(PaymentDetail(db.payments[j], u.name, u.rollNo))
  }

  // ---------------------------------------------------------------- review endpoint

  /** The update-payment endpoint: 401 and no change without the bearer prefix, the review otherwise. */
  function UpdatePayment(db: Db, auth: Option<string>, id: PaymentId, statusText: string, comment: Option<string>): (s: Step<Ack>)
    ensures !Authorized(auth) ==> s == Step(db, Fail(Unauthorized, UnauthorizedMessage))
    ensures Authorized(auth) ==> s.reply == Ok(Success) && s.db == ApplyReview(db, id, statusText, comment)
    ensures |s.db.users| == |db.users|
    ensures forall i :: 0 <= i < |db.users| && db.users[i].hasPaid ==> s.db.users[i].hasPaid
  {
    if !Authorized(auth) then Step(db, Fail(Unauthorized, UnauthorizedMessage))
    else Step(ApplyReview(db, id, statusText, comment), Ok(Success))
  }
}
