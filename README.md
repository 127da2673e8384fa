# Wedding-gift payment portal — verified model

A Dafny model of the request-handling logic of a small payment-proof portal
(`src/index.tsx`). Payers from a fixed roster upload a screenshot of their
wedding-gift transfer; a hosted vision model is asked to read the amount; the
handler derives a status from that reading, records a payment row and updates
the payer's row. An administrator logs in with a shared password, sees
dashboard statistics, looks at single payments and approves or rejects them.

The model keeps the two database tables as sequences of rows (`Tables.Db`):
`INSERT` appends, `UPDATE ... WHERE` rewrites every matching row, and
`results[0]` of a query is its first matching row. Confidences are integer
hundredths (0.85 is 85). A null confidence takes part in the `<` and `>=`
comparisons as 0, as in JavaScript.

Modules:

- `Common`: `Option` (SQL NULL / JavaScript null) and `Reply` (a JSON body or an error status with its message).
- `Ocr`: the whole-word match of `2000` / `2,000` in the model's reply, the reading recorded for each model outcome, the status text of a payment and the status derivation.
- `Auth`: the `Bearer admin_` prefix check and the login handler.
- `Tables`: rows, the submission and review transitions as functions, the table invariant `Consistent` and the lemmas about both transitions.
- `Admin`: dashboard statistics and rows, the payment-detail lookup and the update-payment endpoint with its authorisation check.
- `Handlers`: class `Portal` holding the two tables. Its methods `SubmitPayment` and `UpdatePayment` run the handlers step by step. They are proved equal to the transitions in `Tables` and `Admin`, and they keep `Consistent`.

What the proofs establish about the code as written:

- A submission's status is PAID exactly when the model replied with the amount as a whole word. In every other case it is NEEDS_REVIEW. A submission is never PENDING.
- A rejected submission changes neither table. An accepted one appends exactly one row and touches only the submitter's user row. It never lowers a paid flag.
- The tables stay `Consistent` under both writing handlers:
  - payment ids and user ids are distinct;
  - every last submission names a payment of that user;
  - every user who owns a payment has a last submission;
  - every user flagged as paid owns a payment that is PAID or was reviewed by the administrator.
- A submission keeps the rule "at most one non-REJECTED payment per user". An administrator's review does not keep it (`Tables.ReviewCanBreakOneActive`): re-approving a rejected payment gives its user two active payments.
- A user's paid flag outlives the approval that set it (`Tables.RejectionKeepsPaidFlag`). After a later rejection the user is still flagged as paid although none of their payments is PAID.
- The dashboard counts partition the users. Approving a payment of an unpaid user moves that user from needs-review to paid.

## Model

| member | source | states |
|---|---|---|
| `Ocr.FirstAmountMatch` | src/index.tsx:645 | the leftmost position at which `2000` or `2,000` occurs as a whole word (the regular expression of line 645); none exactly when no position matches |
| `Ocr.MatchExamples` | src/index.tsx:645 | the pattern accepts `Rs. 2000` and `NPR 2,000.00` and rejects `20000` and `Rs2000` (word boundaries) |
| `Ocr.Classify` | src/index.tsx:630-660 | a reply naming the amount gives (2000, 0.85), any other reply (null, 0.5) with the reply text (`''` when absent); no model gives (null, 0.0, "Manual verification required (AI not available)"); a failed call gives (null, null, "OCR processing failed"); confidence is null only for a failed call |
| `Ocr.ParseStatus` | src/index.tsx:830-834 | the stored status reads back as the text the administrator sent; only the four known spellings get their special meaning |
| `Ocr.ParseStatusText` | src/index.tsx:830-834 | parsing the text of a status gives that status back |
| `Ocr.DeriveStatus` | src/index.tsx:663-668 | PAID exactly when the amount is 2000 and the confidence is at least 0.8; NEEDS_REVIEW exactly when the confidence (null read as 0) is below 0.8; PENDING otherwise; a null confidence always gives NEEDS_REVIEW |
| `Ocr.ClassifiedStatus` | src/index.tsx:630-668 | for every model outcome the derived status is PAID if the reply names the amount and NEEDS_REVIEW otherwise, never PENDING |
| `Auth.Login` | src/index.tsx:726-745 | succeeds exactly when a settings row exists and its password equals the one given; otherwise 401 "Invalid password"; the issued token, sent as `Bearer <token>`, passes the prefix check |
| `Tables.IndexOfPayment` | src/index.tsx:838-842 | the first payment row with the given id; none exactly when no row has it |
| `Tables.Submit` | src/index.tsx:595-701 | a missing user id or screenshot is a 400 that changes nothing; a user with a non-REJECTED payment gets a 400 that changes nothing; otherwise the reply is success with the fresh id and a PAID or NEEDS_REVIEW status, and exactly one payment row is added |
| `Tables.SubmitRecordsPayment` | src/index.tsx:670-678 | an accepted submission keeps all earlier payment rows and appends one unreviewed row with the fresh id, the submitter, the image URL, the model's reading and the payment method; the reply repeats its id, status and amount |
| `Tables.SubmitStatus` | src/index.tsx:630-668 | an accepted submission is PAID exactly when the model replied with the amount, NEEDS_REVIEW otherwise |
| `Tables.SubmitUpdatesSubmitter` | src/index.tsx:680-689 | the submitter's row gets the new id as last submission and the paid flag only for PAID, never losing it; every other user row is unchanged |
| `Tables.SetReview` | src/index.tsx:830-834 | the update keeps the number of payment rows and every row's id and owner |
| `Tables.ApplyReview` | src/index.tsx:829-847 | only rows with the named id change, taking the status the sent text denotes, the comment and the reviewed mark; a user's paid flag is raised exactly when the new status is PAID and the user owns that payment, and is never cleared; nothing else in the user rows changes; an unknown id touches no user |
| `Tables.SubmitPreservesConsistent` | src/index.tsx:604-689 | a submission with a fresh id keeps the tables consistent (distinct ids, resolving last submissions, recorded submitters, witnessed paid flags) |
| `Tables.SubmitKeepsOneActive` | src/index.tsx:608-615 | a submission never gives a user a second non-REJECTED payment |
| `Tables.ReviewPreservesConsistent` | src/index.tsx:829-847 | a review keeps the tables consistent; in particular a paid user still owns a PAID or reviewed payment |
| `Tables.ReviewCanBreakOneActive` | src/index.tsx:830-834 | there are consistent tables with at most one active payment per user on which approving a rejected payment leaves a user with two active payments |
| `Tables.RejectionKeepsPaidFlag` | src/index.tsx:836-847 | approving and then rejecting a payment leaves its user flagged as paid with no PAID payment |
| `Admin.CountsPartition` | src/index.tsx:758-765 | the paid, pending and needs-review counts add up to the number of users |
| `Admin.CountAfterUpdate` | src/index.tsx:758-765 | replacing one user row moves its tally from the old row's category to the new one's |
| `Admin.ComputeStats` | src/index.tsx:758-765 | total is the number of users; on a non-empty table paid counts the users with the paid flag, pending the unpaid users with no last submission, needs_review the unpaid users with one, and paid + pending + needs_review = total; on an empty table the three sums are NULL |
| `Admin.JoinRows` | src/index.tsx:768-776 | one dashboard row per user, carrying that user |
| `Admin.JoinFindsLastSubmission` | src/index.tsx:768-776 | on consistent tables a user's row carries a payment exactly when the user has a last submission, and that payment is the one named and is the user's own |
| `Admin.Dashboard` | src/index.tsx:748-786 | 401 "Unauthorized" exactly when the header lacks the `Bearer admin_` prefix; otherwise the statistics of `Admin.ComputeStats` over the users table and the left-join rows of `Admin.JoinRows` |
| `Admin.ApprovalShiftsStats` | src/index.tsx:836-847 | approving a payment of an unpaid user raises the paid count by one, lowers the needs-review count by one and leaves pending and total alone |
| `Admin.IndexOfUser` | src/index.tsx:803 | a user row with the given id; none exactly when no row has it |
| `Admin.FirstJoined` | src/index.tsx:799-805 | a payment with the given id whose owner has a user row; none exactly when there is no such pair |
| `Admin.GetPayment` | src/index.tsx:789-815 | 401 without the prefix; 404 "Payment not found" exactly when no payment with that id has an owner in the users table; otherwise that payment with its owner's name and roll number |
| `Admin.UpdatePayment` | src/index.tsx:818-854 | 401 and no change without the prefix; otherwise success, with the tables as `Tables.ApplyReview` leaves them; no paid flag is ever cleared |
| `Handlers.Portal.SubmitPayment` | src/index.tsx:595-701 | the handler's step-by-step run leaves the tables and the reply that `Tables.Submit` gives, and keeps them consistent |
| `Handlers.Portal.UpdatePayment` | src/index.tsx:818-854 | the handler's step-by-step run leaves the tables and the reply that `Admin.UpdatePayment` gives, and keeps them consistent |

## Left out

- The HTML, CSS and client-side script of `/` and `/admin` (src/index.tsx:20-573), and the CORS and static-file middleware (src/index.tsx:14-17): presentation only.
- `GET /api/users` (src/index.tsx:578-592) is not part of this model: it is a read-only listing of the users table sorted by name.
- Blob storage: the upload (src/index.tsx:620-623) and image retrieval (src/index.tsx:704-723) are foreign I/O. The model only computes the image URL a payment row records.
- The vision-model call (src/index.tsx:635-640) is a foreign call. Its outcome is an input: no model bound, a call that throws inside the OCR `try` (src/index.tsx:634-660), or a reply whose `response` may be missing.
- The image read and base64 conversion (src/index.tsx:626-627) are local code before the OCR `try`, and `base64Image` is never used. A throw there, for example when spreading the bytes of a large upload into `String.fromCharCode` exceeds the engine's argument or stack limit, ends the request in the outer 500 (src/index.tsx:697-700) after the blob is stored. `Upload` carries no size and no bytes, so this 500 is not represented: the model treats every upload as reaching the OCR step.
- Payment-id generation from the clock and a random suffix (src/index.tsx:618) is an input. A fresh id is a precondition of the submit method; the source has no collision check. The clock reading in the login token (src/index.tsx:740) is an input too.
- The `submitted_at` column (a database default) and the `ORDER BY` of the dashboard rows (src/index.tsx:775) are not modelled.
- Admin.Dashboard: does not state the order of its rows (the `ORDER BY` of src/index.tsx:775).
- Admin.JoinRows: each row carries the whole user and payment rows, not the eleven columns the dashboard query selects (src/index.tsx:769-772); the raw OCR text, the admin comment, the reviewed mark and the last-submission id are returned by the model but not by the endpoint.
- Admin.JoinRows: gives exactly one row per user, carrying the first payment with the user's last-submission id. The SQL left join (src/index.tsx:774) would give one row per matching payment if payment ids repeated. The tables the handlers keep have distinct payment ids (`Tables.Consistent`), where the two agree; on tables with repeated ids the model does not capture the extra rows, and `Admin.Dashboard`'s row count is then that of the model, not of SQL.
- Database, storage and parsing failures that end in a 500 reply (for example src/index.tsx:697-700, 850-853) are not modelled. So are the partial writes they can leave behind, such as a payment row whose user update failed. Each request is modelled as atomic and successful.
- The race between the duplicate check and the insert is concurrency; each request runs alone in the model.
- Request decoding is not modelled: a screenshot field sent as text, non-string JSON values, missing fields in the update-payment body, and a malformed body. A missing login password is modelled as never matching.
- The database schema is not part of this model. No foreign key is assumed, so a submission for an unknown user id inserts its payment row and updates no user row. `has_paid` is a boolean, and stored passwords are never NULL.
- Confidences are integer hundredths rather than floating-point numbers; the handlers only ever use 0, 0.5, 0.85 and the threshold 0.8.
