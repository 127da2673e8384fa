/**
  Reading the vision model's reply and deriving a payment status from it.
  Confidences are kept in hundredths (0.85 is 85), so no floating point is involved.
 */
module Ocr {
  import opened Common

  /** The gift amount every payer is expected to send. */
  const ExpectedAmount: int := 2000
  /** 0.8: the least confidence at which a detected amount is trusted. */
  const PaidThreshold: int := 80
  /** 0.85: the confidence given to a reply that names the amount. */
  const MatchConfidence: int := 85
  /** 0.5: the confidence given to a reply that does not name it. */
  const NoMatchConfidence: int := 50
  /** 0.0: the confidence recorded when no model is bound. */
  const NoAiConfidence: int := 0
  const NoAiText: string := "Manual verification required (AI not available)"
  const FailedText: string := "OCR processing failed"

  /** The class `\w` of a JavaScript regular expression. */
  predicate IsWordChar(c: char) {
    ('a' <= c <= 'z') || ('A' <= c <= 'Z') || ('0' <= c <= '9') || c == '_'
  }

  /**
    `lit` occurs in `s` at position `i` with `\b` on both sides. Both literals used
    below begin and end with a digit, so `\b` means: no word character next to them.
   */
  predicate WholeWordAt(s: string, i: nat, lit: string) {
    && i + |lit| <= |s|
    && s[i..i + |lit|] == lit
    && (i == 0 || !IsWordChar(s[i - 1]))
    && (i + |lit| == |s| || !IsWordChar(s[i + |lit|]))
  }

  /** One of the alternatives of `/\b2000\b|\b2,000\b/` matches at `i`. */
  predicate AmountAt(s: string, i: nat) {
    WholeWordAt(s, i, "2000") || WholeWordAt(s, i, "2,000")
  }

  /** The meaning of the pattern: it matches somewhere in `s`. */
  ghost predicate MentionsAmount(s: string) {
    exists i: nat :: i < |s| && AmountAt(s, i)
  }

  /** The leftmost match of the pattern at or after `from`, as `String.prototype.match` finds it. */
  function FirstAmountMatch(s: string, from: nat): (r: Option<nat>)
    requires from <= |s|
    ensures r.Some? ==> from <= r.value < |s| && AmountAt(s, r.value)
    ensures r.Some? ==> forall j: nat :: from <= j < r.value ==> !AmountAt(s, j)
    ensures r.None? <==> forall j: nat :: from <= j < |s| ==> !AmountAt(s, j)
    decreases |s| - from
  {
    if from == |s| then None
    else if AmountAt(s, from) then Some(from)
    else FirstAmountMatch(s, from + 1)
  }

  /** What the call to the vision model produced: no model bound, a thrown call, or a reply whose `response` field may be missing. */
  datatype AiOutcome = NotConfigured | CallFailed | Replied(response: Option<string>)

  /** The three values the handler records: detected amount, confidence and raw text. */
  datatype OcrReading = OcrReading(amount: Option<int>, confidence: Option<int>, rawText: string)

  /** `aiResponse.response || ''` */
  function ResponseText(response: Option<string>): string {
    if response.Some? then response.value else ""
  }

  /**
    The reading recorded for a model outcome. A reply that names the amount as a
    whole word gives (2000, 0.85); any other reply gives (null, 0.5); no model gives
    (null, 0.0) with the manual-verification text; a failed call leaves amount and
    confidence null.
   */
  function Classify(ai: AiOutcome): (r: OcrReading)
    ensures r.amount.Some? ==> r.amount.value == ExpectedAmount && r.confidence == Some(MatchConfidence)
    ensures ai.Replied? ==> r.rawText == ResponseText(ai.response)
    ensures ai.Replied? ==> (r.amount.Some? <==> MentionsAmount(ResponseText(ai.response)))
    ensures ai.Replied? ==> r.confidence == Some(if MentionsAmount(ResponseText(ai.response)) then MatchConfidence else NoMatchConfidence)
    ensures !ai.Replied? ==> r.amount == None && r.rawText == (if ai.NotConfigured? then NoAiText else FailedText)
    ensures ai.NotConfigured? ==> r.confidence == Some(NoAiConfidence)
    ensures r.confidence == None <==> ai.CallFailed?
  {
    match ai
    case NotConfigured => OcrReading(None, Some(NoAiConfidence), NoAiText)
    case CallFailed => OcrReading(None, None, FailedText)
    case Replied(response) =>
      var text := ResponseText(response);
      if FirstAmountMatch(text, 0).Some? then OcrReading(Some(ExpectedAmount), Some(MatchConfidence), text)
      else OcrReading(None, Some(NoMatchConfidence), text)
  }

  /** A payment's status. The administrator may store any text, kept as `Other`. */
  datatype Status = Pending | NeedsReview | Paid | Rejected | Other(text: string)

  /** The four spellings the handlers give a special meaning. */
  const KnownStatusNames: set<string> := {"PENDING", "NEEDS_REVIEW", "PAID", "REJECTED"}

  function StatusText(st: Status): string {
    match st
    case Pending => "PENDING"
    case NeedsReview => "NEEDS_REVIEW"
    case Paid => "PAID"
    case Rejected => "REJECTED"
    case Other(text) => text
  }

  /** The status a stored text denotes; text comparisons are case-sensitive, as in SQL and JavaScript. */
  function ParseStatus(text: string): (st: Status)
    ensures StatusText(st) == text
    ensures st.Other? <==> text !in KnownStatusNames
  {
    if text == "PENDING" then Pending
    else if text == "NEEDS_REVIEW" then NeedsReview
    else if text == "PAID" then Paid
    else if text == "REJECTED" then Rejected
    else Other(text)
  }

  /** `Other` never carries one of the four known spellings. */
  predicate Canonical(st: Status) {
    st.Other? ==> st.text !in KnownStatusNames
  }

  lemma ParseStatusText(st: Status)
    requires Canonical(st)
    ensures ParseStatus(StatusText(st)) == st
  {
  }

  /** JavaScript's `<` and `>=` read a null confidence as the number 0. */
  function AsNumber(confidence: Option<int>): int {
    if confidence.Some? then confidence.value else 0
  }

  /**
    The status derived from a reading: PAID exactly when the amount is 2000 and the
    confidence reaches 0.8; NEEDS_REVIEW exactly when the confidence (null read as 0)
    is below 0.8; PENDING in the remaining case.
   */
  function DeriveStatus(amount: Option<int>, confidence: Option<int>): (st: Status)
    ensures st == Paid <==> amount == Some(ExpectedAmount) && confidence.Some? && confidence.value >= PaidThreshold
    ensures st == NeedsReview <==> AsNumber(confidence) < PaidThreshold
    ensures st == Pending <==> amount != Some(ExpectedAmount) && AsNumber(confidence) >= PaidThreshold
    ensures confidence == None ==> st == NeedsReview
  {
    if amount == Some(ExpectedAmount) && AsNumber(confidence) >= PaidThreshold then Paid
    else if AsNumber(confidence) < PaidThreshold then NeedsReview
    else Pending
  }

  /** What a submission's status is, given only what the model did: never PENDING. */
  lemma ClassifiedStatus(ai: AiOutcome)
    ensures var r := Classify(ai);
      DeriveStatus(r.amount, r.confidence)
        == (if ai.Replied? && MentionsAmount(ResponseText(ai.response)) then Paid else NeedsReview)
  {
  }

  /** Examples of what the pattern accepts and rejects. */
  lemma MatchExamples()
    ensures MentionsAmount("Rs. 2000")
    ensures MentionsAmount("NPR 2,000.00")
    ensures !MentionsAmount("20000")
    ensures !MentionsAmount("Rs2000")
  {
    assert AmountAt("Rs. 2000", 4);
    assert AmountAt("NPR 2,000.00", 4);
    var a := "20000";
    forall j: nat | j < |a| ensures !AmountAt(a, j) {
      if j == 0 {
        assert IsWordChar(a[4]) && a[0..5][1] == '0';
      } else if j + 4 <= |a| {
        assert a[j..j + 4][0] == a[j] == '0';
      }
    }
    var b := "Rs2000";
    forall j: nat | j < |b| ensures !AmountAt(b, j) {
      if j == 2 {
        assert IsWordChar(b[1]) && b[2..6][1] == '0';
      } else if j + 4 <= |b| {
        assert b[j..j + 4][0] == b[j] != '2';
      }
    }
  }
}
