/** The platform's automated review of a delivered file, and the two permission checks the
    employer's accept and reject actions consult. The storage integrity verdict is an input. */
module ReviewEngine {
  import opened Wrappers
  import opened Text
  import opened Decimal
  import opened Types
  import ContentHash

  datatype ReviewResult = ReviewResult(approved: bool, reason: Option<string>, issues: Option<seq<string>>)

  const BytesPerMb: nat := 1024 * 1024
  const DefaultMaxFileSizeMb: int := 50

  /** The allow-listed file endings, compared against the lower-cased file name. */
  const AllowedExtensions: seq<string> := [
    ".pdf", ".zip", ".tar.gz", ".rar",
    ".png", ".jpg", ".jpeg", ".gif", ".webp",
    ".txt", ".md", ".doc", ".docx",
    ".py", ".js", ".ts", ".html", ".css",
    ".json", ".xml", ".csv"
  ]

  /** Path traversal, script injection and `javascript:` URL fragments. */
  const DangerousPatterns: seq<string> := ["../", "..\\", "<script", "javascript:"]

  const IntegrityFailed: string := "File integrity check failed"
  const UnknownIntegrityIssue: string := "Unknown integrity issue"
  const FailedReview: string := "Submission failed automated review"

  /** The problems the checks on an intact file can find. */
  datatype Issue = EmptyFile | TooLarge(maxMb: int) | TypeNotAllowed | DangerousName {
    function Message(): string {
      match this
      case EmptyFile => "File is empty"
      case TooLarge(maxMb) => "File size exceeds " + IntToDecimal(maxMb) + "MB limit"
      case TypeNotAllowed => "File type not allowed. Please use common document, image, or code files."
      case DangerousName => "File name contains potentially dangerous content"
    }
  }

  function Messages(issues: seq<Issue>): (r: seq<string>)
    ensures |r| == |issues| && forall i :: 0 <= i < |issues| ==> r[i] == issues[i].Message()
  {
    seq(|issues|, i requires 0 <= i < |issues| => issues[i].Message())
  }

  /** Whether `name` ends with one of `suffixes` (`some(ext => name.endsWith(ext))`). */
  function EndsWithAny(name: string, suffixes: seq<string>): (r: bool)
    ensures r <==> exists i :: 0 <= i < |suffixes| && EndsWith(name, suffixes[i])
  {
    if |suffixes| == 0 then false
    else if EndsWith(name, suffixes[0]) then true
    else
      assert forall i :: 1 <= i < |suffixes| ==> suffixes[i] == suffixes[1..][i - 1];
      EndsWithAny(name, suffixes[1..])
  }

  /** Whether `name` holds one of `patterns`, scanning them in order and stopping at the first. */
  function ContainsAny(name: string, patterns: seq<string>): (r: bool)
    ensures r <==> exists i :: 0 <= i < |patterns| && Contains(name, patterns[i])
  {
    if |patterns| == 0 then false
    else if Contains(name, patterns[0]) then true
    else
      assert forall i :: 1 <= i < |patterns| ==> patterns[i] == patterns[1..][i - 1];
      ContainsAny(name, patterns[1..])
  }

  predicate HasAllowedExtension(name: string) {
    exists i :: 0 <= i < |AllowedExtensions| && EndsWith(name, AllowedExtensions[i])
  }

  predicate HasDangerousPattern(name: string) {
    exists i :: 0 <= i < |DangerousPatterns| && Contains(name, DangerousPatterns[i])
  }

  /** `file_size > max * 1024 * 1024`; a limit that parsed to NaN (None) never triggers. */
  predicate OverLimit(size: nat, maxMb: Option<int>) {
    maxMb.Some? && size > maxMb.value * BytesPerMb
  }

  /** The type check: one issue when no allow-listed ending matches. */
  function TypeCheck(name: string): (r: seq<Issue>)
    ensures r == [] || r == [TypeNotAllowed]
    ensures r == [TypeNotAllowed] <==> !HasAllowedExtension(name)
  {
    if EndsWithAny(name, AllowedExtensions) then [] else [TypeNotAllowed]
  }

  /** The name check: the scan stops at the first dangerous fragment, so one issue at most. */
  function NameCheck(name: string): (r: seq<Issue>)
    ensures r == [] || r == [DangerousName]
    ensures r == [DangerousName] <==> HasDangerousPattern(name)
  {
    if ContainsAny(name, DangerousPatterns) then [DangerousName] else []
  }

  /** The size checks: an empty file, and one above the limit. */
  function SizeCheck(size: nat, maxMb: Option<int>): (r: seq<Issue>)
    ensures EmptyFile in r <==> size == 0
    ensures (exists m :: TooLarge(m) in r) <==> OverLimit(size, maxMb)
    ensures OverLimit(size, maxMb) ==> TooLarge(maxMb.value) in r
    ensures TypeNotAllowed !in r && DangerousName !in r && |r| <= 2
  {
    (if size == 0 then [EmptyFile] else []) + (if OverLimit(size, maxMb) then [TooLarge(maxMb.value)] else [])
  }

  /** The issues found on an intact file, in the order the checks run. */
  function Issues(fileName: string, size: nat, maxMb: Option<int>): (r: seq<Issue>)
    ensures EmptyFile in r <==> size == 0
    ensures (exists m :: TooLarge(m) in r) <==> OverLimit(size, maxMb)
    ensures OverLimit(size, maxMb) ==> TooLarge(maxMb.value) in r
    ensures TypeNotAllowed in r <==> !HasAllowedExtension(ToLower(fileName))
    ensures DangerousName in r <==> HasDangerousPattern(ToLower(fileName))
    ensures |r| <= 4
  {
    var name := ToLower(fileName);
    SizeCheck(size, maxMb) + TypeCheck(name) + NameCheck(name)
  }

  /** `autoReviewSubmission`: an integrity failure ends the review with one issue; otherwise
      every check runs and the file is approved exactly when none found an issue. */
  function AutoReview(sub: Submission, integrity: ContentHash.Integrity, maxMb: Option<int>): (r: ReviewResult)
    ensures integrity.Broken? ==>
              r == ReviewResult(false, Some(IntegrityFailed),
                                Some([if integrity.reason == "" then UnknownIntegrityIssue else integrity.reason]))
    ensures r.approved <==>
              integrity.Intact? && sub.fileSize != 0 && !OverLimit(sub.fileSize, maxMb) &&
              HasAllowedExtension(ToLower(sub.fileName)) && !HasDangerousPattern(ToLower(sub.fileName))
    ensures r.approved ==> r.reason.None? && r.issues.None?
    ensures !r.approved ==> r.reason.Some? && r.issues.Some? && |r.issues.value| >= 1
    ensures integrity.Intact? && !r.approved ==>
              r.reason == Some(FailedReview) && r.issues == Some(Messages(Issues(sub.fileName, sub.fileSize, maxMb)))
  {
    match integrity
    case Broken(reason) =>
      ReviewResult(false, Some(IntegrityFailed), Some([if reason == "" then UnknownIntegrityIssue else reason]))
    case Intact =>
      var issues := Issues(sub.fileName, sub.fileSize, maxMb);
      if |issues| > 0 then ReviewResult(false, Some(FailedReview), Some(Messages(issues)))
      else ReviewResult(true, None, None)
  }

  /** A file exactly at the size limit raises no size issue. */
  lemma LimitIsInclusive(fileName: string, maxMb: int)
    requires maxMb >= 0
    ensures forall m :: TooLarge(m) !in Issues(fileName, maxMb * BytesPerMb, Some(maxMb))
  {
  }

  /** The type check and the name check each contribute one issue at most: a name matching
      several dangerous fragments still yields a single issue. */
  lemma ChecksCountOnce(fileName: string, size: nat, maxMb: Option<int>)
    ensures multiset(Issues(fileName, size, maxMb))[DangerousName] ==
              if HasDangerousPattern(ToLower(fileName)) then 1 else 0
    ensures multiset(Issues(fileName, size, maxMb))[TypeNotAllowed] ==
              if HasAllowedExtension(ToLower(fileName)) then 0 else 1
  {
    var name := ToLower(fileName);
    var sizes, kind, danger := SizeCheck(size, maxMb), TypeCheck(name), NameCheck(name);
    assert Issues(fileName, size, maxMb) == sizes + kind + danger;
    CountThree(sizes, kind, danger, DangerousName);
    CountThree(sizes, kind, danger, TypeNotAllowed);
  }

  lemma CountThree<T>(a: seq<T>, b: seq<T>, c: seq<T>, x: T)
    ensures multiset(a + b + c)[x] == multiset(a)[x] + multiset(b)[x] + multiset(c)[x]
  {
    assert multiset(a + b + c) == multiset(a) + multiset(b) + multiset(c);
  }

  datatype Permission = Allowed | Denied(reason: string)

  const NotApproved: string := "Submission has not been approved by platform review"

  /** `canAcceptSubmission`. */
  function CanAccept(sub: Submission): (r: Permission)
    ensures r.Allowed? <==> sub.reviewStatus == ReviewApproved
    ensures r.Denied? ==> r.reason == NotApproved
  {
    if sub.reviewStatus != ReviewApproved then Denied(NotApproved) else Allowed
  }

  function RejectLimitReached(maxRejections: int): string {
    "Maximum rejection limit (" + IntToDecimal(maxRejections) + ") reached"
  }

  /** `canRejectSubmission`: refused once `count` reaches the ceiling. A ceiling that parsed to
      NaN (None) compares false and so never refuses. */
  function CanReject(count: int, maxRejections: Option<int>): (r: Permission)
    ensures r.Allowed? <==> maxRejections.None? || count < maxRejections.value
    ensures r.Denied? ==> r.reason == RejectLimitReached(maxRejections.value)
  {
    match maxRejections
    case Some(max) => if count >= max then Denied(RejectLimitReached(max)) else Allowed
    case None => Allowed
  }

  /** With the default ceiling of 3, rejections 0, 1 and 2 are allowed and the fourth is refused. */
  lemma DefaultCeiling(count: nat)
    ensures CanReject(count, Some(3)).Allowed? <==> count < 3
  {
  }
}
