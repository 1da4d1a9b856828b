/** Task tokens: an HMAC-SHA256 over the task's identifying fields, given to the employer at
    creation and demanded from a worker at claim time. */
module TaskToken {
  import opened Wrappers
  import opened Text
  import opened Decimal
  import opened Types
  import Clock
  import Crypto
  import Hex
  import ConstantTime

  /** `${budget}` for a budget of `cents` hundredths of a dollar: JavaScript's shortest rendering,
      with no trailing zero in the fraction and no fraction at all for whole dollars. */
  function BudgetText(cents: int): (r: string)
    ensures ':' !in r
    ensures cents >= 0 && cents % 100 == 0 ==> r == NatToDecimal(cents / 100)
  {
    if cents < 0 then "-" + UnsignedBudgetText(-cents) else UnsignedBudgetText(cents)
  }

  function UnsignedBudgetText(cents: nat): (r: string)
    ensures ':' !in r
  {
    var whole := NatToDecimal(cents / 100);
    var frac := cents % 100;
    assert forall i :: 0 <= i < |whole| ==> whole[i] != ':';
    if frac == 0 then whole
    else if frac % 10 == 0 then whole + "." + [DigitChar(frac / 10)]
    else whole + "." + [DigitChar(frac / 10), DigitChar(frac % 10)]
  }

  /** The signed text `id:employer_id:budget:created_at`. */
  function Payload(t: Task): string {
    t.id + ":" + t.employerId + ":" + BudgetText(t.budget) + ":" + Clock.IsoText(t.createdAt)
  }

  /** With colon-free ids the payload splits back into its fields: id, employer, budget, and the
      three colon-separated pieces of the creation time. */
  lemma PayloadFields(t: Task)
    requires ':' !in t.id && ':' !in t.employerId
    ensures Split(Payload(t), ':') == [t.id, t.employerId, BudgetText(t.budget)] + Clock.IsoParts(t.createdAt)
  {
    FourFields(t.id, t.employerId, BudgetText(t.budget), Clock.IsoText(t.createdAt));
  }

  lemma FourFields(a: string, e: string, b: string, iso: string)
    requires ':' !in a && ':' !in e && ':' !in b
    ensures Split(a + ":" + e + ":" + b + ":" + iso, ':') == [a, e, b] + Split(iso, ':')
  {
    Reassociate(a, e, b, iso);
    SplitThreeFields(a, e, b, iso, ':');
  }

  lemma Reassociate(a: string, e: string, b: string, iso: string)
    ensures a + ":" + e + ":" + b + ":" + iso == a + [':'] + (e + [':'] + (b + [':'] + iso))
  {
  }

  /** The token of a task under a secret: the MAC of its payload, in lower-case hex. */
  function Token(sha: Crypto.Sha256, t: Task, secret: string): (r: string)
    ensures |r| == 64 && Hex.IsLowerHex(r)
    ensures Hex.Decode(r) == Some(Crypto.HmacText(sha, secret, Payload(t)))
  {
    Hex.DecodeEncode(Crypto.HmacText(sha, secret, Payload(t)));
    Hex.Encode(Crypto.HmacText(sha, secret, Payload(t)))
  }

  /** `generateTaskToken`: the task's token, or the key import's exception when the secret is
      empty (an unset `TASK_SECRET` encodes to no bytes as well). */
  function Generate(sha: Crypto.Sha256, t: Task, secret: string): (r: Result<string, string>)
    ensures r.Err? <==> secret == ""
    ensures r.Err? ==> r.error == Crypto.EmptyKeyRefused
    ensures r.Ok? ==> r.value == Token(sha, t, secret) && |r.value| == 64 && Hex.IsLowerHex(r.value)
  {
    Crypto.SignRefusesOnlyEmpty(sha, secret, Payload(t));
    match Crypto.Sign(sha, secret, Payload(t))
    case Err(e) => Err(e)
    case Ok(mac) => Ok(Hex.Encode(mac))
  }

  /** Two tokens for tasks agreeing on the signed fields are the same token. */
  lemma GenerateDependsOnSignedFields(sha: Crypto.Sha256, t: Task, u: Task, secret: string)
    requires t.id == u.id && t.employerId == u.employerId && t.budget == u.budget && t.createdAt == u.createdAt
    ensures Generate(sha, t, secret) == Generate(sha, u, secret)
    ensures Token(sha, t, secret) == Token(sha, u, secret)
  {
  }

  /** `verifyTaskToken`: constant-time comparison against a freshly generated token; the
      generation's exception propagates. */
  function Verify(sha: Crypto.Sha256, t: Task, token: string, secret: string): (r: Result<bool, string>)
    ensures r.Err? <==> secret == ""
    ensures r.Err? ==> r.error == Crypto.EmptyKeyRefused
    ensures r.Ok? ==> (r.value <==> token == Token(sha, t, secret))
  {
    match Generate(sha, t, secret)
    case Err(e) => Err(e)
    case Ok(expected) => Ok(ConstantTime.TimingSafeEqual(token, expected))
  }

  /** A token issued for a task verifies for it. */
  lemma GeneratedVerifies(sha: Crypto.Sha256, t: Task, secret: string)
    ensures Generate(sha, t, secret).Ok? ==> Verify(sha, t, Generate(sha, t, secret).value, secret) == Ok(true)
  {
  }

  /** `isTokenExpired`: older than the maximum age, strictly. A NaN maximum age (None) compares
      false, so such a token never expires. */
  function IsExpired(createdAt: int, now: int, maxAgeHours: Option<int>): (r: bool)
    ensures maxAgeHours.None? ==> !r
    ensures maxAgeHours.Some? ==> (r <==> now - createdAt > maxAgeHours.value * Clock.MsPerHour)
  {
    match maxAgeHours
    case None => false
    case Some(h) => now - createdAt > h * 60 * 60 * 1000
  }

  /** A token exactly at its maximum age is still live; one millisecond later it has expired. */
  lemma ExpiryBoundary(createdAt: int, hours: int)
    ensures !IsExpired(createdAt, createdAt + hours * Clock.MsPerHour, Some(hours))
    ensures IsExpired(createdAt, createdAt + hours * Clock.MsPerHour + 1, Some(hours))
  {
  }

  datatype Validation = Valid | Invalid(reason: string)

  /** `verifyTaskTokenWithExpiry`: expiry is checked first, so an expired token is refused even
      under an empty secret; then the signature, whose exception under an empty secret
      propagates. */
  function VerifyWithExpiry(sha: Crypto.Sha256, t: Task, token: string, secret: string, now: int,
                            maxAgeHours: Option<int>): (r: Result<Validation, string>)
    ensures IsExpired(t.createdAt, now, maxAgeHours) ==> r == Ok(Invalid("Token expired"))
    ensures !IsExpired(t.createdAt, now, maxAgeHours) && secret == "" ==> r == Err(Crypto.EmptyKeyRefused)
    ensures !IsExpired(t.createdAt, now, maxAgeHours) && secret != "" ==>
              r.Ok? && (r.value == Valid <==> token == Token(sha, t, secret)) &&
              (r.value != Valid ==> r.value == Invalid("Invalid signature"))
  {
    if IsExpired(t.createdAt, now, maxAgeHours) then Ok(Invalid("Token expired"))
    else
      match Verify(sha, t, token, secret)
      case Err(e) => Err(e)
      case Ok(valid) => if !valid then Ok(Invalid("Invalid signature")) else Ok(Valid)
  }

  /** An expired task refuses even its own genuine token, whatever the secret. */
  lemma ExpiredRefusesGenuine(sha: Crypto.Sha256, t: Task, secret: string, now: int, maxAgeHours: Option<int>)
    requires IsExpired(t.createdAt, now, maxAgeHours)
    ensures VerifyWithExpiry(sha, t, Token(sha, t, secret), secret, now, maxAgeHours) == Ok(Invalid("Token expired"))
  {
  }
}
