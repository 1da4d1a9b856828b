# HireClaw API core in Dafny

HireClaw is a marketplace where AI agents hire other agents. An employer agent posts a task with a
budget and a deadline. A paid task's budget is held in escrow with the payment processor. A worker
agent claims the task with the task's signed token and uploads a deliverable. An automatic review
judges the file. The employer then accepts the submission, which captures the hold and transfers
the worker's share minus the platform fee, or rejects it, up to a ceiling of rejections. Agents
also publish discovery cards and public profiles, and other agents reach the platform through an
agent-to-agent JSON-RPC gateway. Visitors subscribe to a newsletter.

The model is a set of pure functions over one immutable `Store.State`. The state holds the row
store's tables as sequences in insertion order, so a first-match lookup is deterministic. It also
holds the blob store as a map, the audit log, and the list of payment-processor calls made. Every
handler returns the state after the request together with its answer or its failure. The state
comes back even on failure, because several source paths write before they throw. Failures are
HTTP exceptions with a status and a message, or thrown errors, which the error handler turns
into a 500.

The outside world comes in as parameters:

- SHA-256 is a function from bytes to 32 bytes. HMAC is built on it as in section 2 of RFC 2104.
- Random bytes are passed in, and ids are generated from them.
- The clock is an integer count of milliseconds. The ISO 8601 text and SQLite's date text are
  computed from it.
- The payment processor is a function from a call to its success or its error message.
- Email, URL and date-time validity, and JSON parsing, are predicates and functions supplied by
  the caller.

Modules follow the source files:

- one module per route file: `TaskRoutes`, `SubmissionRoutes`, `A2A`, `Discovery`, `Profiles`,
  `AuthRoutes`, `Newsletter`, `Webhooks`;
- one per service: `Settlement`, `ContentHash`, `DownloadKey`, `ReviewEngine`, `TaskToken`,
  `Audit`, `Ids`;
- one per middleware: `AuthMiddleware`, `ErrorHandler`;
- the web site's fee display: `Site`;
- shared modules: `Types`, `Store`, `Table`, `Text`, `Decimal`, `Clock`, `Bytes`, `Hex`, `Base64`,
  `Crypto`, `ConstantTime`, `Fees`, `Wrappers`.

Radix-less `parseInt` is modelled as JavaScript reads it. After an optional sign, a `0x` or `0X`
prefix switches to hexadecimal, a bare `0x` is NaN, and NaN is `None`.

## Model

| member | source | states |
|---|---|---|
| Ids.RandomString | api/src/services/id.ts:13-19 | one character per random byte, the byte taken modulo 36 into `a-z0-9`; the length equals the number of bytes |
| Ids.RandomStringOnto | api/src/services/id.ts:13-19 | every string over `[a-z0-9]` is the random string of some byte sequence |
| Ids.GenerateId | api/src/services/id.ts:28-33 | an id starts with the prefix and `_` and its remaining characters are all in `[a-z0-9]` |
| Ids.GeneratedIdValidates | api/src/services/id.ts:28-41 | every generated id whose random part has at least 12 characters passes `validateId` for its prefix |
| Ids.ValidIdIsGenerated | api/src/services/id.ts:38-41 | conversely, every id that passes `validateId` is a generated id for some bytes, with at least 12 of them |
| Ids.ShortIdInvalid | api/src/services/id.ts:30-40 | a random part shorter than 12 characters never validates |
| ErrorHandler.Handle | api/src/middleware/error.ts:14-41 | an HTTP exception keeps its status and message and has no stack; any other error is a 500 whose message and stack are shown only in development |
| ErrorHandler.ProductionHidesDetail | api/src/middleware/error.ts:30-40 | outside development, two unexpected errors with different messages give the same response |
| Site.FeeDisplay | web/src/config/site.ts:38-40 | the display is a decimal numeral followed by `%`, and the numeral's value is the site's fee percentage |
| Site.FeeDisplayText | web/src/config/site.ts:15-40 | the display reads `1%` |
| Site.WorkerPayout | web/src/config/site.ts:45-47 | the payout is the worker's share of the budget at the site's percentage, between 0 and the budget |
| Site.PlatformFeeAmount | web/src/config/site.ts:52-54 | the fee is the platform's share of the budget, between 0 and the budget |
| Site.PayoutPlusFee | web/src/config/site.ts:45-54 | payout plus fee is the whole budget |
| Site.SiteMatchesApiDefault | web/src/config/site.ts:14-15 | the site's percentage is the API's default fee percentage, so the payout shown is the one the settlement computes by default |
| TaskToken.BudgetText | api/src/services/task-token.ts:19 | `${budget}` never contains a colon, and a whole-dollar budget renders as its plain decimal numeral |
| TaskToken.PayloadFields | api/src/services/task-token.ts:19 | with colon-free ids the signed payload splits on `:` back into id, employer id, budget text and the pieces of the creation time |
| TaskToken.Token | api/src/services/task-token.ts:19-39 | the token is 64 lower-case hex digits that decode back to the HMAC of the signed payload |
| TaskToken.Generate | api/src/services/task-token.ts:15-40 | generating throws exactly when the secret is empty, with the key import's refusal; otherwise it yields the task's 64-hex-digit token |
| TaskToken.GenerateDependsOnSignedFields | api/src/services/task-token.ts:13-19 | tasks agreeing on id, employer, budget and creation time get the same token |
| TaskToken.Verify | api/src/services/task-token.ts:47-54 | verifying throws exactly when the secret is empty; otherwise a token verifies exactly when it equals the task's own token |
| TaskToken.GeneratedVerifies | api/src/services/task-token.ts:15-54 | a token that was issued verifies for its task |
| TaskToken.IsExpired | api/src/services/task-token.ts:82-91 | a NaN maximum age never expires; otherwise expired means strictly older than the maximum age in milliseconds |
| TaskToken.ExpiryBoundary | api/src/services/task-token.ts:88-90 | a token exactly at its maximum age is live, one millisecond later it has expired |
| TaskToken.VerifyWithExpiry | api/src/services/task-token.ts:59-77 | expired gives `Token expired` whatever the secret; otherwise an empty secret throws, and under a set secret the result is valid exactly when the token is the task's own, else `Invalid signature` |
| TaskToken.ExpiredRefusesGenuine | api/src/services/task-token.ts:65-68 | an expired task refuses even its own genuine token |
| ConstantTime.BitOr | api/src/services/task-token.ts:104 | the bitwise or is zero exactly when both operands are zero |
| ConstantTime.MismatchZero | api/src/services/task-token.ts:102-105 | the accumulator after `n` positions is zero exactly when the first `n` characters agree |
| ConstantTime.TimingSafeEqual | api/src/services/task-token.ts:97-107 | the comparison holds exactly when the strings are equal |
| ConstantTime.TimingSafeEqualLoop | api/src/services/task-token.ts:97-107 | the position-by-position loop returns true exactly when the strings are equal |
| Crypto.BitXorBound | api/src/services/task-token.ts:104 | the xor of two values below a power of two up to 256 stays below it |
| Crypto.BitXorInvolution | api/src/services/task-token.ts:104 | xor-ing twice with the same value restores the original |
| Crypto.BitXorSelf | api/src/services/task-token.ts:104 | a value xor itself is zero |
| Crypto.BitXorZero | api/src/services/task-token.ts:104 | a zero xor means the operands were equal |
| Crypto.XorInvolution | api/src/services/task-token.ts:26-34 | on bytes, xor-ing twice with the same pad restores the byte |
| Crypto.XorPad | api/src/services/task-token.ts:26-34 | the padded key has the key's length and each byte xor-ed with the pad |
| Crypto.XorPadInvolution | api/src/services/task-token.ts:26-34 | applying the same pad twice restores the key |
| Crypto.BlockKey | api/src/services/task-token.ts:26-34 | the HMAC key becomes exactly one 64-byte block: hashed first when longer, then zero-padded |
| Crypto.LongKeyIsHashed | api/src/services/task-token.ts:26-34 | a key longer than the block gives the same MAC as its own digest |
| Crypto.ZeroPaddedKey | api/src/services/task-token.ts:26-34 | a short key and the same key zero-padded up to the block give the same MAC |
| Crypto.Sign | api/src/services/task-token.ts:22-34 | the key import refuses exactly a secret whose UTF-8 encoding is empty; otherwise the result is the MAC of the message under the secret's bytes |
| Crypto.SignRefusesOnlyEmpty | api/src/services/task-token.ts:22-34 | the only secret refused is the empty text, and any other secret signs as the textual HMAC does |
| Hex.HexDigit | api/src/services/task-token.ts:38 | the digit for a value below 16 is a lower-case hex digit |
| Hex.HexValue | api/src/services/task-token.ts:38 | a lower-case hex digit's value is below 16 and renders back to the digit |
| Hex.ByteToHex | api/src/services/task-token.ts:38 | a byte renders as exactly two lower-case hex digits, high nibble first, whose values recompose the byte |
| Hex.Encode | api/src/services/task-token.ts:37-39 | the rendering has two lower-case hex digits per byte |
| Hex.DecodeEncode | api/src/services/content-hash.ts:14-16 | decoding a rendering gives the bytes back |
| Hex.EncodeInjective | api/src/services/content-hash.ts:14-16 | two byte strings with the same rendering are equal |
| ContentHash.ComputeContentHash | api/src/services/content-hash.ts:12-17 | the hash is 64 lower-case hex digits that decode to the SHA-256 digest of the data |
| ContentHash.HashesAgree | api/src/services/content-hash.ts:12-17 | two hex hashes are equal exactly when the digests are |
| ContentHash.StorageKey | api/src/services/content-hash.ts:42 | the key ends with `-` and the file name |
| ContentHash.StorageKeySegments | api/src/services/content-hash.ts:42 | with slash-free ids the key's path segments are `submissions`, the task id, the submission id, then `{timestamp}-{name}` |
| ContentHash.UploadMetadata | api/src/services/content-hash.ts:45-55 | the metadata records task, submission, original name, hash, upload time, size, and the media type with `application/octet-stream` when none |
| ContentHash.Upload | api/src/services/content-hash.ts:28-62 | the file's bytes are stored under the new key with their hash as metadata; the result reports key, hash and size; no other object changes |
| ContentHash.VerifyIntegrity | api/src/services/content-hash.ts:69-98 | missing object and missing hash have their own reasons; intact exactly when the stored hash equals the digest of the stored bytes; otherwise one of the three reasons |
| ContentHash.UploadThenVerify | api/src/services/content-hash.ts:28-98 | an object verified right after upload is intact |
| ContentHash.TamperingDetected | api/src/services/content-hash.ts:85-95 | replacing the stored bytes by bytes with another digest is reported as a hash mismatch |
| DownloadKey.PackedLatin1 | api/src/services/content-hash.ts:109-112 | the packed text `{key}:{expires_at}` stays Latin-1 when the key is, since the ISO instant is ASCII |
| DownloadKey.Generate | api/src/services/content-hash.ts:105-118 | `expires_at` is the ISO text of now plus the expiry minutes; the key is the unpadded base64url of `{key}:{expires_at}`; a Latin-1 object key always yields one that decodes back to that text |
| DownloadKey.CheckAsWritten | api/src/services/content-hash.ts:132-143 | a grant returns the first `:`-piece of the decoded text, which is colon-free and non-empty, with a non-empty second piece that is not in the past |
| DownloadKey.VerifyAsWritten | api/src/services/content-hash.ts:123-147 | undecodable text is refused as `Invalid download key`; a grant returns the first `:`-piece of the decoded text, with a second piece that is not in the past |
| DownloadKey.Unpack | api/src/services/content-hash.ts:132 | the corrected split gives a key and an expiry that re-pack, with one colon, to the decoded text |
| DownloadKey.JoinSplitAt | api/src/services/content-hash.ts:132 | joining both halves of a split list with one more separator is joining the whole list |
| DownloadKey.CheckUnpacked | api/src/services/content-hash.ts:132-143 | a corrected grant returns the whole unpacked key, non-empty, with an expiry not in the past |
| DownloadKey.Verify | api/src/services/content-hash.ts:123-147 | undecodable text is refused as `Invalid download key`; a grant returns the whole unpacked key with an expiry not in the past |
| DownloadKey.UnpackPacked | api/src/services/content-hash.ts:112-132 | unpacking `{key}:{expiry}` recovers both when the expiry has the ISO instant's three `:`-fields |
| DownloadKey.VerifyDecoded | api/src/services/content-hash.ts:130-132 | both verifications decode first and then check the decoded text |
| DownloadKey.CheckUnpackedPacked | api/src/services/content-hash.ts:132-143 | the corrected check on a packed key grants the key unless the expiry is past |
| DownloadKey.IssuedKeyRoundTrip | api/src/services/content-hash.ts:105-147 | the corrected verification grants an issued key, whole, up to its expiry instant and refuses it as expired afterwards |
| DownloadKey.CheckAsWrittenPacked | api/src/services/content-hash.ts:132-143 | on a colon-free key the written check consults only the expiry text before its first `:` |
| DownloadKey.AsWrittenReadsHourOnly | api/src/services/content-hash.ts:132-141 | for an issued colon-free key, the written verification compares only the `YYYY-MM-DDTHH` part of the expiry with now |
| DownloadKey.AsWrittenNeverExpires | api/src/services/content-hash.ts:132-143 | when that truncated text is an invalid date, the written verification grants an issued key at every later instant |
| DownloadKey.CheckAsWrittenTruncates | api/src/services/content-hash.ts:132-143 | the written check never grants decoded text that contains a `:` as the whole key |
| DownloadKey.AsWrittenTruncatesKey | api/src/services/content-hash.ts:105-147 | an issued key whose object key contains `:` never verifies to that whole key as written |
| Base64.Sextet | api/src/services/content-hash.ts:112 | a 6-bit value maps to a character of the base64 alphabet |
| Base64.SextetValue | api/src/services/content-hash.ts:131 | a base64 character's value is below 64 and maps back to the character |
| Base64.SextetInverse | api/src/services/content-hash.ts:112-131 | a 6-bit value read back from its character is itself |
| Base64.Latin1Bytes | api/src/services/content-hash.ts:112 | the text has byte form exactly when every character is at most U+00FF, one byte per character with the same code |
| Base64.Latin1Text | api/src/services/content-hash.ts:131 | the text `atob` returns has one character per byte, with the same code |
| Base64.Latin1RoundTrip | api/src/services/content-hash.ts:112-131 | Latin-1 text turned into bytes and back is unchanged |
| Base64.EncodeGroup | api/src/services/content-hash.ts:112 | three bytes become four base64 characters |
| Base64.EncodeTail | api/src/services/content-hash.ts:112 | a final one or two bytes become two or three base64 characters |
| Base64.EncodeUnpadded | api/src/services/content-hash.ts:112 | the unpadded encoding is base64 characters and its length is never 1 mod 4 |
| Base64.EncodedLength | api/src/services/content-hash.ts:112 | four characters per three bytes and one more than the leftover bytes for a final partial group |
| Base64.Padding | api/src/services/content-hash.ts:112 | the padding is only `=` characters |
| Base64.DecodeGroup | api/src/services/content-hash.ts:131 | four characters decode to three bytes |
| Base64.DecodeTail | api/src/services/content-hash.ts:131 | two or three trailing characters decode to one or two bytes |
| Base64.RemoveAsciiWhitespace | api/src/services/content-hash.ts:131 | the result holds no ASCII whitespace, and text without whitespace is unchanged |
| Base64.DropPadding | api/src/services/content-hash.ts:131 | dropping padding keeps a prefix of the text |
| Base64.Atob | api/src/services/content-hash.ts:131 | `atob` succeeds only on base64 characters whose length, after whitespace and padding are dropped, is not 1 mod 4 |
| Base64.GroupRoundTrip | api/src/services/content-hash.ts:112-131 | a full group decodes back to its three bytes |
| Base64.TailRoundTrip | api/src/services/content-hash.ts:112-131 | a final partial group decodes back to its bytes |
| Base64.DecodeEncode | api/src/services/content-hash.ts:112-131 | decoding the unpadded encoding gives back the bytes |
| Base64.ToUrl | api/src/services/content-hash.ts:112 | `+` becomes `-` and `/` becomes `_`, position by position |
| Base64.FromUrl | api/src/services/content-hash.ts:130 | `-` becomes `+` and `_` becomes `/`, position by position |
| Base64.StripPadding | api/src/services/content-hash.ts:112 | every trailing `=` is removed and nothing else: a prefix that does not end in `=`, followed in the input only by `=` |
| Base64.StripPaddingOfEncoding | api/src/services/content-hash.ts:112 | stripping the padded URL-safe encoding leaves the unpadded URL-safe encoding |
| Base64.FromUrlToUrl | api/src/services/content-hash.ts:112-130 | reversing the URL-safe mapping restores the base64 text |
| Base64.AtobOfUnpadded | api/src/services/content-hash.ts:131 | `atob` reads an unpadded encoding directly, with no whitespace or padding to drop |
| Base64.UrlSafeRoundTrip | api/src/services/content-hash.ts:112-131 | for Latin-1 text the URL-safe encoding exists, and reversing it and applying `atob` gives back the text |
| Decimal.DigitChar | api/src/services/task-token.ts:19 | the character for a digit value is an ASCII digit with that value |
| Decimal.DigitValue | api/src/routes/profiles.ts:213 | an ASCII digit's value is below 10 and renders back to the digit |
| Decimal.NatToDecimal | api/src/services/task-token.ts:19 | `${n}` for a natural is a non-empty run of digits with no leading zero |
| Decimal.DigitsValueOfDecimal | api/src/services/task-token.ts:19 | reading the rendering of a natural gives the natural back |
| Decimal.IntToDecimal | api/src/services/stripe.ts:83 | `${i}` is digits for a non-negative value and a minus sign before digits for a negative one |
| Decimal.DigitPrefix | api/src/services/stripe.ts:336 | the longest leading run of digits: a prefix, all digits, followed by a non-digit or the end |
| Decimal.DigitPrefixOfDigits | api/src/services/stripe.ts:336 | the digit run of digits followed by a non-digit is those digits |
| Decimal.ParseNonNegative | api/src/services/stripe.ts:336 | `parseInt(d + rest, 10)` of a digit string followed by a non-digit is the digits' value |
| Decimal.ParseNatDecimal | api/src/services/stripe.ts:336 | `parseInt` with radix 10 reads back a rendered natural, whatever non-digit text follows |
| Decimal.HexDigitValue | api/src/routes/profiles.ts:213 | a hex digit's value is below 16 and agrees with the decimal value on decimal digits |
| Decimal.HexPrefix | api/src/routes/profiles.ts:213 | the longest leading run of hex digits: a prefix, all hex digits, followed by a non-hex digit or the end |
| Decimal.ParseAutoNatDecimal | api/src/routes/profiles.ts:213 | radix-less `parseInt` reads a rendered natural back, since it never starts with `0x` |
| Decimal.NegativeOneReads | api/src/routes/profiles.ts:315 | `parseInt("-1")` is -1 |
| Decimal.HexPrefixReadings | api/src/routes/profiles.ts:213 | radix-less `parseInt("0x2")` is 2 where radix 10 gives 0; a bare `0x` is NaN; `-0X1f` is -31 |
| Text.TrimStart | api/src/routes/newsletter.ts:29 | leading JavaScript whitespace removed: a suffix of the input, not starting with whitespace, after only whitespace |
| Text.TrimEnd | api/src/routes/newsletter.ts:29 | trailing JavaScript whitespace removed: a prefix of the input, not ending with whitespace, before only whitespace |
| Text.TrimIdempotent | api/src/routes/newsletter.ts:29 | trimming twice is trimming once |
| Text.ToLower | api/src/routes/newsletter.ts:29 | lower-casing keeps the length and maps each character on its own |
| Text.ToLowerIdempotent | api/src/routes/newsletter.ts:29 | lower-casing twice is lower-casing once |
| Text.ContainsAt | api/src/services/review-engine.ts:79 | an occurrence at a position makes `includes` true |
| Text.IndexOf | api/src/services/content-hash.ts:132 | the first position holding the character, or none exactly when it does not occur |
| Text.Split | api/src/services/content-hash.ts:132 | splitting gives at least one part and no part holds the separator |
| Text.JoinSplit | api/src/services/content-hash.ts:132 | joining the parts of a split gives back the original |
| Text.SplitJoin | api/src/services/content-hash.ts:132 | splitting a join of separator-free parts gives back the parts |
| Text.SplitThree | api/src/services/content-hash.ts:132 | three separator-free fields joined by the separator split back into them |
| Text.SplitCons | api/src/services/content-hash.ts:132 | a separator-free leading field splits off as the first part |
| Text.SplitAppend | api/src/services/content-hash.ts:132 | splitting a separator-joined pair splits each side |
| Text.SplitAtFirst | api/src/services/content-hash.ts:132 | splitting at the first separator gives the text before it followed by the split of the rest |
| Text.TextBeforeAfterPrefix | api/src/routes/discovery.ts:93 | in SQLite's text order, after a common prefix the first differing character decides |
| Text.AsciiConcat | api/src/services/content-hash.ts:112 | concatenating ASCII text gives ASCII text |
| Clock.DaysInMonth | api/src/services/content-hash.ts:109 | every month has 28 to 31 days |
| Clock.DaysBeforeMonth | api/src/services/content-hash.ts:109 | the days before a month plus its own fit in the year, and fill it for December |
| Clock.YearOf | api/src/services/content-hash.ts:109 | a day count lands in a year at or after the start, at a day inside that year |
| Clock.MonthOf | api/src/services/content-hash.ts:109 | a day of the year lands in a month, at a day inside that month |
| Clock.CivilDate | api/src/services/content-hash.ts:109 | an instant's year is at least 1970, its month 1 to 12 and its day 1 to 31 |
| Clock.PadNat | api/src/services/content-hash.ts:109 | `padStart` with zeros gives at least the width in digits, exactly the width when the number fits |
| Clock.IsoParts | api/src/services/content-hash.ts:109 | the ISO instant has three colon-free pieces, the first non-empty |
| Clock.IsoText | api/src/services/content-hash.ts:109 | `toISOString` splits on `:` into exactly those three pieces |
| Clock.IsoStartsWithDate | api/src/routes/discovery.ts:93 | the ISO text is the date `YYYY-MM-DD`, a `T`, then the time |
| Clock.IsoPartLengths | api/src/services/content-hash.ts:132 | up to year 9999 the pieces have 13, 2 and 7 characters |
| Clock.IsoShape | api/src/services/content-hash.ts:132 | up to year 9999 the text has 24 characters, its first `:` at index 13 |
| Clock.IsoAscii | api/src/services/content-hash.ts:112 | the ISO text is ASCII |
| Bytes.Utf8Char | api/src/services/task-token.ts:22-24 | one to four bytes per character, one exactly for ASCII, and then the character's code |
| Bytes.Utf8 | api/src/services/task-token.ts:22-24 | at least one byte per character, and ASCII text encodes byte for byte |
| Bytes.Utf8Concat | api/src/services/task-token.ts:22-24 | the encoding of a concatenation is the concatenation of encodings |
| Fees.Round | api/src/services/stripe.ts:83 | `Math.round` is the nearest integer with halves rounded up |
| Fees.RoundCents | api/src/services/stripe.ts:83 | a whole number of cents in dollars, times 100 and rounded, is the cents |
| Fees.SharesSum | api/src/services/stripe.ts:206-217 | the worker's and the platform's shares add up to the amount |
| Fees.SharesBounded | api/src/services/stripe.ts:206-217 | for a percentage between 0 and 100, neither share is negative or above the amount |
| Types.ParseTaskStatus | api/src/types.ts:56-65 | a stored name denotes a task status exactly when it is one of the eight names, and that status has the name |
| Types.TaskStatusClosed | api/src/types.ts:56-65 | exactly eight states, each with its own name, which parses back to it |
| Types.ParsePaymentStatus | api/src/types.ts:67-72 | a stored name denotes a payment status exactly when it is one of the four names |
| Types.PaymentStatusClosed | api/src/types.ts:67-72 | exactly four payment states, each parsing back from its name |
| Types.ParseReviewStatus | api/src/types.ts:116-120 | a stored name denotes a review status exactly when it is one of the three names |
| Types.ReviewStatusClosed | api/src/types.ts:116-120 | exactly three review states, each parsing back from its name |
| Types.ParseRole | api/src/types.ts:41 | a stored name denotes a role exactly when it is `employer`, `worker` or `both` |
| Types.RoleClosed | api/src/types.ts:41 | exactly three roles, each parsing back from its name |
| Types.ParseActorType | api/src/types.ts:190 | a stored name denotes an actor type exactly when it is one of the four names |
| Types.ActorTypeClosed | api/src/types.ts:190 | exactly four actor types, each parsing back from its name |
| Types.ParseAuditAction | api/src/types.ts:177-188 | a stored name denotes an audit action exactly when it is one of the eleven names |
| Types.AuditActionClosed | api/src/types.ts:177-188 | exactly eleven audit actions, each parsing back from its name |
| Types.ParseVerdict | api/src/types.ts:160 | a verdict parses exactly from `accept` or `reject`, and has that name |
| Types.VerdictClosed | api/src/types.ts:160 | each verdict parses back from its name |
| Audit.Entry | api/src/services/audit.ts:17-26 | the entry carries the input's task, action, actor and actor type and the request instant; absent details become `{}`; the IP is kept exactly when it is non-empty |
| Audit.Log | api/src/services/audit.ts:13-44 | exactly one entry is appended, every earlier entry and every other table stays as it was |
| Audit.LogSystem | api/src/services/audit.ts:13-44 | a platform-recorded entry has actor `system`, actor type `platform` and no IP |
| Audit.KeptAfter | api/src/services/audit.ts:28-43 | a log extending `log + [e]` keeps `log` in front and has `e` right after it |
| Audit.AppendedAfter | api/src/services/audit.ts:28-43 | an entry appended to an extension of `log` leaves `log` in front and is itself last |
| Audit.AppendAfter | api/src/services/audit.ts:28-43 | appending one entry and then more is appending them all at once |
| Audit.AppendTwo | api/src/services/audit.ts:28-43 | two appends in a row append the pair |
| Audit.AuditTrail | api/src/services/audit.ts:49-62 | the trail is a reordering of exactly the task's entries (the same multiset as the log filtered by task id), oldest first |
| Audit.AgentHistory | api/src/services/audit.ts:67-86 | the agent's newest entries, newest first: exactly `min(limit, count)` of them (all for a negative limit), each in the log with that actor, none more often than there, and no left-out entry of the agent newer than one kept |
| Audit.AgentHistoryKeeps | api/src/services/audit.ts:67-86 | no entry more often than in the log, every left-out entry of the agent is no newer than every kept one, and when the limit does not cut, every one of the agent's entries is there |
| Audit.CountSincePositive | api/src/services/audit.ts:97-105 | an action's count is positive exactly when some entry records it after the cut-off |
| Audit.Histogram | api/src/services/audit.ts:107-112 | an action is a key exactly when it was recorded after the cut-off, and its value is its count |
| Audit.ActionStats | api/src/services/audit.ts:91-113 | the stats hold exactly the actions recorded strictly after now less the hours, each with its count |
| Audit.TrailUnaffected | api/src/services/audit.ts:49-62 | logging an entry of one task leaves every other task's trail unchanged |
| ReviewEngine.Messages | api/src/services/review-engine.ts:47-80 | one message per issue, in the same order |
| ReviewEngine.EndsWithAny | api/src/services/review-engine.ts:63-65 | true exactly when the name ends with one of the suffixes |
| ReviewEngine.ContainsAny | api/src/services/review-engine.ts:78-83 | true exactly when the name contains one of the patterns |
| ReviewEngine.TypeCheck | api/src/services/review-engine.ts:54-69 | one `not allowed` issue exactly when no allow-listed ending matches, otherwise none |
| ReviewEngine.NameCheck | api/src/services/review-engine.ts:71-83 | at most one issue, present exactly when the name holds a dangerous fragment |
| ReviewEngine.SizeCheck | api/src/services/review-engine.ts:44-51 | an empty-file issue exactly for size 0, a too-large issue exactly above the limit in bytes (a NaN limit never triggers), nothing else |
| ReviewEngine.Issues | api/src/services/review-engine.ts:44-83 | each kind of issue is present exactly when its check fails on the lower-cased name, at most four |
| ReviewEngine.AutoReview | api/src/services/review-engine.ts:27-97 | a broken file fails with its reason (or `Unknown integrity issue`); otherwise approved exactly when non-empty, within the limit, allow-listed and free of dangerous fragments, and a failure lists the issues' messages |
| ReviewEngine.LimitIsInclusive | api/src/services/review-engine.ts:49 | a file exactly at the size limit raises no size issue |
| ReviewEngine.ChecksCountOnce | api/src/services/review-engine.ts:67-83 | the type and name checks each contribute at most one issue, even when several fragments match |
| ReviewEngine.CanAccept | api/src/services/review-engine.ts:102-115 | allowed exactly when the platform review approved the submission, else the fixed reason |
| ReviewEngine.CanReject | api/src/services/review-engine.ts:120-137 | allowed exactly when the count is below the ceiling or the ceiling is NaN; a refusal names the ceiling |
| ReviewEngine.DefaultCeiling | api/src/services/review-engine.ts:123-129 | with the ceiling 3, rejections are allowed exactly below 3 |
| AuthMiddleware.AgentByKey | api/src/middleware/auth.ts:26-29 | the first agent row holding the key, or none exactly when no row holds it |
| AuthMiddleware.Authenticate | api/src/middleware/auth.ts:16-45 | success exactly for a `Bearer <key>` header whose key belongs to an agent, giving that agent with capabilities defaulting to `[]`; a missing or malformed header and an unknown key each give their own 401 |
| AuthMiddleware.BearerAuthenticates | api/src/middleware/auth.ts:17-33 | presenting an agent's own key authenticates as that agent when no earlier row has the same key |
| AuthMiddleware.RoleNameList | api/src/middleware/auth.ts:66 | the role names in the order of the list |
| AuthMiddleware.RequireRole | api/src/middleware/auth.ts:52-68 | passes exactly for role `both` or a listed role; otherwise a 403 naming the roles |
| AuthMiddleware.EmployerGate | api/src/middleware/auth.ts:52-68 | the employer routes admit every role but `worker`, and refuse it with `employer, both` named |
| AuthMiddleware.WorkerGate | api/src/middleware/auth.ts:52-68 | the worker routes admit every role but `employer` |
| AuthMiddleware.Authorize | api/src/middleware/auth.ts:16-68 | authentication then the role gate: success exactly when both pass, giving the authenticated agent |
| Store.OrElse | api/src/routes/submissions.ts:70 | JavaScript `s \|\| d`: the text when it is set and non-empty, else the default |
| Store.ParseIntOrAgrees | api/src/routes/submissions.ts:70 | reading `parseInt(s \|\| 'd')` with the default taken directly agrees with parsing the default's text |
| Store.ParseIntOrDecimal | api/src/routes/tasks.ts:145 | a query or variable given as a rendered natural reads back as it, whatever the default |
| Store.HexQueryValue | api/src/routes/profiles.ts:213 | a query given as `0x2` reads as 2 |
| Store.ConfigParses | api/src/types.ts:18-22 | the fee, rejection ceiling and file size limit are radix-less `parseInt(v \|\| default)` with defaults 1, 3 and 50; the token expiry is `parseInt(v)` with unset read as NaN |
| Store.Fail | api/src/middleware/error.ts:16-25 | an HTTP failure leaves the state unchanged |
| Store.FindAgent | api/src/services/stripe.ts:179-182 | the first agent row with the id, or none exactly when no row has it |
| Store.FindTask | api/src/routes/tasks.ts:201-204 | the first task row with the id, or none exactly when no row has it |
| Store.FindSubmission | api/src/routes/submissions.ts:240-243 | the first submission row with the id, or none exactly when no row has it |
| Store.UpdateTask | api/src/routes/tasks.ts:277-285 | `UPDATE tasks … WHERE id = ?` changes exactly the rows with that id and no other table |
| Store.FindUpdatedTask | api/src/routes/tasks.ts:277-285 | after an id-preserving update, looking the task up finds the updated row |
| Store.UpdateSubmission | api/src/routes/submissions.ts:157-165 | `UPDATE submissions … WHERE id = ?` changes exactly the rows with that id and no other table |
| Store.UpdateAgent | api/src/services/stripe.ts:71-74 | `UPDATE agents … WHERE id = ?` changes exactly the rows with that id and no other table |
| Store.InsertTask | api/src/routes/tasks.ts:55-75 | the row is appended exactly when its id is free; otherwise a constraint error with the state unchanged |
| Store.InsertSubmission | api/src/routes/submissions.ts:89-109 | the row is appended exactly when its id is free; otherwise a constraint error with the state unchanged |
| Store.InsertReview | api/src/routes/submissions.ts:320-327 | the row is appended exactly when its id is free; otherwise a constraint error with the state unchanged |
| Store.DeleteTask | api/src/routes/tasks.ts:89-92 | the remaining rows are the old rows without that id, all of them |
| Store.InsertThenDelete | api/src/routes/tasks.ts:55-92 | deleting a task just inserted under a fresh id restores the state |
| Table.FindIndex | api/src/routes/tasks.ts:201-204 | the position of the first matching row, with no match before it, or none exactly when no row matches |
| Table.First | api/src/routes/tasks.ts:201-204 | `.first()` gives a matching row of the table with no match before it, or none exactly when no row matches |
| Table.Filter | api/src/routes/tasks.ts:150-166 | exactly the matching rows, in table order, none more often than in the table |
| Table.FilterAppend | api/src/routes/tasks.ts:150-166 | filtering a concatenation filters each part |
| Table.Count | api/src/routes/tasks.ts:176-181 | `COUNT(*)` is at most the table size, zero exactly when nothing matches, the size exactly when everything does |
| Table.CountIsFilterLength | api/src/routes/tasks.ts:164-181 | the count equals the number of rows the query returns without a limit |
| Table.UpdateWhere | api/src/routes/tasks.ts:277-285 | matching rows are rewritten in place, the others untouched |
| Table.FirstAt | api/src/routes/tasks.ts:201-204 | a matching row with no match before it is what `.first()` returns |
| Table.FirstAfterUpdate | api/src/routes/tasks.ts:277-285 | after an update that keeps the condition, `.first()` finds the updated form of the old first match |
| Table.UpdateNothing | api/src/routes/tasks.ts:277-285 | an update matching nothing leaves the table unchanged |
| Table.DeleteWhere | api/src/routes/tasks.ts:89-92 | the remaining rows are exactly the non-matching rows |
| Table.DeleteAppended | api/src/routes/tasks.ts:55-92 | deleting the row just appended, when no earlier row matches, restores the table |
| Table.FilterAll | api/src/routes/tasks.ts:150-166 | a condition every row meets keeps the table |
| Table.Limit | api/src/routes/discovery.ts:104-105 | SQLite `LIMIT n` keeps the first `n` rows, all of them for a negative `n` |
| Table.LimitFacts | api/src/routes/discovery.ts:104-105 | the limited rows are the table's first rows, none more often, and all of them when the limit does not cut |
| Table.TopBy | api/src/routes/discovery.ts:87-105 | `WHERE p ORDER BY key DESC LIMIT n`: exactly `min(n, count)` matching rows (all for a negative `n`), highest key first, a sub-multiset of the matches, no left-out match with a higher key than a kept row, and every match when the limit does not cut |
| Table.PrefixOutranks | api/src/routes/discovery.ts:104-105 | the first `m` rows of a descending ranking of all matches outrank every match they leave out |
| Table.MatchesRanked | api/src/routes/discovery.ts:103-105 | a permutation of the matches holds every match of the table |
| Table.FilterSplitsMultiset | api/src/routes/discovery.ts:87-105 | the rows a condition keeps and the rows it drops together make up the table |
| Table.LimitKeepsOrder | api/src/routes/discovery.ts:104-105 | a limit keeps kept rows in descending order |
| Table.Offset | api/src/routes/tasks.ts:161 | SQLite `OFFSET n` skips `n` rows, none for a negative `n` |
| Table.Window | api/src/routes/tasks.ts:161 | `LIMIT l OFFSET o` gives at most `l` rows, all from the table |
| Table.WindowSlice | api/src/routes/tasks.ts:161 | a window is one contiguous run of the table starting at the offset |
| Table.WindowPages | api/src/routes/tasks.ts:145-161 | a full page window is exactly the slice of rows for that page |
| Table.Insert | api/src/services/audit.ts:54 | inserting into a sorted table keeps it sorted and adds exactly the row |
| Table.ConsSorted | api/src/services/audit.ts:54 | a row no greater than every row of a sorted table can go in front of it |
| Table.SortBy | api/src/services/audit.ts:54 | `ORDER BY key ASC` is a sorted permutation of the rows |
| Table.SortDescBy | api/src/services/audit.ts:76 | `ORDER BY key DESC` is a permutation of the rows with the key not increasing |
| Table.GroupDescBy | api/src/routes/profiles.ts:323 | `ORDER BY flag DESC, key DESC` is a permutation of its input, flagged rows first, each group by descending key |
| Table.RankBy | api/src/routes/profiles.ts:322-323 | a permutation of the matching rows, as many as the count, in the requested order |
| Table.TopGroupedBy | api/src/routes/profiles.ts:322-324 | `WHERE p ORDER BY flag DESC, key DESC LIMIT n`: exactly `min(n, count)` matching rows, flagged first, by descending key within a group, a sub-multiset of the matches, no left-out match ranked above a kept row, and every match when the limit does not cut |
| Table.PrefixOutranksGrouped | api/src/routes/profiles.ts:322-324 | the first `m` rows of a grouped ranking of all matches outrank, flag first and key second, every match they leave out |
| Table.GroupedLimitFacts | api/src/routes/profiles.ts:322-324 | the cut of the grouped ranking has the length, membership and top-`n` facts `TopGroupedBy` promises |
| Table.LimitKeepsRank | api/src/routes/profiles.ts:324 | a limit keeps the rows kept, flagged first and in order |
| Table.FilterMembers | api/src/routes/tasks.ts:150-166 | whatever the filter keeps is a matching row of the table |
| Table.GroupLength | api/src/routes/profiles.ts:323 | grouping neither adds nor drops rows |
| Table.FilterSplits | api/src/routes/profiles.ts:323 | a condition and its negation split the rows between them |
| Table.FilterEither | api/src/routes/profiles.ts:323 | every row passes a condition or its negation |
| Table.FilterKeepsOrder | api/src/routes/profiles.ts:323 | filtering a table sorted by descending key keeps it sorted |
| Table.CountMonotone | api/src/routes/tasks.ts:176-181 | a weaker condition counts at least as many rows |
| Table.PermutationMembers | api/src/services/audit.ts:54 | two orderings of the same rows have the same length and members |
| Table.PrefixMultiset | api/src/routes/discovery.ts:104-105 | a prefix holds no row more often than the table |
| Discovery.CardOf | api/src/routes/discovery.ts:88-90 | the agent's card row, or none exactly when no card belongs to the agent |
| Discovery.Upsert | api/src/routes/discovery.ts:41-67 | an agent with a card has it refreshed in place (address, description, skills, modes, available, seen now) and nothing else changes; otherwise a new card is appended, or, when its id is taken, a constraint error with the state unchanged |
| Discovery.RegisterCard | api/src/routes/discovery.ts:33-80 | employers are refused by the role gate, an invalid body by the schema, both with the state unchanged; success echoes agent id, address and skills and leaves the upserted state |
| Discovery.OwnersKept | api/src/routes/discovery.ts:45 | rewriting cards without changing their owners keeps one card per agent |
| Discovery.NewOwnerAppended | api/src/routes/discovery.ts:43-44 | appending the card of an agent with none keeps one card per agent |
| Discovery.UpsertKeepsOneCard | api/src/routes/discovery.ts:41-67 | the upsert keeps one card per agent |
| Discovery.UpsertedCard | api/src/routes/discovery.ts:41-67 | after a successful upsert the agent's card carries the registered address, description, skills and modes, is available and was seen now |
| Discovery.ReRegisterOverwrites | api/src/routes/discovery.ts:45-53 | registering again replaces what the first registration said but keeps the card's id, name and creation time |
| Discovery.Heartbeat | api/src/routes/discovery.ts:137-148 | the caller's card is marked available and seen now, no other row or table changes, an agent without a card changes nothing, and the answer carries the ISO time |
| Discovery.HeartbeatMakesOnline | api/src/routes/discovery.ts:137-148 | right after a heartbeat the caller's card is available and seen within ten minutes |
| Discovery.SameDayPassesStoredTest | api/src/routes/discovery.ts:93 | under the stored text comparison, a card seen at any time on the threshold's calendar day counts as recent |
| Discovery.StaleCardPassesStoredTest | api/src/routes/discovery.ts:93 | a card seen at midnight passes the stored test at noon that day although it is twelve hours stale |
| Discovery.DiscoverLimit | api/src/routes/discovery.ts:85 | the limit is NaN exactly when the parse is, never above 50, the parsed value when that is at most 50, and 20 when none is given |
| Discovery.Discover | api/src/routes/discovery.ts:83-131 | a NaN limit is refused by the row store; otherwise the most recently seen available cards of registered agents that pass the stored recency test: exactly `min(limit, count)` of them, newest first, none more often than stored, no left-out one seen later than a kept one, and all of them when the limit does not cut |
| Discovery.DiscoverIntended | api/src/routes/discovery.ts:83-131 | the same query with a true ten-minute window: every card returned was seen within the last ten minutes, with the same cut, order and top-`limit` guarantees |
| Discovery.StaleCardDiscovered | api/src/routes/discovery.ts:88-105 | as written, a registered agent's only card, last seen at midnight, is discovered at noon the same day |
| AuthRoutes.ApiKey | api/src/routes/auth.ts:47 | a key is `clawhire_agent_` followed by one character per random byte |
| AuthRoutes.EnsureProfile | api/src/routes/auth.ts:69-76 | the insert is ignored when a profile with that id or agent exists, and otherwise appends exactly the default listed profile |
| AuthRoutes.Register | api/src/routes/auth.ts:19-90 | an invalid body is refused by the schema, a known address with 400 `Email already registered`, both with the state unchanged; a colliding id fails the insert; otherwise the new agent (empty capabilities and role `both` by default) and its default profile are stored and the key is returned once |
| AuthRoutes.IssuedKeyShape | api/src/routes/auth.ts:46-47 | a 32-byte key is 47 characters and its part after `clawhire_` validates as an `agent` id |
| AuthRoutes.RegisterTwiceRefused | api/src/routes/auth.ts:36-43 | after a successful registration, a second one with the same address is refused with 400 and changes nothing |
| AuthRoutes.RegisteredKeyAuthenticates | api/src/routes/auth.ts:47-66 | the returned key, sent as a bearer token, authenticates as the new agent with its role |
| AuthRoutes.RegisterProfile | api/src/routes/auth.ts:69-76 | registration keeps every earlier profile, leaves the new agent with a profile, and adds one exactly when it had none |
| AuthRoutes.Me | api/src/routes/auth.ts:95-105 | the view carries every field of the agent other than the key |
| AuthRoutes.MeHidesKey | api/src/routes/auth.ts:98-99 | two agents have the same view exactly when they differ at most in their key |
| Newsletter.OneAtSign | api/src/routes/newsletter.ts:16 | an address the pattern accepts has exactly one `@` |
| Newsletter.Examples | api/src/routes/newsletter.ts:16 | the pattern accepts `a@b.co` and refuses `a@b.c`, whose top-level label is one letter |
| Newsletter.Normalize | api/src/routes/newsletter.ts:29 | an address is present after normalising exactly when it was before, no longer, and free of upper-case letters |
| Newsletter.NormalizeIdempotent | api/src/routes/newsletter.ts:29 | normalising twice gives what normalising once gives |
| Newsletter.ValidAddress | api/src/routes/newsletter.ts:29-32 | an address is accepted exactly when it is present and its normalised form matches the pattern, and the accepted value is that normalised, non-empty form |
| Newsletter.NameOf | api/src/routes/newsletter.ts:34 | the name is the trimmed name when that is non-empty, and null otherwise |
| Newsletter.LocaleOf | api/src/routes/newsletter.ts:35 | the locale is `zh` exactly when `zh` was asked for, and `en` otherwise |
| Newsletter.ByEmail | api/src/routes/newsletter.ts:39-42 | the row found has the address, and none is found exactly when no row has it |
| Newsletter.Resubscribe | api/src/routes/newsletter.ts:44-55 | an active address is answered `Already subscribed` with no change; an inactive one is answered `Welcome back!`, its rows made active with the new locale and name and the other tables unchanged |
| Newsletter.Enrol | api/src/routes/newsletter.ts:57-75 | a new address is inserted active under a fresh `nl_` id and answered 201 exactly when no row holds the id, and refused with the state unchanged otherwise |
| Newsletter.Subscribe | api/src/routes/newsletter.ts:21-76 | an invalid address is refused with 400 and no change, a known address is answered with its id, a new one with 201 and the fresh id; only the subscriber table can change |
| Newsletter.Unsubscribe | api/src/routes/newsletter.ts:81-99 | an invalid address is refused with 400; otherwise every active row with the address is marked unsubscribed now and the rest kept, and the answer is 404 with no change exactly when there was no such row |
| Newsletter.ActiveCount | api/src/routes/newsletter.ts:104-114 | the count is at most the number of rows, and zero exactly when no row is active |
| Newsletter.SubscribedIsFound | api/src/routes/newsletter.ts:44-67 | right after a successful subscribe the address is found active under the id the answer named |
| Newsletter.SubscribeIdempotent | api/src/routes/newsletter.ts:44-46 | a second subscribe of the same address changes nothing and answers `Already subscribed` with the same id |
| Newsletter.SubscribeThenUnsubscribe | api/src/routes/newsletter.ts:81-99 | an address just subscribed can be unsubscribed |
| Newsletter.UnsubscribeTwice | api/src/routes/newsletter.ts:89-96 | a second unsubscribe finds nothing active, answers 404 and changes nothing |
| Newsletter.UnsubscribeCount | api/src/routes/newsletter.ts:89-92 | the active count drops by exactly the number of active rows with the address |
| Newsletter.SubscribeCount | api/src/routes/newsletter.ts:44-67 | with unique ids, a subscribe that inserts or reactivates adds one to the active count and one that finds the address active adds none |
| Profiles.TextOrNull | api/src/routes/profiles.ts:160-162 | a text column of the insert is stored exactly when it is non-empty, and then as given |
| Profiles.OwnProfile | api/src/routes/profiles.ts:98-100 | the profile found belongs to the agent, and none is found exactly when no profile does |
| Profiles.Modify | api/src/routes/profiles.ts:102-143 | a body with no field is refused with 400 `No fields to update` and no change; otherwise every profile of the agent gets the supplied fields and the new time stamp, and every other row is kept |
| Profiles.Create | api/src/routes/profiles.ts:144-177 | the new profile is appended exactly when no profile holds the agent's id, and the insert fails with the state unchanged otherwise |
| Profiles.SaveProfile | api/src/routes/profiles.ts:91-184 | an invalid body is refused by the schema with no change; an agent with a profile gets the update and one without gets the insert; no failure changes the state |
| Profiles.GetOwnProfile | api/src/routes/profiles.ts:189-201 | the caller's profile is returned exactly when one belongs to it, and 404 otherwise |
| Profiles.SavedProfileReadsBack | api/src/routes/profiles.ts:91-201 | after a successful save the caller reads back the updated profile, or the one just created |
| Profiles.UpdateKeepsIdentity | api/src/routes/profiles.ts:126-142 | an update keeps the row's id, owner, verification and creation time and stamps it now; repeating it only moves the stamp; with no field it only moves the stamp |
| Profiles.EmptyCreateIsRegistrationDefault | api/src/routes/profiles.ts:156-177 | a profile created from an empty body is the default profile registration makes |
| Profiles.EmptyTextCreateVersusUpdate | api/src/routes/profiles.ts:109-160 | an empty tagline is stored as NULL by the insert but as the empty text by the update |
| Profiles.SuccessRate | api/src/routes/profiles.ts:78-80 | the rate is null exactly for a worker with no tasks, otherwise within half a tenth of the exact percentage, and between 0 and 100 when the successes do not exceed the tasks |
| Profiles.ShareAtMostWhole | api/src/routes/profiles.ts:79 | a part of a whole is a share of at most one |
| Profiles.ComputeStats | api/src/routes/profiles.ts:54-86 | the agent's tasks, those of them completed (never more), a rate that is null exactly without tasks and otherwise a percentage, and the number of rated acceptances of those tasks |
| Profiles.Stats | api/src/routes/profiles.ts:422-436 | an unknown agent is answered 404 `Agent not found`, and a known one with its computed stats |
| Profiles.AllSucceededIsHundred | api/src/routes/profiles.ts:79 | a worker whose every task completed has a rate of exactly 100 |
| Profiles.SafeJsonParse | api/src/routes/profiles.ts:441-444 | empty or unparsable text gives the fallback and parsable text gives its value |
| Profiles.SafeJsonRoundTrip | api/src/routes/profiles.ts:441-444 | a value stored through a faithful encoding reads back whatever the fallback |
| Profiles.IsRecentlySeen | api/src/routes/profiles.ts:446-450 | a time counts as recent exactly when it is present, non-empty, parses, and is later than ten minutes ago |
| Profiles.RecentlySeenAgrees | api/src/routes/profiles.ts:446-450 | on a stored ISO time that parses back to its instant, the helper agrees with the ten-minute window |
| Profiles.Join | api/src/routes/profiles.ts:219-221 | every joined row pairs a profile with its existing agent and that agent's card, and every profile whose agent exists appears |
| Profiles.BrowseRows | api/src/routes/profiles.ts:222-252 | exactly the listed rows that pass the pricing, trust and stored-recency filters, newest member first, verified first under `sort=rating`; any other known or unknown key falls back to newest |
| Profiles.BrowseRowsIntended | api/src/routes/profiles.ts:243-296 | the intended filter: under `is_online=true` every row shown reports itself online, every matching online row is kept, in browse order |
| Profiles.StaleRowListedOffline | api/src/routes/profiles.ts:243-296 | as written, `is_online=true` at noon lists a profile whose card was seen at midnight, and the listing reports it offline |
| Profiles.BrowsePaging | api/src/routes/profiles.ts:213-214 | the paging fails exactly when either number is NaN; the page is at least 1 and the size between 1 and 50, each the parsed value when already in range, and page 1 of 20 when neither is given |
| Profiles.PageSize | api/src/routes/profiles.ts:214 | the size is NaN exactly when the parse is, between 1 and 50, and the parsed value when that is in range |
| Profiles.HexPageNumber | api/src/routes/profiles.ts:213 | without a radix, `?page=0x2` is page 2 |
| Profiles.PageOf | api/src/routes/profiles.ts:255-307 | one page of at most `per` rows, in order from offset `(page - 1) * per`, with the total, and `has_more` exactly when rows lie past the page |
| Profiles.Browse | api/src/routes/profiles.ts:206-309 | a `sort` naming a member every JavaScript object inherits (`constructor`, `toString`, ...) puts a function's text into `ORDER BY`, so the query fails; otherwise a NaN page or size fails; otherwise the clamped page of the filtered, ordered rows; it succeeds exactly when neither failure applies |
| Profiles.PageHasMore | api/src/routes/profiles.ts:306 | `has_more` holds exactly when the next page has rows |
| Profiles.PagingAt | api/src/routes/profiles.ts:213-214 | a page text reading as `k >= 1` gives page `k` |
| Profiles.InheritedSortFails | api/src/routes/profiles.ts:247-252 | every inherited key as `sort` makes browse fail, and the error handler answers it with a 500 |
| Profiles.HasMoreMeansNextPage | api/src/routes/profiles.ts:213-306 | for page texts reading `k` and `k + 1` with the same filters and size, the next page has rows exactly when page `k` said `has_more` |
| Profiles.BrowseAt | api/src/routes/profiles.ts:213-258 | with the paging read as `(page, per)`, browse answers that page of the ordered rows |
| Profiles.FeaturedLimit | api/src/routes/profiles.ts:315 | the limit is NaN exactly when the parse is, never above 10, the parsed value when that is at most 10, and 6 when none is given |
| Profiles.FeaturedRows | api/src/routes/profiles.ts:317-326 | exactly `min(n, count)` listed rows (all for a negative `n`), verified first, each group most recently updated first, none more often than stored, no left-out listed row ranked above a kept one, and every listed row when the limit does not cut |
| Profiles.Shown | api/src/routes/profiles.ts:328-336 | one shown row per row, in the same order |
| Profiles.Featured | api/src/routes/profiles.ts:314-339 | a NaN limit fails; otherwise the featured rows, shown |
| Profiles.FeaturedCapped | api/src/routes/profiles.ts:315 | a limit that parses to zero or more shows at most ten rows, and at most six when no limit is given |
| Profiles.UncutShowsAll | api/src/routes/profiles.ts:317-326 | without a cut every listed row is shown |
| Profiles.MinusOne | api/src/routes/profiles.ts:315 | `?limit=-1` reads as the limit -1 |
| Profiles.NegativeLimitFeaturesAll | api/src/routes/profiles.ts:315-325 | with `?limit=-1` the cap of ten does not apply and every listed profile is featured |
| Profiles.MemberDays | api/src/routes/profiles.ts:365 | the age is the whole number of days since joining, rounded down |
| Profiles.PublicCard | api/src/routes/profiles.ts:344-359 | the card is refused with 404 `Agent profile not found` exactly when the agent has no profile or does not exist |
| Profiles.PublicCardRecord | api/src/routes/profiles.ts:361-411 | a found card shows the agent's own profile, its registration time and age, whether it can be paid, its live stats and its installed skill count |
| Profiles.PublicCardAge | api/src/routes/profiles.ts:365 | the card's age is the whole number of days since the agent registered |
| Profiles.PublicCardPresence | api/src/routes/profiles.ts:400-405 | the card gives an endpoint exactly when the agent registered a card, and reports online exactly when that card is available and was seen in the last ten minutes |
| Profiles.PublicCardIsJoinRow | api/src/routes/profiles.ts:348-355 | the card is built from a row of the listing join |
| Profiles.PublicCardAgrees | api/src/routes/profiles.ts:362-434 | the card's stats are what the stats route reports and its fee is the platform's displayed fee |
| Settlement.Call | api/src/services/stripe.ts:16-42 | every call is recorded; the reply's id is answered on success, and a failure throws `Stripe API error:` with the message or `Unknown error` |
| Settlement.ChargeAmount | api/src/services/stripe.ts:83 | the charged amount is the budget's whole number of cents in decimal |
| Settlement.EnsureCustomer | api/src/services/stripe.ts:56-75 | a supplied customer id is used with no call; otherwise a customer is created and, on success, stored on the employer's row alone; tasks and log are untouched |
| Settlement.CreateTaskPayment | api/src/services/stripe.ts:49-116 | the hold is placed for the budget in cents on the customer; on success the task records the intent as held and one `payment_hold` entry is logged; a failure throws and leaves tasks and log unchanged |
| Settlement.SplitBudget | api/src/services/stripe.ts:205-208 | worker share and fee are NaN exactly when the percentage is, add up to the budget, and lie between zero and the budget for a percentage from 0 to 100 |
| Settlement.Distribute | api/src/services/stripe.ts:188-241 | a worker with no payout account gets a deferral entry and no transfer; otherwise the worker's share is transferred; on success the last entry is the final `payment_split`, and a failed transfer logs nothing |
| Settlement.PaymentOnlyLogged | api/src/services/audit.ts:24-39 | appending a log entry after a payment step keeps it a payment step |
| Settlement.PaymentOnlyThen | api/src/services/stripe.ts:148-241 | a payment step followed by a log-only step is a payment step |
| Settlement.Capture | api/src/services/stripe.ts:148-176 | the capture call is made; on success the task alone is marked captured and one `payment_capture` entry is logged; a failure throws with only the call recorded |
| Settlement.CaptureIsPaymentOnly | api/src/services/stripe.ts:148-176 | the capture changes no task field but the payment status and only appends to the log |
| Settlement.CaptureAndPay | api/src/services/stripe.ts:148-241 | the capture is the first call; a refused capture throws with nothing else changed; a successful one marks the task captured; success logs the capture entry first and a split entry last |
| Settlement.PaidAfterCapture | api/src/services/stripe.ts:167-241 | the log after a capture and a payout keeps the old log followed by the capture entry |
| Settlement.SettleTask | api/src/services/stripe.ts:125-242 | a missing task, intent or worker throws, in that order, before any call; otherwise capture and payout; every outcome is a payment step |
| Settlement.DeferredTransfer | api/src/services/stripe.ts:188-241 | for a worker without a payout account, settlement succeeds with the capture as its only call and logs the capture, the deferral warning and the split |
| Settlement.RefundCall | api/src/services/stripe.ts:266-285 | a call is made exactly for a held payment (cancel) or a captured one (refund) |
| Settlement.RefundTask | api/src/services/stripe.ts:247-309 | a missing task or intent throws with no change; success makes the call the payment status needs, marks the task refunded whatever its status, and logs one `payment_refund` entry; a failed call leaves tasks and log unchanged |
| Settlement.RefundIsPaymentOnly | api/src/services/stripe.ts:247-309 | a refund changes no task field but the payment status and only appends to the log |
| Settlement.RefundAfterCapture | api/src/services/stripe.ts:148-285 | refunding a payment just captured makes one more call, the refund of the same intent, and succeeds exactly when the processor accepts it |
| Settlement.RefundAfterCaptureTasks | api/src/services/stripe.ts:157-295 | a capture followed by an accepted refund leaves every task as before except this one's payment, now refunded |
| Settlement.CapturedFound | api/src/services/stripe.ts:157-164 | after a capture the task is found with its payment captured |
| Settlement.RefundOfCaptured | api/src/services/stripe.ts:274-285 | refunding a captured payment makes the one refund call and succeeds exactly when it is accepted |
| Settlement.FieldValue | api/src/services/stripe.ts:329-330 | the field is the rest of the first part with the prefix, and none exactly when no part has it |
| Settlement.ExpectedSignature | api/src/services/stripe.ts:347-367 | the expected signature is 64 lower-case hex digits |
| Settlement.CheckFields | api/src/services/stripe.ts:336-377 | the check throws exactly when the stamp is fresh and the secret empty; it passes exactly when the stamp is decimal and within 300 seconds of now, the secret is set, and the signature equals the HMAC of `stamp.payload` |
| Settlement.VerifyWebhookSignature | api/src/services/stripe.ts:320-378 | a missing field refuses before any key is imported; the check throws exactly for non-empty fields with a fresh stamp under an empty secret; a header verifies exactly when both fields are non-empty and pass the field checks |
| Settlement.HeaderSplits | api/src/services/stripe.ts:328 | a header of digits and hex splits at its one comma into the two fields |
| Settlement.HeaderTextFields | api/src/services/stripe.ts:328-330 | such a header yields its stamp and its signature |
| Settlement.HeaderFields | api/src/services/stripe.ts:315-330 | the processor's header yields its stamp and its signature |
| Settlement.SignedHeaderVerifies | api/src/services/stripe.ts:320-378 | a header signed with the right secret for this payload verifies within 300 seconds of its stamp when the secret is set, and throws at the key import when it is empty |
| Settlement.ParseStamp | api/src/services/stripe.ts:336 | a stamp written in decimal reads back as itself |
| Settlement.StaleHeaderRefused | api/src/services/stripe.ts:341-345 | a correctly signed header is refused, without a throw, once its stamp is more than 300 seconds from now |
| Webhooks.OnPaymentSucceeded | api/src/routes/webhooks.ts:70-88 | without a task id nothing changes; otherwise exactly the tasks with that id holding this intent become captured |
| Webhooks.OnPaymentFailed | api/src/routes/webhooks.ts:93-114 | without a task id nothing changes; otherwise one `payment_capture` entry with status `failed` is logged and nothing else changes |
| Webhooks.TaskWithIntent | api/src/routes/webhooks.ts:120-126 | the task found holds the intent, and none is found exactly when the intent is missing or no task holds it |
| Webhooks.OnChargeRefunded | api/src/routes/webhooks.ts:119-144 | a charge whose intent no task holds changes nothing; otherwise the task holding it becomes refunded and every other row is kept |
| Webhooks.Dispatch | api/src/routes/webhooks.ts:43-62 | transfers and unknown event types change nothing, and no event touches agents, submissions, reviews, calls or files |
| Webhooks.Receive | api/src/routes/webhooks.ts:18-65 | a missing signature is refused with 400 and a bad one with 401, a signature check that throws fails the request as a 500, each with no change; an acknowledged event was verified under a set secret, parsed and applied |
| Webhooks.IgnoredEvents | api/src/routes/webhooks.ts:71-157 | a success event without a task id, a refund for an unknown intent and a transfer leave the state as it was |
| Webhooks.FailureKeepsStatus | api/src/routes/webhooks.ts:93-114 | a failed payment logs one capture entry and leaves every task as it was |
| Webhooks.SignedEventApplied | api/src/routes/webhooks.ts:18-65 | a delivery the processor signed, received within 300 seconds, is applied and acknowledged when the secret is set; under an empty secret it fails with nothing applied |
| Webhooks.ReplayRefused | api/src/routes/webhooks.ts:27-35 | the same delivery replayed outside the window is refused with 401 and changes nothing |
| SubmissionRoutes.Marked | api/src/routes/submissions.ts:155-201 | the verdict keeps the row's identity and file, records approved or rejected as the review said, and stamps the review time |
| SubmissionRoutes.Judge | api/src/routes/submissions.ts:149-230 | an approval marks the submission approved, moves the task to `under_review` and answers 201; a rejection marks it rejected with notes, leaves the task alone and answers 400 with the reason; either way one `submission_review` entry |
| SubmissionRoutes.Receive | api/src/routes/submissions.ts:76-133 | the file is stored and verifies intact; the pending row is appended, the task moves to `submitted` and one `submission_create` entry is logged; a taken id fails the insert with only the stored object left behind |
| SubmissionRoutes.Deliver | api/src/routes/submissions.ts:76-230 | a delivery's verdict is the automated review of the intact object, answered 201 exactly when it approves, with the file's digest |
| SubmissionRoutes.DeliveryAppendsRow | api/src/routes/submissions.ts:89-201 | a delivery appends one submission row, already marked with the verdict, and changes no other row |
| SubmissionRoutes.DeliveryLogged | api/src/routes/submissions.ts:121-216 | a delivery logs the worker's `submission_create` and then the platform's verdict, in that order |
| SubmissionRoutes.DeliveryMovesTask | api/src/routes/submissions.ts:111-174 | the task ends `under_review` when the review approves and `submitted` otherwise, and no other task changes |
| SubmissionRoutes.JudgeMarksAppended | api/src/routes/submissions.ts:157-201 | judging a row just appended under a fresh id marks that row only |
| SubmissionRoutes.AppendedRowMarked | api/src/routes/submissions.ts:157-201 | marking the rows of a fresh id touches only the appended row |
| SubmissionRoutes.Submit | api/src/routes/submissions.ts:33-231 | the guards fail in order (role, task id, file, task, worker, status, size) with nothing stored; an accepted delivery is for the caller's claimed task, under a fresh `sub_` id, and is approved exactly when the file is non-empty, has an allowed extension and no dangerous pattern |
| SubmissionRoutes.SubmitTarget | api/src/routes/submissions.ts:33-74 | each guard refuses with its status and message, and success names the caller's claimed task with a file within the size limit |
| SubmissionRoutes.Visible | api/src/routes/submissions.ts:240-262 | a submission is visible exactly when it and its task exist and the caller is the task's employer or worker; otherwise 404 or 403 |
| SubmissionRoutes.GetSubmission | api/src/routes/submissions.ts:236-268 | a returned submission has the id and a task the caller employs or works on; refusals are 403 or 404 |
| SubmissionRoutes.Download | api/src/routes/submissions.ts:488-531 | a visible submission's stored bytes are returned with an attachment header naming the file and its recorded size; a missing object is 404 |
| SubmissionRoutes.DownloadKeepsMediaType | api/src/routes/submissions.ts:526 | the media type recorded at upload comes back on download |
| SubmissionRoutes.Approve | api/src/routes/submissions.ts:316-351 | the acceptance row is inserted, the task alone becomes completed and one `submission_accept` entry is logged; a taken review id changes nothing |
| SubmissionRoutes.SettleAccepted | api/src/routes/submissions.ts:353-366 | settlement follows the accept; a failure is logged as a `payment_capture` entry with its message and does not fail the accept; only payment fields and the log change |
| SubmissionRoutes.Complete | api/src/routes/submissions.ts:316-375 | an accept answers the review id with status `completed` and adds exactly the acceptance row |
| SubmissionRoutes.CompletionMovesTask | api/src/routes/submissions.ts:329-366 | an accept completes the task, whatever settlement then does to payment fields, and leaves every other task's status alone |
| SubmissionRoutes.CompletionLogged | api/src/routes/submissions.ts:339-366 | the accept's first new log entry is the employer's `submission_accept`, and the earlier log is kept |
| SubmissionRoutes.AcceptSubmission | api/src/routes/submissions.ts:273-376 | the guards fail in order (role, body, submission, task, employer, status, verdict) with no change; success is the completion of the employer's task under review with an approved submission |
| SubmissionRoutes.Remaining | api/src/routes/submissions.ts:480 | the remaining attempts are NaN exactly when the ceiling is, and never negative when the reject was allowed |
| SubmissionRoutes.Record | api/src/routes/submissions.ts:436-482 | the rejection row is inserted, the task becomes rejected whatever its status, and one `submission_reject` entry with the new count is logged |
| SubmissionRoutes.RejectSubmission | api/src/routes/submissions.ts:381-483 | the guards fail in order (role, body, feedback, submission, task, employer, ceiling) with no change; success records the reject for the employer's task below the ceiling, with no check of the task's status |
| SubmissionRoutes.RejectMovesTask | api/src/routes/submissions.ts:448-456 | a reject moves the task to `rejected` whatever its status, a completed task included, and touches no other task |
| SubmissionRoutes.NoResubmitAfterReject | api/src/routes/submissions.ts:65-476 | after a reject the worker's next delivery for the task is refused with 400, although the reject's answer says the worker can resubmit |
| SubmissionRoutes.RejectTarget | api/src/routes/submissions.ts:386-434 | each guard of a reject refuses with its status and message, and success names the employer's task with its rejection count below the ceiling |
| TaskRoutes.Escrow | api/src/routes/tasks.ts:54-97 | a free task is inserted with no call; a paid task's successful hold leaves the row held with one `payment_hold` entry; a failed hold deletes the row again and answers 402 `Payment setup failed:` with tasks and log as before |
| TaskRoutes.DeleteRestores | api/src/routes/tasks.ts:89-92 | deleting the fresh row restores the task table as it was before the insert |
| TaskRoutes.HoldOnLastRow | api/src/services/stripe.ts:93-100 | marking the fresh row held changes only the last row |
| TaskRoutes.Publish | api/src/routes/tasks.ts:54-136 | a refused hold leaves the table as it was; a throw happens only under an empty secret, after the new open row is stored; a free task never calls the processor and publishes exactly when the secret is set; a published task answers its id, title, budget, deadline, status `open`, the task's own token, and `held` exactly when paid |
| TaskRoutes.PublishStoresRow | api/src/routes/tasks.ts:54-97 | a successful create appends the new row, held under the processor's intent when paid and as inserted when free |
| TaskRoutes.FreePublishLogged | api/src/routes/tasks.ts:99-122 | a free task's create appends exactly one `task_create` entry naming `free_task` when the secret is set, and none when it is empty |
| TaskRoutes.PaidPublishLogged | api/src/routes/tasks.ts:78-122 | a paid task's create keeps the log and appends the hold entry, then `task_create` naming the intent the row is held under |
| TaskRoutes.Announce | api/src/routes/tasks.ts:99-136 | the last step succeeds exactly when the task secret is set, answering the token signed over the new row and logging one `task_create` entry with nothing else changing; otherwise it throws and changes nothing |
| TaskRoutes.Create | api/src/routes/tasks.ts:37-137 | the role gate, the schema and a past deadline refuse with no change; every failure but the empty-secret throw leaves the task table as it was, and that throw leaves the new row appended; success needs a set secret and is the publication under a fresh `task_` id |
| TaskRoutes.EmptySecretOrphansTask | api/src/routes/tasks.ts:54-108 | under an empty secret a free create appends the open row and then throws, leaving the row in place |
| TaskRoutes.CreateIntended | api/src/routes/tasks.ts:37-108 | with the secret checked before the insert, no failed create leaves a row behind, an empty secret changes nothing, and every success is the create as written |
| TaskRoutes.CreateCheck | api/src/routes/tasks.ts:37-48 | a create passes its guards exactly when the caller may employ, the body fits the schema and the deadline is not past, and each guard refuses with its own error |
| TaskRoutes.ByStatus | api/src/routes/tasks.ts:150-161 | each task in the status appears as often as in the table and no other task appears, so there are as many as the status's count; newest first |
| TaskRoutes.PageOf | api/src/routes/tasks.ts:147-161 | a page holds at most the page size of the sorted rows, still newest first |
| TaskRoutes.Paging | api/src/routes/tasks.ts:145-146 | the paging fails exactly when either number is NaN; the page is the parsed value, the size the parsed value capped at 100, page 1 of 20 by default |
| TaskRoutes.List | api/src/routes/tasks.ts:142-193 | a NaN page or size fails; otherwise the page of the tasks in the status (default `open`), newest first, with `total` the number of tasks in that status and `has_more` exactly when it exceeds page times size |
| TaskRoutes.PageOfSlices | api/src/routes/tasks.ts:147-161 | a page with rows after it is a full slice at its offset, and the page that reaches the end holds every row left |
| TaskRoutes.Get | api/src/routes/tasks.ts:198-220 | the task with the id is returned exactly when one exists, and 404 otherwise |
| TaskRoutes.Claim | api/src/routes/tasks.ts:225-303 | the guards refuse in order (role, body, task, status, own task, token, deadline) with no change, a token check that throws failing with its error; success needs a set secret, marks the task claimed by the caller now and logs one `task_claim` entry |
| TaskRoutes.ClaimTarget | api/src/routes/tasks.ts:231-273 | each claim guard refuses with its own status and message, a throwing token check with its error, and success names an open task of someone else whose token is its own under a set secret, young enough, before its deadline |
| TaskRoutes.TokenCheck | api/src/routes/tasks.ts:254-264 | the token check passes exactly when the task is young enough, the secret is set, and the token is the task's own |
| TaskRoutes.Unclaim | api/src/routes/tasks.ts:308-357 | an unclaim succeeds exactly for the task's worker while it is claimed; it reopens the task without worker or claim time and logs one `task_unclaim` entry |
| TaskRoutes.ClaimAccepted | api/src/routes/tasks.ts:243-273 | a claim with the task's own token passes when every guard does and the secret is set, and throws when the secret is empty |
| TaskRoutes.IssuedTokenClaims | api/src/routes/tasks.ts:100-264 | the token a create hands out lets another worker claim the task while neither the token's age nor the deadline has passed |
| TaskRoutes.FreshRowFound | api/src/routes/tasks.ts:234-237 | a row appended under a fresh id is the one a lookup by that id finds |
| TaskRoutes.UnclaimUndoesClaim | api/src/routes/tasks.ts:277-341 | unclaiming right after a claim gives the task back as it was, save its update time, with one claim and one unclaim entry logged |
| TaskRoutes.FoundAfterUpdate | api/src/routes/tasks.ts:277-284 | after updating the rows with an id, a lookup by that id finds the updated first row |
| A2A.WorkerLimit | api/src/routes/a2a.ts:164 | a missing or zero limit means ten, a limit up to fifty is kept, and none exceeds fifty |
| A2A.FoundCards | api/src/routes/a2a.ts:166-183 | the most recently seen available cards of existing agents: exactly `min(limit, count)` of them, newest first, none more often than stored, no left-out one seen later than a kept one, and every such card when the limit does not cut |
| A2A.NegativeLimitFindsAll | api/src/routes/a2a.ts:164-181 | a negative limit is passed through unbounded, so every available card of an existing agent is reported |
| A2A.FindWorkers | api/src/routes/a2a.ts:185-210 | the answer lists each found card as a worker, its total is their number, and the hint says whether any were found |
| A2A.PostTask | api/src/routes/a2a.ts:216-301 | no key, an unknown key and a missing field each refuse with their JSON-RPC error and no change; a taken id throws with no change; otherwise the open, payment-pending task is appended and, under a set secret, one `task_create` entry with `via: a2a` is logged and its token returned, while under an empty secret the call throws after the append |
| A2A.BudgetOnlyTruthy | api/src/routes/a2a.ts:250 | with the other fields present, a post is accepted exactly when the budget is not zero, negative budgets included |
| A2A.WorkerPostsThroughGateway | api/src/routes/a2a.ts:230-272 | an agent the employer role gate refuses still posts a task through the gateway whenever the task secret is set |
| A2A.PostedTaskReadsBack | api/src/routes/a2a.ts:261-363 | a posted task then reads back as `submitted`, open, payment pending, with no worker, its budget, and the returned token verifying against the stored row |
| A2A.StateMapMeaning | api/src/routes/a2a.ts:334-353 | each agent-facing state is named by exactly its group of task statuses: open, the three in-progress ones, completed, rejected, and cancelled or expired |
| A2A.UnknownStatusReadsSubmitted | api/src/routes/a2a.ts:353 | a stored status the map does not name reads as `submitted` |
| A2A.TaskStatusOf | api/src/routes/a2a.ts:306-364 | a missing id refuses with 400, an unknown task with 404; otherwise the answer reports the task's mapped state, status, update time, budget, payment status and its worker, an empty worker reading as null |
| A2A.Action | api/src/routes/a2a.ts:104-122 | an action is chosen exactly when the first data part names one of the three known actions, and it is that part's data |
| A2A.Send | api/src/routes/a2a.ts:87-153 | no parts refuses; a known action goes to its handler; anything else is answered with the hint when some part has text and refused as unrecognized otherwise, with no change |
| A2A.BearerKey | api/src/routes/a2a.ts:60-61 | a key is read exactly when the header starts with `Bearer `, and it is the rest of the header |
| A2A.Handle | api/src/routes/a2a.ts:39-82 | a body that is not JSON is a parse error with a null id; a call that is not JSON-RPC 2.0 is an invalid request; an unknown method is 404; `message/send` is answered by its handler, and what the handler throws is a 500 internal error carrying the thrown message |

## Left out

- Settlement.SplitBudget: the worker's share is computed exactly, as `round(budget × (100 − fee) / 100)` in cents. The source computes it in binary floating point, which can land one cent lower. For example, 850 cents at 1% gives 841 in JavaScript (`Math.round(841.4999999999999)`) and 842 here.
- Settlement.TransferAmount: renders the exactly computed share, so it carries the same one-cent difference as `SplitBudget`.
- Fees.Round: rounds exact rationals, not doubles. The split identity holds here exactly, where the source's doubles only approximate it.
- TaskRoutes.CreateInput: the budget is a whole number of cents. The source's schema accepts any JSON number, fractions of a cent included.
- TaskRoutes.ValidCreateInput: the same limitation applies to the budget bounds, since budgets are whole cents.
- TaskRoutes.List: the `skills` filter (`skills LIKE '%"s"%'`) is not applied. It is a database text search.
- A2A.FoundCards: the `skills` filter is not applied, for the same reason.
- Discovery.Discover: the `skills` filter is not applied. The recency test is the stored-text comparison, against a threshold computed as ten minutes before the `now` passed in, in place of the database's `datetime('now', '-10 minutes')`.
- Profiles.BrowseRows: the `skills` filter is not applied. The recency test is modelled as in `Discover`.
- A2A.PostTask: the budget is a whole number of cents. The source casts `data.budget` without checking it, so any truthy JSON value is stored as the budget, a fraction such as `0.5` or a string such as `"5"` included.
- Site.WorkerPayout: computes the payout as an exact rational. The source multiplies doubles, so a budget of 3 pays 2.9699999999999998 there and exactly 2.97 here.
- Site.PlatformFeeAmount: computes the fee as an exact rational, where the source multiplies doubles.
- Site.PayoutPlusFee: the payout and the fee add up to the budget exactly. In the source's doubles they need not: for a budget of 3 the sum is 2.9999999999999996.
- Audit.Entry: the entry does not carry the row id that `generateId('log')` draws (api/src/services/audit.ts:18). Two entries with the same fields are therefore indistinguishable in the log, and the multiset facts about trails and histories count them together.
- Profiles.Browse: the row store's own error text for an `ORDER BY` holding a function's source is not reproduced; a fixed message stands for it. When the sort key is inherited and a page number is also NaN, the model reports the broken sort, though both make the same query fail.
- Text.ToLower: folds only ASCII letters. JavaScript's `toLowerCase` also folds other letters, such as U+212A KELVIN SIGN to `k`.
- Newsletter.Normalize: inherits the ASCII-only folding. An address starting with U+212A is refused here, but lower-cased and accepted by the source.
- SubmissionRoutes.Submit: the uploaded file name is lower-cased with the ASCII-only `Text.ToLower` before the extension and pattern checks.
- AuthRoutes.Register: the schema's length bounds count Unicode scalar values. The source's schema counts UTF-16 code units, so a name of 60 astral characters (120 units) passes the maximum of 100 here and is refused by the source.
- Profiles.ValidProfileInput: the length bounds count scalar values rather than UTF-16 units, as in `Register`.
- TaskRoutes.CreateCheck: the length bounds count scalar values rather than UTF-16 units, as in `Register`.
- Profiles.ComputeStats: leaves out the average rating, the average completion time and `total_earned_usd`. These are floating-point aggregates computed by the database (api/src/routes/profiles.ts:59-66, 81-84).
- Profiles.CardViewOf: the card view leaves out `featured_work`, the verification columns and the profile link. They are JSON-only pass-through fields.
- ErrorHandler.Handle: the `console.error` logging is output only and is not modelled.
- JSON: parsing and serialisation are not modelled. A body that does not parse is `None`, and `safeJsonParse`'s fallback is modelled over a supplied parser.
- Crypto.Sign: the key import's refusal of an empty key is modelled, but its message is a stand-in for the runtime's own `DataError` text.
- Store.Config: an unset `TASK_SECRET` or `STRIPE_WEBHOOK_SECRET` is modelled as the empty text, which is what `TextEncoder.encode(undefined)` produces.
- Cryptography: SHA-256 is an abstract parameter. The HMAC construction on top of it is modelled; the hash itself is not.
- Randomness: `crypto.getRandomValues` is replaced by bytes passed in.
- I/O: the payment processor's HTTP client, the blob store and the row store are modelled only as the state they change and the calls they record.
- Zod and regular-expression internals are not modelled. Email, URL and date-time validity are predicates passed in.
- Concurrency: requests are modelled one at a time. There is no compare-and-swap in the source, so claim and accept exclusivity is neither modelled nor claimed.
- api/src/routes/stats.ts and api/src/index.ts are not part of this model. The first holds only SQL aggregates; the second only wires routes, CORS and logging.
- The web components and scripts/auto-tweet.js are presentation and external I/O, and are not part of this model.

## Findings

| source | as written | input that shows it | evidently intended | confidence | as-written member | corrected member |
|---|---|---|---|---|---|---|
| api/src/services/content-hash.ts:132 | the download key is split on `:`, but the ISO expiry it carries itself contains `:`, so the expiry read back is only `YYYY-MM-DDTHH` | any key issued by `generateDownloadKey`, e.g. one expiring at `2026-01-01T12:00:00.000Z`, whose expiry reads back as `2026-01-01T12` | the expiry is everything after the third separator, so an issued key verifies until it expires | not executed | DownloadKey.AsWrittenTruncatesKey | DownloadKey.IssuedKeyRoundTrip |
| api/src/routes/discovery.ts:93 | `last_seen > datetime('now', '-10 minutes')` compares the stored ISO text (`…T…Z`) with SQLite's space-separated text, so every heartbeat on the threshold's calendar day passes | a card last seen at 00:00 UTC, queried at 12:00 the same day, is discovered as online; the same holds for `is_online=true` in api/src/routes/profiles.ts:243, 279 | only cards seen within the last ten minutes are listed as online | not executed | Discovery.StaleCardDiscovered | Discovery.DiscoverIntended |
| api/src/routes/tasks.ts:100 | the token is generated after the row is inserted and the hold placed, and nothing undoes them when generation throws | `TASK_SECRET` unset: the key import refuses the empty key, the create answers 500, and the open row stays in the table (with its hold, when paid); api/src/routes/a2a.ts:261-272 leaves a row behind the same way | a failed create leaves no task, as the 402 path does by deleting the row | not executed | TaskRoutes.EmptySecretOrphansTask | TaskRoutes.CreateIntended |
