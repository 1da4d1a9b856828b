/** Download keys: an object key and an expiry instant packed as unpadded base64url text, and
    their verification. `VerifyAsWritten` is the verification as the service performs it;
    `Verify` is the corrected one, which recovers the whole key and the whole expiry. */
module DownloadKey {
  import opened Wrappers
  import opened Text
  import Clock
  import Base64

  const DefaultExpiryMinutes: nat := 60

  datatype Issued = Issued(downloadKey: string, expiresAt: string)

  /** The instant a key issued at `now` stops being valid. */
  function ExpiryInstant(now: nat, expiryMinutes: nat): nat {
    now + expiryMinutes * Clock.MsPerMinute
  }

  predicate IsLatin1(s: string) {
    forall i :: 0 <= i < |s| ==> s[i] as int < 256
  }

  /** The packed text stays Latin-1 when the key is: the ISO instant is ASCII. */
  lemma PackedLatin1(key: string, iso: string)
    requires IsAscii(iso)
    ensures IsLatin1(key) ==> IsLatin1(key + ":" + iso)
  {
    AsciiConcat(":", iso);
    var s := key + ":" + iso;
    assert s == key + (":" + iso);
    assert forall i :: |key| <= i < |s| ==> s[i] == (":" + iso)[i - |key|];
  }

  /** `generateDownloadKey`: base64url of `{key}:{expires_at}` with padding stripped. `btoa`
      throws on a character above U+00FF; that failure is None. */
  function Generate(key: string, now: nat, expiryMinutes: nat): (r: Option<Issued>)
    ensures r.Some? ==> r.value.expiresAt == Clock.IsoText(ExpiryInstant(now, expiryMinutes))
    ensures r.Some? ==> Base64.UrlSafeBtoa(key + ":" + r.value.expiresAt) == Some(r.value.downloadKey)
    ensures IsLatin1(key) ==>
              r.Some? && Base64.Atob(Base64.FromUrl(r.value.downloadKey)) == Some(key + ":" + r.value.expiresAt)
  {
    var expiresAt := Clock.IsoText(ExpiryInstant(now, expiryMinutes));
    Clock.IsoAscii(ExpiryInstant(now, expiryMinutes));
    PackedLatin1(key, expiresAt);
    if IsLatin1(key + ":" + expiresAt) then
      Base64.UrlSafeRoundTrip(key + ":" + expiresAt);
      Some(Issued(Base64.UrlSafeBtoa(key + ":" + expiresAt).value, expiresAt))
    else
      match Base64.UrlSafeBtoa(key + ":" + expiresAt)
      case None => None
      case Some(dk) => Some(Issued(dk, expiresAt))
  }

  datatype Check = Granted(key: string) | Refused(reason: string)

  const BadKey: string := "Invalid download key"
  const BadFormat: string := "Invalid download key format"
  const Expired: string := "Download key expired"

  /** `new Date(expires_at) < new Date()`: an unparsable date compares false. */
  predicate IsPast(dateOf: string -> Option<int>, expiresAt: string, now: int) {
    dateOf(expiresAt).Some? && dateOf(expiresAt).value < now
  }

  /** The written checks on the decoded text: it is split on every `:` and only the first two
      pieces are read, as key and expiry. */
  function CheckAsWritten(decoded: string, now: int, dateOf: string -> Option<int>): (r: Check)
    ensures r.Granted? ==> var parts := Split(decoded, ':');
                           r.key == parts[0] && ':' !in r.key && |parts| >= 2 &&
                           parts[0] != "" && parts[1] != "" && !IsPast(dateOf, parts[1], now)
  {
    var parts := Split(decoded, ':');
    if parts[0] == "" || |parts| < 2 || parts[1] == "" then Refused(BadFormat)
    else if IsPast(dateOf, parts[1], now) then Refused(Expired)
    else Granted(parts[0])
  }

  /** `verifyDownloadKey` as written. */
  function VerifyAsWritten(downloadKey: string, now: int, dateOf: string -> Option<int>): (r: Check)
    ensures Base64.Atob(Base64.FromUrl(downloadKey)).None? ==> r == Refused(BadKey)
    ensures r.Granted? ==> var parts := Split(Base64.Atob(Base64.FromUrl(downloadKey)).value, ':');
                           r.key == parts[0] && ':' !in r.key && |parts| >= 2 &&
                           parts[0] != "" && parts[1] != "" && !IsPast(dateOf, parts[1], now)
  {
    match Base64.Atob(Base64.FromUrl(downloadKey))
    case None => Refused(BadKey)
    case Some(decoded) => CheckAsWritten(decoded, now, dateOf)
  }

  /** The packed text split as intended: the expiry is the last three `:`-separated pieces (an
      ISO instant holds two colons) and the key is everything before them. */
  function Unpack(decoded: string): (r: Option<(string, string)>)
    ensures r.Some? ==> decoded == r.value.0 + ":" + r.value.1
  {
    var parts := Split(decoded, ':');
    if |parts| < 4 then None
    else
      var n := |parts| - 3;
      JoinSplit(decoded, ':');
      JoinSplitAt(parts, n, ':');
      Some((Join(parts[..n], ':'), Join(parts[n..], ':')))
  }

  /** Joining the two halves of a split list with one more separator is joining the whole list. */
  lemma {:induction false} JoinSplitAt(parts: seq<string>, n: nat, sep: char)
    requires 1 <= n < |parts|
    ensures Join(parts, sep) == Join(parts[..n], sep) + [sep] + Join(parts[n..], sep)
    decreases n
  {
    if n > 1 {
      JoinSplitAt(parts[1..], n - 1, sep);
      assert parts[1..][..n - 1] == parts[..n][1..];
      assert parts[1..][n - 1..] == parts[n..];
    } else {
      assert parts[..1] == [parts[0]];
      assert parts[1..] == parts[n..];
    }
  }

  /** The corrected checks on the decoded text. */
  function CheckUnpacked(decoded: string, now: int, dateOf: string -> Option<int>): (r: Check)
    ensures r.Granted? ==> var u := Unpack(decoded);
                           u.Some? && r.key == u.value.0 && r.key != "" && !IsPast(dateOf, u.value.1, now)
  {
    match Unpack(decoded)
    case None => Refused(BadFormat)
    case Some((key, expiresAt)) =>
      if key == "" || expiresAt == "" then Refused(BadFormat)
      else if IsPast(dateOf, expiresAt, now) then Refused(Expired)
      else Granted(key)
  }

  /** `verifyDownloadKey` corrected: the whole key and the whole expiry are recovered. */
  function Verify(downloadKey: string, now: int, dateOf: string -> Option<int>): (r: Check)
    ensures Base64.Atob(Base64.FromUrl(downloadKey)).None? ==> r == Refused(BadKey)
    ensures r.Granted? ==> var u := Unpack(Base64.Atob(Base64.FromUrl(downloadKey)).value);
                           u.Some? && r.key == u.value.0 && r.key != "" && !IsPast(dateOf, u.value.1, now)
  {
    match Base64.Atob(Base64.FromUrl(downloadKey))
    case None => Refused(BadKey)
    case Some(decoded) => CheckUnpacked(decoded, now, dateOf)
  }

  /** A date parser that reads an ISO instant back. */
  predicate ReadsIso(dateOf: string -> Option<int>, ms: nat) {
    dateOf(Clock.IsoText(ms)) == Some(ms)
  }

  /** Unpacking recovers a key and any expiry text of exactly three `:`-separated fields. */
  lemma UnpackPacked(key: string, expiresAt: string)
    requires |Split(expiresAt, ':')| == 3
    ensures Unpack(key + ":" + expiresAt) == Some((key, expiresAt))
  {
    var parts := Split(key + ":" + expiresAt, ':');
    assert key + ":" + expiresAt == key + [':'] + expiresAt;
    SplitAppend(key, expiresAt, ':');
    var kp := Split(key, ':');
    assert parts == kp + Split(expiresAt, ':');
    var n := |parts| - 3;
    assert parts[..n] == kp;
    assert parts[n..] == Split(expiresAt, ':');
    JoinSplit(key, ':');
    JoinSplit(expiresAt, ':');
  }

  lemma SplitOfEmpty(sep: char)
    ensures Split("", sep) == [""]
  {
  }

  lemma VerifyDecoded(downloadKey: string, decoded: string, now: int, dateOf: string -> Option<int>)
    requires Base64.Atob(Base64.FromUrl(downloadKey)) == Some(decoded)
    ensures VerifyAsWritten(downloadKey, now, dateOf) == CheckAsWritten(decoded, now, dateOf)
    ensures Verify(downloadKey, now, dateOf) == CheckUnpacked(decoded, now, dateOf)
  {
  }

  lemma CheckUnpackedPacked(key: string, expiresAt: string, later: int, dateOf: string -> Option<int>)
    requires key != "" && |Split(expiresAt, ':')| == 3
    ensures CheckUnpacked(key + ":" + expiresAt, later, dateOf) ==
              if IsPast(dateOf, expiresAt, later) then Refused(Expired) else Granted(key)
  {
    UnpackPacked(key, expiresAt);
    SplitOfEmpty(':');
  }

  /** The corrected verification grants a freshly issued key up to its expiry instant, returning
      the whole object key, and refuses it as expired afterwards. */
  lemma IssuedKeyRoundTrip(key: string, now: nat, expiryMinutes: nat, later: int, dateOf: string -> Option<int>)
    requires IsLatin1(key) && key != ""
    requires ReadsIso(dateOf, ExpiryInstant(now, expiryMinutes))
    ensures var dk := Generate(key, now, expiryMinutes).value.downloadKey;
            Verify(dk, later, dateOf) ==
              if ExpiryInstant(now, expiryMinutes) < later then Refused(Expired) else Granted(key)
  {
    var ms := ExpiryInstant(now, expiryMinutes);
    var iso := Clock.IsoText(ms);
    VerifyDecoded(Generate(key, now, expiryMinutes).value.downloadKey, key + ":" + iso, later, dateOf);
    CheckUnpackedPacked(key, iso, later, dateOf);
  }

  /** The written checks on a colon-free key packed with any expiry text whose first field is
      not empty: that first field is all they consult. */
  lemma CheckAsWrittenPacked(key: string, expiresAt: string, later: int, dateOf: string -> Option<int>)
    requires key != "" && ':' !in key && Split(expiresAt, ':')[0] != ""
    ensures CheckAsWritten(key + ":" + expiresAt, later, dateOf) ==
              if IsPast(dateOf, Split(expiresAt, ':')[0], later) then Refused(Expired) else Granted(key)
  {
    assert key + ":" + expiresAt == key + [':'] + expiresAt;
    SplitCons(key, ':', expiresAt);
  }

  /** The text the written verification reads as the expiry of a colon-free key: only the date
      and hour, the part of the ISO instant before its first `:`. */
  lemma AsWrittenReadsHourOnly(key: string, now: nat, expiryMinutes: nat, later: int, dateOf: string -> Option<int>)
    requires IsLatin1(key) && key != "" && ':' !in key
    ensures var dk := Generate(key, now, expiryMinutes).value.downloadKey;
            var hour := Clock.IsoParts(ExpiryInstant(now, expiryMinutes))[0];
            VerifyAsWritten(dk, later, dateOf) == if IsPast(dateOf, hour, later) then Refused(Expired) else Granted(key)
  {
    var iso := Clock.IsoText(ExpiryInstant(now, expiryMinutes));
    VerifyDecoded(Generate(key, now, expiryMinutes).value.downloadKey, key + ":" + iso, later, dateOf);
    CheckAsWrittenPacked(key, iso, later, dateOf);
  }

  /** When the date-and-hour text does not parse (an Invalid Date), the written verification
      grants an issued key at every later instant: its expiry is never enforced. */
  lemma AsWrittenNeverExpires(key: string, now: nat, expiryMinutes: nat, later: int, dateOf: string -> Option<int>)
    requires IsLatin1(key) && key != "" && ':' !in key
    requires dateOf(Clock.IsoParts(ExpiryInstant(now, expiryMinutes))[0]).None?
    ensures VerifyAsWritten(Generate(key, now, expiryMinutes).value.downloadKey, later, dateOf) == Granted(key)
  {
    AsWrittenReadsHourOnly(key, now, expiryMinutes, later, dateOf);
  }

  lemma CheckAsWrittenTruncates(head: string, tail: string, later: int, dateOf: string -> Option<int>)
    requires ':' !in head
    ensures CheckAsWritten(head + ":" + tail, later, dateOf) != Granted(head + ":" + tail)
  {
    assert head + ":" + tail == head + [':'] + tail;
    SplitCons(head, ':', tail);
    assert (head + ":" + tail)[|head|] == ':';
  }

  lemma Reassociate(head: string, tail: string, iso: string)
    ensures head + ":" + tail + ":" + iso == head + ":" + (tail + ":" + iso)
  {
  }

  /** A key holding a `:` never comes back whole from the written verification: at best its part
      before the first `:` is granted. */
  lemma AsWrittenTruncatesKey(head: string, tail: string, now: nat, expiryMinutes: nat, later: int,
                              dateOf: string -> Option<int>)
    requires IsLatin1(head + ":" + tail) && ':' !in head
    ensures var dk := Generate(head + ":" + tail, now, expiryMinutes).value.downloadKey;
            VerifyAsWritten(dk, later, dateOf) != Granted(head + ":" + tail)
  {
    var key := head + ":" + tail;
    var iso := Clock.IsoText(ExpiryInstant(now, expiryMinutes));
    VerifyDecoded(Generate(key, now, expiryMinutes).value.downloadKey, key + ":" + iso, later, dateOf);
    Reassociate(head, tail, iso);
    CheckAsWrittenTruncates(head, tail + ":" + iso, later, dateOf);
  }
}
