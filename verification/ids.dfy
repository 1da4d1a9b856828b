/** Identifiers of the form `prefix_random`, the random part drawn from `[a-z0-9]`. The random
    bytes that `crypto.getRandomValues` would supply are parameters. */
module Ids {
  import opened Bytes
  import opened Text

  const Chars: string := "abcdefghijklmnopqrstuvwxyz0123456789"

  /** The random part's length when the caller gives none. */
  const DefaultLength: nat := 12

  predicate IsIdChar(c: char) {
    'a' <= c <= 'z' || '0' <= c <= '9'
  }

  predicate AllIdChars(s: string) {
    forall i :: 0 <= i < |s| ==> IsIdChar(s[i])
  }

  /** `randomString`: one character per byte, the byte reduced modulo 36 into `Chars`. */
  function RandomString(bytes: seq<byte>): (r: string)
    ensures |r| == |bytes| && AllIdChars(r)
    ensures forall i :: 0 <= i < |bytes| ==> r[i] == Chars[bytes[i] % 36]
  {
    seq(|bytes|, i requires 0 <= i < |bytes| => Chars[bytes[i] % 36])
  }

  /** The byte that `RandomString` turns into `c`: its position in `Chars`. */
  function CharByte(c: char): (b: byte)
    requires IsIdChar(c)
    ensures Chars[b % 36] == c
  {
    if c <= '9' then c as int - '0' as int + 26 else c as int - 'a' as int
  }

  /** Every string over `[a-z0-9]` is a possible random part: the generator reaches all of them. */
  lemma RandomStringOnto(s: string)
    requires AllIdChars(s)
    ensures var bytes := seq(|s|, i requires 0 <= i < |s| => CharByte(s[i]));
      RandomString(bytes) == s
  {
  }

  /** `generateId(prefix, length)`: the prefix, an underscore and `length` random characters. */
  function GenerateId(prefix: string, bytes: seq<byte>): (r: string)
    ensures |r| == |prefix| + 1 + |bytes|
    ensures StartsWith(r, prefix + "_") && AllIdChars(r[|prefix| + 1..])
  {
    prefix + "_" + RandomString(bytes)
  }

  /** `validateId(id, prefix)`: the regular expression `^prefix_[a-z0-9]{12,}$`, the prefix
      taken literally. */
  predicate ValidateId(id: string, prefix: string) {
    StartsWith(id, prefix + "_") && |id| - |prefix| - 1 >= DefaultLength && AllIdChars(id[|prefix| + 1..])
  }

  /** Every generated id with a random part of at least the default length validates. */
  lemma GeneratedIdValidates(prefix: string, bytes: seq<byte>)
    requires |bytes| >= DefaultLength
    ensures ValidateId(GenerateId(prefix, bytes), prefix)
  {
  }

  /** Conversely, every valid id is one the generator can produce. */
  lemma ValidIdIsGenerated(id: string, prefix: string)
    requires ValidateId(id, prefix)
    ensures var rest := id[|prefix| + 1..];
      var bytes := seq(|rest|, i requires 0 <= i < |rest| => CharByte(rest[i]));
      |bytes| >= DefaultLength && GenerateId(prefix, bytes) == id
  {
    var rest := id[|prefix| + 1..];
    RandomStringOnto(rest);
    assert id == id[..|prefix| + 1] + rest;
  }

  /** A random part shorter than the default never validates. */
  lemma ShortIdInvalid(prefix: string, bytes: seq<byte>)
    requires |bytes| < DefaultLength
    ensures !ValidateId(GenerateId(prefix, bytes), prefix)
  {
  }
}
