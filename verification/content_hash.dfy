/** Content integrity for delivered files: the SHA-256 digest in hex, the object-store key,
    upload with the digest kept as metadata, and re-verification against that metadata. */
module ContentHash {
  import opened Wrappers
  import opened Bytes
  import opened Text
  import opened Decimal
  import opened Types
  import Clock
  import Crypto
  import Hex

  /** `computeContentHash`: the digest of the bytes in lower-case hex. */
  function ComputeContentHash(sha: Crypto.Sha256, data: seq<byte>): (r: string)
    ensures |r| == 64 && Hex.IsLowerHex(r)
    ensures Hex.Decode(r) == Some(sha(data))
  {
    Hex.DecodeEncode(sha(data));
    Hex.Encode(sha(data))
  }

  /** Equal hex digests mean equal digests. */
  lemma HashesAgree(sha: Crypto.Sha256, a: seq<byte>, b: seq<byte>)
    ensures ComputeContentHash(sha, a) == ComputeContentHash(sha, b) <==> sha(a) == sha(b)
  {
    if ComputeContentHash(sha, a) == ComputeContentHash(sha, b) {
      Hex.EncodeInjective(sha(a), sha(b));
    }
  }

  const KeyRoot: string := "submissions"

  /** `submissions/{task_id}/{submission_id}/{timestamp}-{file name}`. */
  function StorageKey(taskId: string, submissionId: string, timestamp: nat, fileName: string): (r: string)
    ensures EndsWith(r, "-" + fileName)
  {
    KeyRoot + "/" + taskId + "/" + submissionId + "/" + NatToDecimal(timestamp) + "-" + fileName
  }

  /** With slash-free ids the key's path segments are the root, the task, the submission, and
      then the segments of `{timestamp}-{file name}`. */
  lemma StorageKeySegments(taskId: string, submissionId: string, timestamp: nat, fileName: string)
    requires '/' !in taskId && '/' !in submissionId
    ensures Split(StorageKey(taskId, submissionId, timestamp, fileName), '/') ==
            [KeyRoot, taskId, submissionId] + Split(NatToDecimal(timestamp) + "-" + fileName, '/')
  {
    var rest := NatToDecimal(timestamp) + "-" + fileName;
    assert StorageKey(taskId, submissionId, timestamp, fileName) ==
           KeyRoot + ['/'] + (taskId + ['/'] + (submissionId + ['/'] + rest));
    SplitThreeFields(KeyRoot, taskId, submissionId, rest, '/');
  }

  /** A delivered file: its name, its declared media type (`""` when none) and its bytes. */
  datatype UploadFile = UploadFile(name: string, mediaType: string, data: seq<byte>)

  datatype UploadResult = UploadResult(key: string, hash: string, size: nat)

  const DefaultMediaType: string := "application/octet-stream"

  /** The custom metadata stored with a submission object: every field present. */
  function UploadMetadata(file: UploadFile, taskId: string, submissionId: string, hash: string, now: nat): (m: ObjectMetadata)
    ensures m.contentHash == Some(hash) && m.originalName == Some(file.name)
    ensures m.taskId == Some(taskId) && m.submissionId == Some(submissionId)
    ensures m.contentType == Some(if file.mediaType == "" then DefaultMediaType else file.mediaType)
    ensures m.size == Some(NatToDecimal(|file.data|)) && m.uploadTime == Some(Clock.IsoText(now))
  {
    ObjectMetadata(Some(taskId), Some(submissionId), Some(file.name), Some(hash), Some(Clock.IsoText(now)),
                   Some(if file.mediaType == "" then DefaultMediaType else file.mediaType),
                   Some(NatToDecimal(|file.data|)))
  }

  /** `uploadSubmissionWithHash`: stores exactly the file's bytes under the new key (replacing any
      object there) with the digest of those bytes as metadata, and reports that key, that
      digest and the byte length. No other object changes. */
  function Upload(sha: Crypto.Sha256, blobs: map<string, Blob>, file: UploadFile, taskId: string,
                  submissionId: string, now: nat): (r: (map<string, Blob>, UploadResult))
    ensures r.1.key == StorageKey(taskId, submissionId, now, file.name)
    ensures r.1.hash == ComputeContentHash(sha, file.data) && r.1.size == |file.data|
    ensures r.1.key in r.0 && r.0[r.1.key].data == file.data
    ensures r.0[r.1.key].metadata == UploadMetadata(file, taskId, submissionId, r.1.hash, now)
    ensures r.0.Keys == blobs.Keys + {r.1.key}
    ensures forall k :: k in blobs && k != r.1.key ==> r.0[k] == blobs[k]
  {
    var hash := ComputeContentHash(sha, file.data);
    var key := StorageKey(taskId, submissionId, now, file.name);
    (blobs[key := Blob(file.data, UploadMetadata(file, taskId, submissionId, hash, now))],
     UploadResult(key, hash, |file.data|))
  }

  /** The verdict of an integrity check. */
  datatype Integrity = Intact | Broken(reason: string)

  const NotFound: string := "File not found in storage"
  const NoHash: string := "No hash metadata found"
  const Mismatch: string := "Hash mismatch - file may be corrupted or tampered with"

  /** `verifySubmissionIntegrity`: the object must exist, carry a non-empty `content_hash`, and
      that hash must equal the digest of its current bytes. */
  function VerifyIntegrity(sha: Crypto.Sha256, blobs: map<string, Blob>, key: string): (r: Integrity)
    ensures key !in blobs ==> r == Broken(NotFound)
    ensures key in blobs && !Truthy(blobs[key].metadata.contentHash) ==> r == Broken(NoHash)
    ensures r == Intact <==> key in blobs &&
                             blobs[key].metadata.contentHash == Some(ComputeContentHash(sha, blobs[key].data))
    ensures r != Intact ==> r == Broken(NotFound) || r == Broken(NoHash) || r == Broken(Mismatch)
  {
    if key !in blobs then Broken(NotFound)
    else
      var b := blobs[key];
      if !Truthy(b.metadata.contentHash) then Broken(NoHash)
      else if b.metadata.contentHash.value != ComputeContentHash(sha, b.data) then Broken(Mismatch)
      else Intact
  }

  /** Verifying an object right after uploading it, with its bytes untouched, finds it intact. */
  lemma UploadThenVerify(sha: Crypto.Sha256, blobs: map<string, Blob>, file: UploadFile, taskId: string,
                         submissionId: string, now: nat)
    ensures var (blobs', res) := Upload(sha, blobs, file, taskId, submissionId, now);
            VerifyIntegrity(sha, blobs', res.key) == Intact
  {
  }

  /** Replacing the stored bytes by bytes with a different digest is detected. */
  lemma TamperingDetected(sha: Crypto.Sha256, blobs: map<string, Blob>, key: string, forged: seq<byte>)
    requires VerifyIntegrity(sha, blobs, key) == Intact
    requires sha(forged) != sha(blobs[key].data)
    ensures VerifyIntegrity(sha, blobs[key := blobs[key].(data := forged)], key) == Broken(Mismatch)
  {
    HashesAgree(sha, forged, blobs[key].data);
  }
}
