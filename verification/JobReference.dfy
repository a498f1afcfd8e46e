/** Signed opaque job references: `job.tenant.signature`. */
module JobReference {
  import opened Prelude
  import opened Base64Url

  /** A SHA-256 digest. The keyed hash itself is a parameter: any function from texts to digests. */
  type Digest = d: seq<Byte> | |d| == 32 witness seq(32, _ => 0)
  type Mac = string -> Digest

  /** The ways a reference is refused: wrong number of parts or an empty part, a signature the
      constant-time comparison cannot take because it is not ASCII, or a wrong signature. */
  datatype RefError = BadShape | NotAscii | BadSignature

  function Sign(mac: Mac, jobId: string, tenantId: string): string {
    var body := jobId + "." + tenantId;
    body + "." + Encode(mac(body))
  }

  /** Python's `text.rsplit(".", 1)[1]` for a text that holds a dot. */
  function AfterLastDot(text: string): string {
    var parts := Split(text, '.');
    parts[|parts| - 1]
  }

  function Verify(mac: Mac, reference: string): Result<(string, string), RefError> {
    var parts := Split(reference, '.');
    if |parts| != 3 || "" in parts then Err(BadShape)
    else
      var expected := AfterLastDot(Sign(mac, parts[0], parts[1]));
      if !Ascii(parts[2]) then Err(NotAscii)
      else if parts[2] != expected then Err(BadSignature)
      else Ok((parts[0], parts[1]))
  }

  /** What can stand between the dots of a reference. */
  predicate Plain(text: string) {
    text != "" && '.' !in text
  }

  /** A signed reference verifies to its own pair exactly when both identifiers are non-empty and
      dot-free; otherwise it is refused for its shape, whatever the key. */
  lemma SignVerifies(mac: Mac, jobId: string, tenantId: string)
    ensures Verify(mac, Sign(mac, jobId, tenantId))
            == if Plain(jobId) && Plain(tenantId) then Ok((jobId, tenantId)) else Err(BadShape)
  {
    var signature := Encode(mac(jobId + "." + tenantId));
    DotFree(mac(jobId + "." + tenantId));
    SplitThreeCount(jobId, tenantId, signature, '.');
    OnePartIffAbsent(jobId, '.');
    OnePartIffAbsent(tenantId, '.');
    if '.' !in jobId && '.' !in tenantId {
      SplitThree(jobId, tenantId, signature, '.');
      var parts := Split(Sign(mac, jobId, tenantId), '.');
      assert parts[0] == jobId && parts[1] == tenantId;
    }
  }

  /** Whatever Verify accepts is the signed form of the pair it returns. */
  lemma VerifiedIsSigned(mac: Mac, reference: string)
    requires Verify(mac, reference).Ok?
    ensures var (jobId, tenantId) := Verify(mac, reference).value;
            reference == Sign(mac, jobId, tenantId) && Plain(jobId) && Plain(tenantId)
  {
    var parts := Split(reference, '.');
    JoinSplit(reference, '.');
    JoinThree(parts, '.');
    DotFree(mac(parts[0] + "." + parts[1]));
    SplitThree(parts[0], parts[1], Encode(mac(parts[0] + "." + parts[1])), '.');
  }

  /** Of three non-empty parts, a last one that is not ASCII cannot be compared; any other that is not the signature of
      the first two is wrong; and any other number of parts, or an empty one, is refused for its shape. */
  lemma RefusedFor(mac: Mac, reference: string)
    ensures var parts := Split(reference, '.');
            var shaped := |parts| == 3 && parts[0] != "" && parts[1] != "" && parts[2] != "";
            && (Verify(mac, reference) == Err(BadShape) <==> !shaped)
            && (Verify(mac, reference) == Err(NotAscii) <==> shaped && exists i :: 0 <= i < |parts[2]| && parts[2][i] as int >= 128)
            && (Verify(mac, reference) == Err(BadSignature) ==> shaped && parts[2] != Encode(mac(parts[0] + "." + parts[1])))
  {
    var parts := Split(reference, '.');
    if |parts| == 3 && "" !in parts && parts[2] == Encode(mac(parts[0] + "." + parts[1])) {
      JoinSplit(reference, '.');
      DotFree(mac(parts[0] + "." + parts[1]));
      SplitThree(parts[0], parts[1], parts[2], '.');
    }
  }

  lemma EncodeIsInjective(a: seq<Byte>, b: seq<Byte>)
    ensures Encode(a) == Encode(b) <==> a == b
  {
    Base64Url.RoundTrip(a);
    Base64Url.RoundTrip(b);
  }

  /** The signature of one pair after the ids of another is accepted if and only if the keyed hash agrees on the two
      texts; else it is refused as a wrong signature. */
  lemma MovedIsRefusedIff(mac: Mac, jobId: string, tenantId: string, otherJob: string, otherTenant: string)
    requires Plain(otherJob) && Plain(otherTenant)
    ensures var moved := otherJob + "." + otherTenant + "." + Encode(mac(jobId + "." + tenantId));
            Verify(mac, moved)
            == if mac(jobId + "." + tenantId) == mac(otherJob + "." + otherTenant) then Ok((otherJob, otherTenant))
               else Err(BadSignature)
  {
    var signature, own := Encode(mac(jobId + "." + tenantId)), Encode(mac(otherJob + "." + otherTenant));
    DotFree(mac(jobId + "." + tenantId));
    DotFree(mac(otherJob + "." + otherTenant));
    SplitThree(otherJob, otherTenant, signature, '.');
    SplitThree(otherJob, otherTenant, own, '.');
    EncodeIsInjective(mac(jobId + "." + tenantId), mac(otherJob + "." + otherTenant));
  }
}
