/** Which identities establish that two copies are of the same finding. */
module CopyIdentity {

  const NIL_ID := "00000000-0000-0000-0000-000000000000"

  predicate IsHex(c: char) { '0' <= c <= '9' || 'a' <= c <= 'f' }

  /** A UUID in its canonical, lower-case form, and not the nil one. */
  predicate CanonicalId(id: string) {
    |id| == 36 && id != NIL_ID
    && forall i :: 0 <= i < 36 ==> if i == 8 || i == 13 || i == 18 || i == 23 then id[i] == '-' else IsHex(id[i])
  }

  predicate HexDigest(fingerprint: string) {
    |fingerprint| == 64 && forall i :: 0 <= i < 64 ==> IsHex(fingerprint[i])
  }

  predicate ValidIdentity(id: string, fingerprint: string) { CanonicalId(id) && HexDigest(fingerprint) }
}
