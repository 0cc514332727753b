/**
Canonical artifacts and the references that name them.

SHA-256 and canonical JSON stay uninterpreted: a `Hashing` value carries the two digest
functions the store uses, and every result holds for all of them.  A result that needs
digests or serialization to be collision-free says so in its own `requires`.
*/
module Artifacts {

  type Bytes = seq<bv8>

  datatype Option<+T> = None | Some(value: T)

  /** `blob` digests a payload; `key` digests an artifact ID into an index file name. */
  datatype Hashing = Hashing(blob: Bytes -> string, key: string -> string)

  /** A stored reference.  Its two constant fields (profile and media type) are omitted. */
  datatype Ref = Ref(id: string, hash: string)

  /** A reference that also pins a version, used between governance records. */
  datatype VersionedRef = VersionedRef(id: string, version: string, hash: string)

  datatype Artifact = Artifact(id: string, payload: Bytes, hash: string) {
    function Reference(): Ref {
      Ref(id, hash)
    }
  }

  /** The record constructor's check: the hash field is the digest of the payload. */
  predicate WellFormed(h: Hashing, a: Artifact) {
    a.hash == h.blob(a.payload)
  }

  function MakeArtifact(h: Hashing, id: string, payload: Bytes): (a: Artifact)
    ensures WellFormed(h, a)
  {
    Artifact(id, payload, h.blob(payload))
  }
}
