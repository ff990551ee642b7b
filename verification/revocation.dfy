/**
 The state change of the revoke action: a map over the record list that marks
 every record carrying the given identifier as revoked and passes every other
 record through untouched.
 */
module Revocation {
  import opened ConsentRecords

  /** The per-record step of the map: a matching record is copied with its
      status set to revoked, any other record is returned as it is. */
  function RevokeIfMatch(c: ConsentRecord, id: ConsentId): ConsentRecord {
    if c.id == id then c.(status := Revoked) else c
  }

  /** The revoke map over the whole list, element by element in order. */
  function Revoke(cs: seq<ConsentRecord>, id: ConsentId): (r: seq<ConsentRecord>)
    ensures |r| == |cs|
    // only the status field of any record may change
    ensures forall i :: 0 <= i < |cs| ==> SameExceptStatus(cs[i], r[i])
    // every record carrying the identifier ends up revoked
    ensures forall i :: 0 <= i < |cs| && cs[i].id == id ==> r[i].status == Revoked
    // every other record is left exactly as it was
    ensures forall i :: 0 <= i < |cs| && cs[i].id != id ==> r[i] == cs[i]
    // the transition is one-way: a record is revoked afterwards exactly when
    // it was revoked before or carries the identifier
    ensures forall i :: 0 <= i < |cs| ==>
              (r[i].status == Revoked <==> cs[i].status == Revoked || cs[i].id == id)
  {
    if |cs| == 0 then [] else [RevokeIfMatch(cs[0], id)] + Revoke(cs[1..], id)
  }

  /** Revoking an identifier that no record carries changes nothing. */
  lemma RevokeAbsentIsIdentity(cs: seq<ConsentRecord>, id: ConsentId)
    requires !HasId(cs, id)
    ensures Revoke(cs, id) == cs
  {
  }

  /** Revoking twice is the same as revoking once. */
  lemma RevokeIdempotent(cs: seq<ConsentRecord>, id: ConsentId)
    ensures Revoke(Revoke(cs, id), id) == Revoke(cs, id)
  {
  }

  /** Two revocations give the same list whichever completes first. */
  lemma RevokeCommutes(cs: seq<ConsentRecord>, a: ConsentId, b: ConsentId)
    ensures Revoke(Revoke(cs, a), b) == Revoke(Revoke(cs, b), a)
  {
  }
}
