/**
 The consent record of the consent-management dashboard: one data-sharing
 permission a user granted to a named service, and the facts about a list of
 such records that the other modules rely on.
 */
module ConsentRecords {

  /** An optional value, used for the expiry date and for the in-flight marker. */
  datatype Option<+T> = None | Some(value: T)

  /** A permission is either still in force or has been withdrawn. */
  datatype Status = Active | Revoked

  type ConsentId = string

  /** One consent record. Dates are kept as the date-only strings the
      dashboard stores (for example "2024-01-15"); they are never parsed. */
  datatype ConsentRecord = ConsentRecord(
    id: ConsentId,
    serviceName: string,
    dateGranted: string,
    dataShared: seq<string>,
    status: Status,
    expiryDate: Option<string>
  )

  /** `b` is `a` with at most its status replaced: every other field agrees. */
  predicate SameExceptStatus(a: ConsentRecord, b: ConsentRecord) {
    a.(status := b.status) == b
  }

  /** Some record of `cs` carries identifier `id`. */
  predicate HasId(cs: seq<ConsentRecord>, id: ConsentId) {
    exists i :: 0 <= i < |cs| && cs[i].id == id
  }

  /** No two positions of `cs` carry the same identifier. */
  predicate UniqueIds(cs: seq<ConsentRecord>) {
    forall i, j :: 0 <= i < |cs| && 0 <= j < |cs| && cs[i].id == cs[j].id ==> i == j
  }
}
