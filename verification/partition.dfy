/**
 The two derived views of the dashboard: the records still active and the
 records already revoked, each a filter of the full list by status, and the
 counts the dashboard shows beside the total.
 */
module Partition {
  import opened ConsentRecords
  import opened Revocation

  /** `a` is obtained from `b` by deleting elements: the elements of `a`
      appear in `b` in the same relative order. */
  predicate SubsequenceOf<T(==)>(a: seq<T>, b: seq<T>)
    decreases |b|
  {
    |a| == 0 ||
    (|b| > 0 && ((a[0] == b[0] && SubsequenceOf(a[1..], b[1..])) || SubsequenceOf(a, b[1..])))
  }

  /** The records of `cs` whose status is `s`, in their order in `cs`. */
  function WithStatus(cs: seq<ConsentRecord>, s: Status): (r: seq<ConsentRecord>)
    ensures forall k :: 0 <= k < |r| ==> r[k].status == s
    ensures SubsequenceOf(r, cs)
  {
    if |cs| == 0 then []
    else if cs[0].status == s then [cs[0]] + WithStatus(cs[1..], s)
    else WithStatus(cs[1..], s)
  }

  /** The list shown in the "Active Consents" table. */
  function ActiveConsents(cs: seq<ConsentRecord>): seq<ConsentRecord> {
    WithStatus(cs, Active)
  }

  /** The list shown in the "Revoked Consents" table. */
  function RevokedConsents(cs: seq<ConsentRecord>): seq<ConsentRecord> {
    WithStatus(cs, Revoked)
  }

  /** A record is in the filtered list exactly when it is in the source
      list with the requested status. */
  lemma {:induction false} WithStatusMembers(cs: seq<ConsentRecord>, s: Status)
    ensures forall c :: c in WithStatus(cs, s) <==> c in cs && c.status == s
  {
    if |cs| > 0 {
      WithStatusMembers(cs[1..], s);
      assert cs == [cs[0]] + cs[1..];
    }
  }

  /** Filtering a list with one more record in front. */
  lemma WithStatusCons(c: ConsentRecord, rest: seq<ConsentRecord>, s: Status)
    ensures WithStatus([c] + rest, s) == (if c.status == s then [c] else []) + WithStatus(rest, s)
  {
  }

  /** The two views partition the list: as multisets they add up to the
      whole list. */
  lemma {:induction false} PartitionMultiset(cs: seq<ConsentRecord>)
    ensures multiset(ActiveConsents(cs)) + multiset(RevokedConsents(cs)) == multiset(cs)
  {
    if |cs| > 0 {
      var c, rest := cs[0], cs[1..];
      PartitionMultiset(rest);
      assert cs == [c] + rest;
      WithStatusCons(c, rest, Active);
      WithStatusCons(c, rest, Revoked);
      assert multiset(cs) == multiset{c} + multiset(rest);
    }
  }

  /** The counts the dashboard shows add up: active plus revoked is the
      total, and no record appears in both views. */
  lemma PartitionCounts(cs: seq<ConsentRecord>)
    ensures |ActiveConsents(cs)| + |RevokedConsents(cs)| == |cs|
    ensures forall c :: !(c in ActiveConsents(cs) && c in RevokedConsents(cs))
  {
    PartitionMultiset(cs);
    assert |multiset(ActiveConsents(cs)) + multiset(RevokedConsents(cs))| == |multiset(cs)|;
  }

  /** The active table gives way to its empty-state message exactly when
      every record is revoked, and the revoked section is hidden exactly
      when every record is active. */
  lemma EmptyViews(cs: seq<ConsentRecord>)
    ensures |ActiveConsents(cs)| == 0 <==> forall i :: 0 <= i < |cs| ==> cs[i].status == Revoked
    ensures |RevokedConsents(cs)| == 0 <==> forall i :: 0 <= i < |cs| ==> cs[i].status == Active
  {
    WithStatusMembers(cs, Active);
    WithStatusMembers(cs, Revoked);
    if |ActiveConsents(cs)| > 0 {
      assert ActiveConsents(cs)[0] in ActiveConsents(cs);
    }
    if |RevokedConsents(cs)| > 0 {
      assert RevokedConsents(cs)[0] in RevokedConsents(cs);
    }
  }

  /** With unique identifiers, revoking the identifier of an active record
      moves exactly that record from the active view to the revoked view. */
  lemma {:induction false} RevokeActiveShiftsCounts(cs: seq<ConsentRecord>, k: int)
    requires UniqueIds(cs)
    requires 0 <= k < |cs| && cs[k].status == Active
    ensures |ActiveConsents(Revoke(cs, cs[k].id))| == |ActiveConsents(cs)| - 1
    ensures |RevokedConsents(Revoke(cs, cs[k].id))| == |RevokedConsents(cs)| + 1
  {
    var id := cs[k].id;
    var rest := cs[1..];
    assert cs == [cs[0]] + rest;
    assert Revoke(cs, id) == [RevokeIfMatch(cs[0], id)] + Revoke(rest, id);
    WithStatusCons(cs[0], rest, Active);
    WithStatusCons(cs[0], rest, Revoked);
    WithStatusCons(RevokeIfMatch(cs[0], id), Revoke(rest, id), Active);
    WithStatusCons(RevokeIfMatch(cs[0], id), Revoke(rest, id), Revoked);
    if k == 0 {
      assert !HasId(rest, id) by {
        forall j | 0 <= j < |rest| ensures rest[j].id != id {
          assert rest[j] == cs[j + 1];
        }
      }
      RevokeAbsentIsIdentity(rest, id);
    } else {
      assert cs[0].id != id;
      assert UniqueIds(rest) by {
        forall i, j | 0 <= i < |rest| && 0 <= j < |rest| && rest[i].id == rest[j].id ensures i == j {
          assert cs[i + 1].id == cs[j + 1].id;
        }
      }
      assert rest[k - 1] == cs[k];
      RevokeActiveShiftsCounts(rest, k - 1);
    }
  }

  /** With unique identifiers, revoking the identifier of a record that is
      already revoked leaves the list, and so both counts, unchanged. */
  lemma RevokeRevokedIsNoOp(cs: seq<ConsentRecord>, k: int)
    requires UniqueIds(cs)
    requires 0 <= k < |cs| && cs[k].status == Revoked
    ensures Revoke(cs, cs[k].id) == cs
    ensures |ActiveConsents(Revoke(cs, cs[k].id))| == |ActiveConsents(cs)|
    ensures |RevokedConsents(Revoke(cs, cs[k].id))| == |RevokedConsents(cs)|
  {
  }
}
