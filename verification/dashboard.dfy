/**
 The dashboard's state and its revoke action. The action runs in two
 discrete steps: it first marks the record as in flight, and later, when the
 simulated delay has elapsed, it applies the revoke map and clears the marker.
 The delay itself is not modelled; any number of other steps may fall between
 the two halves of one action.
 */
module Dashboard {
  import opened ConsentRecords
  import opened Revocation
  import opened Partition

  /** The record list and the single "currently revoking" identifier. */
  datatype DashboardState = DashboardState(consents: seq<ConsentRecord>, revoking: Option<ConsentId>)

  /** The two halves of one revoke action. The completion carries the
      identifier the action was started with, not the current marker. */
  datatype Event = BeginRevoke(id: ConsentId) | CompleteRevoke(id: ConsentId)

  /** First half: mark `id` as in flight. No record changes; from now on
      exactly the records carrying `id` show a disabled button. */
  function Begin(d: DashboardState, id: ConsentId): (r: DashboardState)
    ensures r.consents == d.consents
    ensures forall c :: RevokeButtonDisabled(r, c) <==> c.id == id
  {
    d.(revoking := Some(id))
  }

  /** Second half: apply the revoke map for `id` and clear the marker. */
  function Complete(d: DashboardState, id: ConsentId): (r: DashboardState)
    ensures r.revoking == None
    ensures |r.consents| == |d.consents|
    ensures forall i :: 0 <= i < |d.consents| ==> SameExceptStatus(d.consents[i], r.consents[i])
    ensures forall i :: 0 <= i < |d.consents| ==>
              (r.consents[i].status == Revoked <==> d.consents[i].status == Revoked || d.consents[i].id == id)
  {
    DashboardState(Revoke(d.consents, id), None)
  }

  /** One event: a begin only moves the marker, a completion may only
      revoke records carrying its identifier. */
  function Step(d: DashboardState, e: Event): (r: DashboardState)
    ensures r.revoking == MarkerAfter(e)
    ensures |r.consents| == |d.consents|
    ensures forall i :: 0 <= i < |d.consents| ==> SameExceptStatus(d.consents[i], r.consents[i])
    ensures forall i :: 0 <= i < |d.consents| ==>
              (r.consents[i].status == Revoked <==>
               d.consents[i].status == Revoked || (e.CompleteRevoke? && d.consents[i].id == e.id))
  {
    match e
    case BeginRevoke(id) => Begin(d, id)
    case CompleteRevoke(id) => Complete(d, id)
  }

  /** The marker an event leaves behind. */
  function MarkerAfter(e: Event): Option<ConsentId> {
    match e
    case BeginRevoke(id) => Some(id)
    case CompleteRevoke(_) => None
  }

  /** The identifiers whose revocation completed somewhere in `es`. */
  function CompletedIds(es: seq<Event>): set<ConsentId> {
    set e | e in es && e.CompleteRevoke? :: e.id
  }

  /** The state after the events `es`, applied in order. */
  function Run(d: DashboardState, es: seq<Event>): (r: DashboardState)
    ensures |r.consents| == |d.consents|
    // no step touches anything but a status
    ensures forall i :: 0 <= i < |d.consents| ==> SameExceptStatus(d.consents[i], r.consents[i])
    // a record ends revoked exactly when it started revoked or a revocation of its id completed
    ensures forall i :: 0 <= i < |d.consents| ==>
              (r.consents[i].status == Revoked <==>
               d.consents[i].status == Revoked || d.consents[i].id in CompletedIds(es))
    // the marker depends on the last event only: the latest call wins
    ensures |es| > 0 ==> r.revoking == MarkerAfter(es[|es| - 1])
    ensures |es| == 0 ==> r == d
    decreases |es|
  {
    if |es| == 0 then d else Run(Step(d, es[0]), es[1..])
  }

  /** The condition under which a record's revoke button is disabled and
      reads "Revoking...". */
  predicate RevokeButtonDisabled(d: DashboardState, c: ConsentRecord) {
    d.revoking == Some(c.id)
  }

  /** A later begin overwrites an earlier one. */
  lemma BeginOverwrites(d: DashboardState, a: ConsentId, b: ConsentId)
    ensures Begin(Begin(d, a), b) == Begin(d, b)
    ensures Begin(Begin(d, a), b).revoking == Some(b)
  {
  }

  /** One complete action: begin then complete revokes the record and leaves
      no marker; the pending state in between changes no record. */
  lemma BeginThenComplete(d: DashboardState, id: ConsentId)
    ensures Run(d, [BeginRevoke(id), CompleteRevoke(id)]) == DashboardState(Revoke(d.consents, id), None)
  {
  }

  /** With unique identifiers, at most one record's button is disabled. */
  lemma AtMostOneButtonDisabled(d: DashboardState, i: int, j: int)
    requires UniqueIds(d.consents)
    requires 0 <= i < |d.consents| && 0 <= j < |d.consents|
    requires RevokeButtonDisabled(d, d.consents[i]) && RevokeButtonDisabled(d, d.consents[j])
    ensures i == j
  {
  }

  /** No step adds, removes or renames a record, so identifiers that start
      unique stay unique in every state a run reaches. */
  lemma RunKeepsUniqueIds(d: DashboardState, es: seq<Event>)
    requires UniqueIds(d.consents)
    ensures UniqueIds(Run(d, es).consents)
  {
  }

  /** The three numbers on the dashboard: active, revoked and total. */
  function ActiveCount(d: DashboardState): nat { |ActiveConsents(d.consents)| }
  function RevokedCount(d: DashboardState): nat { |RevokedConsents(d.consents)| }
  function TotalCount(d: DashboardState): nat { |d.consents| }

  /** Completing the revocation of an active record, identifiers unique,
      moves one from the active count to the revoked count; the total stays. */
  lemma CompleteActiveShiftsCounts(d: DashboardState, k: int)
    requires UniqueIds(d.consents)
    requires 0 <= k < |d.consents| && d.consents[k].status == Active
    ensures ActiveCount(Complete(d, d.consents[k].id)) == ActiveCount(d) - 1
    ensures RevokedCount(Complete(d, d.consents[k].id)) == RevokedCount(d) + 1
    ensures TotalCount(Complete(d, d.consents[k].id)) == TotalCount(d)
    ensures Complete(d, d.consents[k].id).revoking == None
  {
    RevokeActiveShiftsCounts(d.consents, k);
  }
}
