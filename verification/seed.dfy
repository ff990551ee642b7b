/**
 The three records the dashboard starts with, and concrete runs from that
 state.
 */
module SeedData {
  import opened ConsentRecords
  import opened Dashboard

  function SeedConsents(): seq<ConsentRecord> {
    [ ConsentRecord("1", "SecureBank", "2024-01-15",
                    ["Full Name", "Email Address", "Phone Number", "Address"],
                    Active, Some("2025-01-15")),
      ConsentRecord("2", "Healthcare Plus", "2024-02-20",
                    ["Full Name", "Date of Birth", "Address", "Marital Status"],
                    Active, None),
      ConsentRecord("3", "Job Portal Pro", "2024-01-10",
                    ["Full Name", "Email Address", "Job Position", "Employer"],
                    Revoked, None) ]
  }

  /** The dashboard when the view first opens: the seed list, nothing in flight. */
  function InitialState(): DashboardState {
    DashboardState(SeedConsents(), None)
  }

  /** The seed list has unique identifiers, two active records, one revoked
      record and three in total. */
  lemma SeedFacts()
    ensures UniqueIds(SeedConsents())
    ensures ActiveCount(InitialState()) == 2
    ensures RevokedCount(InitialState()) == 1
    ensures TotalCount(InitialState()) == 3
  {
  }

  /** Every state reachable from the initial one has unique identifiers, so
      the count lemmas apply to all of them. */
  lemma ReachableStatesHaveUniqueIds(es: seq<Event>)
    ensures UniqueIds(Run(InitialState(), es).consents)
  {
  }

  /** Revoking SecureBank (identifier "1"): while the action is pending the
      counts are unchanged and its button is disabled; once it completes the
      record is revoked, one record is active, two are revoked, and nothing
      is in flight. */
  lemma RevokeSecureBankScenario()
    ensures ActiveCount(Begin(InitialState(), "1")) == 2
    ensures RevokeButtonDisabled(Begin(InitialState(), "1"), SeedConsents()[0])
    ensures Run(InitialState(), [BeginRevoke("1"), CompleteRevoke("1")]).consents[0].status == Revoked
    ensures ActiveCount(Run(InitialState(), [BeginRevoke("1"), CompleteRevoke("1")])) == 1
    ensures RevokedCount(Run(InitialState(), [BeginRevoke("1"), CompleteRevoke("1")])) == 2
    ensures Run(InitialState(), [BeginRevoke("1"), CompleteRevoke("1")]).revoking == None
  {
  }

  /** Two overlapping actions share the one marker: after beginning "1" and
      then "2", only the button of "2" is disabled, and when "1" completes
      the marker is cleared although the revocation of "2" is still pending. */
  lemma OverlappingRevokesShareMarker()
    ensures !RevokeButtonDisabled(Run(InitialState(), [BeginRevoke("1"), BeginRevoke("2")]), SeedConsents()[0])
    ensures RevokeButtonDisabled(Run(InitialState(), [BeginRevoke("1"), BeginRevoke("2")]), SeedConsents()[1])
    ensures Run(InitialState(), [BeginRevoke("1"), BeginRevoke("2"), CompleteRevoke("1")]).revoking == None
    ensures Run(InitialState(), [BeginRevoke("1"), BeginRevoke("2"), CompleteRevoke("1")]).consents[1].status == Active
  {
  }
}
