# Consent dashboard: a Dafny model

This project models the consent-management dashboard of a consent-sharing demo site. The dashboard keeps an in-memory list of consent records. Each record is a permission a user granted to a named service, and it is either active or revoked. The dashboard derives two views from the list, the active records and the revoked records, and shows their sizes next to the total. It offers one action, revoke, which works in two steps. It first marks one identifier as "currently revoking". After a simulated delay it marks every record carrying that identifier as revoked and clears the marker.

Modules:

- `ConsentRecords` (`records.dfy`): the record datatype (identifier, service name, grant date, shared-field labels, status, optional expiry date). It also defines what "only the status changed" and "identifiers are unique" mean.
- `Revocation` (`revocation.dfy`): the revoke map over the list (`Revoke`), with its frame, idempotence and no-op facts.
- `Partition` (`partition.dfy`): the two status filters and the facts about them. The filters partition the list and keep its order. Revoking an active or an already revoked record changes the counts in a known way.
- `Dashboard` (`dashboard.dfy`): the state (record list plus the single in-flight marker). It also holds the two halves of the revoke action as events, `Run` (a run of events), the disabled-button condition and the three counters.
- `SeedData` (`seed.dfy`): the three records the dashboard starts with, and concrete scenarios about them.

The completion step carries the identifier its action was started with. In the source, the delayed callback captures its own `consentId` and never reads the marker. A completion therefore clears the marker even when a later action on another record is still pending. `SeedData.OverlappingRevokesShareMarker` shows this with the seed list.

The code never checks that the identifier is present; an absent identifier matches nothing, and `Revocation.RevokeAbsentIsIdentity` proves the list is then unchanged.

## Model

| member | source | states |
|---|---|---|
| `Revocation.Revoke` | src/pages/ConsentManagement.tsx:60-64 | The result has the same length and order as the input. Every record keeps all its fields except possibly its status. Every record whose id equals the argument is revoked. Every other record is returned exactly as it was. The transition is one-way: afterwards a record is revoked exactly when it was revoked before or carries the id. |
| `Revocation.RevokeAbsentIsIdentity` | src/pages/ConsentManagement.tsx:60-64 | Revoking an id that no record carries returns the list unchanged. |
| `Revocation.RevokeIdempotent` | src/pages/ConsentManagement.tsx:60-64 | Revoking the same id twice gives the same list as revoking it once. |
| `Revocation.RevokeCommutes` | src/pages/ConsentManagement.tsx:59-66 | Two pending revocations give the same list whichever delayed update runs first. |
| `Partition.WithStatus` | src/pages/ConsentManagement.tsx:69-70 | The filtered list holds only records of the requested status. It is a subsequence of the source list, so it keeps the source order. |
| `Partition.WithStatusMembers` | src/pages/ConsentManagement.tsx:69-70 | A record is in a filtered list exactly when it is in the source list with the requested status. |
| `Partition.PartitionMultiset` | src/pages/ConsentManagement.tsx:69-70 | The active list and the revoked list together are, as a multiset, exactly the full list. |
| `Partition.PartitionCounts` | src/pages/ConsentManagement.tsx:117-145 | The active count plus the revoked count is the total shown, and no record is in both views. |
| `Partition.EmptyViews` | src/pages/ConsentManagement.tsx:162-230 | The active table is replaced by its empty-state message exactly when every record is revoked. The revoked section is hidden exactly when every record is active. |
| `Partition.RevokeActiveShiftsCounts` | src/pages/ConsentManagement.tsx:60-70 | With unique ids, revoking an active record's id lowers the active count by one and raises the revoked count by one. |
| `Partition.RevokeRevokedIsNoOp` | src/pages/ConsentManagement.tsx:60-70 | With unique ids, revoking an already revoked record's id leaves the list and both counts unchanged. |
| `Dashboard.Begin` | src/pages/ConsentManagement.tsx:55-56 | Beginning an action changes no record. Afterwards a record's button is disabled exactly when the record carries the begun id. |
| `Dashboard.Complete` | src/pages/ConsentManagement.tsx:59-66 | The delayed update clears the marker, keeps the list's length and every field but status, and leaves a record revoked exactly when it was revoked before or carries the action's id. |
| `Dashboard.Step` | src/pages/ConsentManagement.tsx:55-66 | One event leaves the marker its kind dictates (the begun id, or none after a completion), changes no field but status, and revokes only records carrying a completion's id. |
| `Dashboard.Run` | src/pages/ConsentManagement.tsx:53-67 | Over any run of begin and complete steps, the list keeps its length and every record keeps every field but its status. A record ends revoked exactly when it started revoked or a completion for its id occurred, so no step turns revoked into active. The marker is set by the last step alone: a begin leaves its id, a completion leaves none. |
| `Dashboard.BeginOverwrites` | src/pages/ConsentManagement.tsx:53-56 | The marker holds one id, so a later begin overwrites an earlier one. |
| `Dashboard.BeginThenComplete` | src/pages/ConsentManagement.tsx:55-66 | A begin followed by its completion revokes the id in the list and leaves no marker. |
| `Dashboard.AtMostOneButtonDisabled` | src/pages/ConsentManagement.tsx:209-213 | With unique ids, at most one record's revoke button is disabled at a time. |
| `Dashboard.RunKeepsUniqueIds` | src/pages/ConsentManagement.tsx:55-67 | No run of steps adds, removes or renames a record, so ids that start unique stay unique. |
| `Dashboard.CompleteActiveShiftsCounts` | src/pages/ConsentManagement.tsx:59-70 | With unique ids, completing the revocation of an active record moves one from the active count to the revoked count. The total is kept and the marker is cleared. |
| `SeedData.SeedFacts` | src/pages/ConsentManagement.tsx:28-51 | The seed list has unique ids, 2 active records, 1 revoked record and 3 in total. |
| `SeedData.ReachableStatesHaveUniqueIds` | src/pages/ConsentManagement.tsx:28-67 | Every state reached from the seed state by any run has unique ids, so the count lemmas apply to every such state. |
| `SeedData.RevokeSecureBankScenario` | src/pages/ConsentManagement.tsx:28-66 | Revoking id "1" (SecureBank) from the seed state goes through two stages. While pending, the active count is still 2 and its button is disabled. After completion the record is revoked, the counts are 1 active and 2 revoked, and no marker is left. |
| `SeedData.OverlappingRevokesShareMarker` | src/pages/ConsentManagement.tsx:53-66 | Begin "1" then begin "2": only the button of "2" is disabled. The completion of "1" then clears the marker while "2" is still active and pending. |

## Left out

- The setTimeout delay of 1500 ms and the scheduling of React state updates. The two halves of an action are separate events, and any events may fall between them.
- Runs of events are not restricted to those the page can produce. A completion with no earlier begin, a begin for a record without a rendered button (revoked or absent), and completions out of begin order (which the fixed delay rules out) are all allowed. The contracts hold for every run, so they hold for the reachable ones in particular.
- `formatDate`: it relies on the host's date parsing and locale formatting. Dates stay unparsed strings.
- All rendering: the layout, styles, icons, UI-kit components and the table rows. The only parts of it that are modelled are the three counters, the empty-state conditions of the two tables and the disabled-button condition.
- Navigation to the data-pod view (a route change with no payload).
- The flow-visualization section (src/components/ConsentFlowVisualization.tsx). It holds only literal display data and does no computation.
- The page never checks that identifiers are unique. The count lemmas assume it. The seed list is proved to satisfy it, and every run is proved to preserve it (`SeedData.ReachableStatesHaveUniqueIds`).
