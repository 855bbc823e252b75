# LabProbe Hub, modelled and proved

A Dafny model of the stateful cores of LabProbe Hub (a Flask service that watches a home router)
and proofs about whole runs of them. `dafny verify dfyconfig.toml` checks the project.

Code that changes state in the original is a class or a method here (`SQLiteStore`,
`FirewallAutomationService`, `LabDdnsStore`, `Hub`, `WireGuardService`, `RouterControlActor`,
`DurableDeviceHistory`, `DailyStore`, `TrafficField`, the diff, filter and merge loops). Each such
method is proved equal to a specification function on values, and the theorems over runs are lemmas
about those functions. What the functions decide is stated a second time in terms of fields, values
and times alone (`RevisionFields`, `FirewallMeaning`, `DdnsSends`, `PortMapStored`, `WireGuardPayload`,
`DailyKept`), and the main theorems conclude in those terms. Every request handler is one atomic step,
as the Hub holds its data lock per request; only the control actor and the two phases of a DNS update
interleave inside a call.

## What is modelled

| files | subject |
|---|---|
| `Json`, `RevisionLog`, `RevisionSnapshot`, `RevisionSync`, `RevisionFields`, `Store` | document diffs, the full snapshot, the numbered and pruned change log, paging, a following client, and which fields it gets |
| `FirewallFollow`, `FirewallMeaning`, `FirewallSafety`, `FirewallLiveness`, `FirewallService` | the reconciler that lets firewall rules follow a mapping's address |
| `Ddns`, `DdnsGate`, `DdnsSends`, `DdnsStore` | DNS records: samples, stability trackers, backoff, two-phase updates, restarts; what may be sent and what is |
| `PortMapRules`, `PortMapStored`, `PortMapSync`, `PortMapConvergence`, `PortMapRounds`, `PortMapOrder`, `PortMapAck`, `PortMapHub` | desired port-map rules, the command queue, the agent and reconciliation |
| `WireGuard`, `WireGuardPayload`, `WireGuardService` | configuration commands fenced by revisions, and what they carry |
| `ControlActor` | concurrent submitters, a bounded priority queue and one worker |
| `TrafficCounter`, `DeviceTransitions`, `DailyOnline`, `DailyEvents`, `DailyKept` | daily accounting and event filtering |
| `DashboardMerge` | the recursive merge of dashboard payloads |
| `PagedFetch`, `Wrappers` | the fetch loop both command queues run; optional values |

## What the proofs found

Several properties one would expect are false of the code as written. Each is kept as the code has
it, shown false by a concrete run, and replaced by the condition under which it holds.

- Incremental sync: the log speaks of a list row by its key and sees only the last row with a key,
  while a snapshot hands out lists. All events of a device share its MAC address as key, so deleting
  any but the last of them is not logged at all, and no client that polls can learn of it
  (`EventDeletionIsSilent`; a deletion is logged if and only if the event is the last with its key,
  `EventDeletionLoggedIff`). With the last one deleted a snapshot still shows the earlier ones, of which
  the log knows nothing (`DeletedNewestHides`).
- Incremental sync: a client that is told there is no more agrees with the documents on an entity if
  and only if its snapshot did or a row issued since concerns the entity (`SyncIsComplete`, from any
  position of at least 1). The snapshot agrees on a list row if and only if the last row it shows with
  the key is the last with the key (`SnapshotAgreesAtIff`). A client that follows a whole list shows it as
  a fresh snapshot would if and only if each row shown is the last with its key (`SyncedListsIff`).
- Incremental sync: a log emptied by age reports revision 0, and a client that stored position 0 is
  later told "nothing new" although an event was added and pruned (`PositionZeroGoesStale`). After that
  reply it agrees on what it follows exactly where the rows it never got change nothing
  (`EmptyLogReply`).
- Age pruning by wall clock: a clock set back leaves a hole in the log, and a row is lost without a
  resync (`BackwardClockLosesRow`): pruning leaves a suffix if and only if the rows that are too old come
  first (`KeepRecentIsSuffixIff`). Replies are exact if and only if the log has no hole
  (`ExactIffGapless`).
- Port maps: creating a rule with an id already in use duplicates it; an accepted create keeps the
  store consistent if and only if its id is unused (`CreateNeedsFreshId`).
- Port maps: the command queue is not last-writer-wins, as a command that is revived keeps its old
  place (`QueueOrderIsNotEnough`). Whether the command just queued has the last word is decided by what
  is deliverable behind it (`UpsertPrevailsIff`, `DeletePrevailsIff`, `StopPrevailsIff`).
- Port maps: an edit that arrives between a delivery and its acknowledgement is lost until the next
  report: it is put into the delivered command, which the acknowledgement then finishes (`EditIsLost`).
  A delivered command is still as it was handed out if and only if no request revived it
  (`DeliveredIffUnrevived`, `AcknowledgedIff`).
- Port maps: with a full queue the truncation can cut a correction, so two reconcile rounds are not
  enough (`FullQueueCutsACorrection`). Two rounds suffice if and only if every correction of the first
  report stayed queued (`TwoRoundsIffNothingCut`); three do unless an agent reports more than five
  hundred wrong rules (`ThreeRounds`), and for any agent the rounds converge (`RoundsConverge`).
- DNS: a create request that brings its own `stability` walks around the two-sample gate
  (`SuppliedTrackerSends`). The updates it allows at once are sound if and only if a supplied count of
  two is backed by the samples (`CreateSendsIff`); whatever follows, if and only if the request counts
  nothing, or once for an empty or published candidate (`SafeForeverIff`).
- DNS: a sample time reused for a different address does too (`RepeatedTimeSends`); what may be sent
  stays seen twice if and only if the repeat shows the same address wherever one can be sent
  (`RepeatedTimeIff`).
- DNS: phase two records a skipped type's detected address as published although it was never sent,
  and then never sends it (`SkippedAddressIsNeverSent`, exact conditions in `PublishedIsConfirmedIff`
  and `SkippedUnpublishedIff`).
- DNS: a record processed by an automatic pass may be due again at once, when a second type leaves its
  backoff meanwhile (`SecondTypeComesDue`). Exactly: until thirty seconds after an update a type is due if and only if it would
  be without the update and was not due when planned (`DueAgainIff`, `NoHotLoop`), so the due list is
  empty by then if and only if all that is due was found due when planned (`PassLeavesNothingDueIff`).
- WireGuard: a PUT may lower an endpoint revision, after which two commands of one profile are active
  (`LoweredEndpointRevision`, exact condition in `EndpointOneActiveIff`).
- Control actor: the worker never takes a background item while a foreground one is queued, but it can
  start one (`ForegroundMayArriveInBetween`): exactly when one was put between the take and the start
  (`PassedOverIff`).
- Traffic: the total is the sum of the counter's runs if and only if no zero sample separates positive
  ones (`TotalIsRunSumIff`).
- Daily seconds: a clock set back by a minute breaks the bound by the time since midnight
  (`BackwardClockBreaks`). A snapshot keeps the bound if and only if no device had been counted beyond
  the new time (`SampledBoundedIff`).

## Model

| member | source | states |
|---|---|---|
| RevisionLog.StableStatusIdempotent | labprobe_storage.py:280-294 | stripping the volatile status fields twice is stripping them once, at every depth |
| RevisionLog.DeviceProjectionsCommute | labprobe_storage.py:249-277 | the comparison projection and the payload projection of a device row commute and are idempotent |
| RevisionLog.ReplayPointwise | labprobe_storage.py:384-412 | changes with distinct keys, replayed in any order, set exactly their own keys |
| RevisionLog.LiveRowUnchanged | labprobe_storage.py:296-312 | rows the diff calls equal show a client the same thing once volatile fields are projected away |
| RevisionLog.DiffThenReplay | labprobe_storage.py:296-312 | replaying a list diff, in any order, turns the old non-deleted rows into the new ones |
| RevisionLog.ReplayOneRow | labprobe_storage.py:371-382 | the same for one row key, including deletions and tombstoned rows |
| RevisionLog.DocumentReplay | labprobe_storage.py:384-412 | the changes of a saved document bring any client that agreed before the save, key by key on what a snapshot hands out, into agreement after it |
| RevisionSnapshot.ListAgreesIff | hub.py:2386-2417 | a client that agrees with the log key by key holds the list a snapshot shows if and only if every shown row is the last with its key |
| RevisionSnapshot.ShowsTheSameIff | hub.py:2386-2417 | the same for the whole snapshot: status, online count and the three lists |
| RevisionSnapshot.SnapshotAgreesAtIff | hub.py:2386-2417 | a client that keys the lists of a snapshot agrees with the log on an entity if and only if it is no list row, or the last row shown with the key is the last row with it |
| RevisionSnapshot.SnapshotAgreesIff | labprobe_storage.py:367-382 | it agrees altogether if and only if every key fits so, and where keys do not depend on positions if and only if no shown row is followed by a deleted one with its key |
| RevisionLog.ReplayAgreesIff | labprobe_storage.py:428-464 | after the same changes two replicas agree on an entity if and only if they did before or a change concerns it |
| RevisionSnapshot.EventDeletionLoggedIff | hub.py:4078-4091 | marking an event deleted is logged if and only if it is the last event with its key |
| RevisionSync.KeepRecentIsSuffixIff | labprobe_storage.py:314-331 | pruning by age leaves a suffix if and only if no row young enough stands before one that is too old |
| RevisionSync.PruneKeepsSuffix | labprobe_storage.py:314-331 | pruning by age and by count, forced or throttled, only drops a prefix |
| RevisionSync.SaveKeepsServer | labprobe_storage.py:333-365 | after a save the numbered history still replays to the documents and the log is still its suffix |
| RevisionSync.RestartKeepsServer | labprobe_storage.py:106-138 | a restart, with its baseline row and forced prune, keeps the same |
| RevisionSync.ReplyIsExact | labprobe_storage.py:428-464 | a reply demands a resync exactly when the log cannot serve the position, and otherwise holds exactly the issued rows after it, cut to the page |
| RevisionSync.RunKeepsWorld | labprobe_storage.py:314-464 | over every interleaving of saves, prunes, restarts, snapshots and polls the log stays a suffix of a history that replays to the documents key by key, and the client holds its last snapshot and exactly the rows since, up to its last synchronisation |
| RevisionSync.SyncIsComplete | labprobe_storage.py:314-464 | from any issued position of at least 1 the client gets exactly what it lacks or is told to resync; told there is no more, it agrees with the documents on an entity if and only if its snapshot did or a row issued since concerns the entity |
| RevisionSync.SyncedListsIff | hub.py:2386-2417 | told there is no more, a client that follows all rows of a list shows the list of a fresh snapshot if and only if each row of it is the last with its key |
| RevisionSync.EmptyLogReply | labprobe_storage.py:428-464 | after the reply from an emptied log to position 0 the client agrees on an entity if and only if it follows it and the rows it never got leave the entity as it has it |
| RevisionSync.PositionZeroGoesStale | hub.py:2386-2417 | a run in which a snapshot hands out position 0 and the client never hears of an event a fresh snapshot shows |
| RevisionSync.EventDeletionIsSilent | hub.py:4078-4091 | deleting a device's earlier event leaves the poll reply as it was to the letter while the snapshot changes |
| RevisionSync.DeletedNewestHides | hub.py:4078-4091 | with a device's newest event deleted a client that takes a snapshot disagrees about that device's events, and about nothing else |
| RevisionSync.PagesConcatenate | labprobe_storage.py:428-464 | following nextRevision with any limit ends and concatenates to the single-shot suffix |
| RevisionSync.ExactIffGapless | labprobe_storage.py:428-464 | under any clock all accepted positions get all their rows if and only if the retained log has no hole |
| RevisionSync.AnyClockKeepsSublog | labprobe_storage.py:314-331 | whatever the clock does the log holds history rows in order |
| RevisionSync.BackwardClockLosesRow | labprobe_storage.py:318-322 | a run with a clock set back in which pruning leaves a hole and a poll passes over a row |
| RevisionSync.PruneKeepsIff | labprobe_storage.py:314-331 | an unthrottled prune keeps a row if and only if it is young enough and among the newest the limit allows; a throttled one keeps all |
| RevisionSync.PageIsFull | labprobe_storage.py:428-464 | there is more if and only if the rest is longer than the limit between 1 and 1000, and then the page is full; else it is the whole rest |
| RevisionSync.RestartLeavesRow | labprobe_storage.py:106-138 | after a restart on an empty log the baseline row is there with the next revision |
| RevisionFields.RowChangedIff | labprobe_storage.py:249-258 | two versions of a device row count as different if and only if they differ in a field outside the listed sampled ones; any other row, in any field |
| RevisionFields.ListChangeLoggedIff | labprobe_storage.py:384-412 | a change of a list row is logged if and only if the last row with its key appears, vanishes or changes in a field that counts |
| RevisionFields.SameStatusIff | labprobe_storage.py:280-294 | two status values count as the same if and only if they are alike along every path that meets no refresh time and no device list |
| RevisionFields.StatusChangeLoggedIff | labprobe_storage.py:384-412 | a status change is logged if and only if the status differs along such a path |
| RevisionFields.CountChangeLoggedIff | labprobe_storage.py:384-412 | a change of the device counts is logged if and only if the online count or the stated total differs |
| RevisionFields.WholeDocumentLoggedIff | labprobe_storage.py:384-412 | any other document is logged as a whole, unless it is one of nine that are not logged |
| RevisionFields.AgreesMeans | labprobe_storage.py:249-312 | agreeing with the documents on an entity is holding each field of its live row that is not sampled, diagnostic or long text, with its value, and no other such field; of an event, the row itself |
| RevisionFields.SavedChangeReachesClient | labprobe_storage.py:333-464 | after any run, whatever a save changed, a client whose last snapshot is no newer and that is told there is no more holds what the documents now say of it, field by field |
| Store.CollectRows | labprobe_storage.py:367-373 | the loop builds the map from row key to the last row with that key |
| Store.ListDiff | labprobe_storage.py:371-382 | the two loops list exactly the changed, new and vanished rows |
| Store.CompareMaps | labprobe_storage.py:296-312 | the same after the volatile-field projection |
| Store.ChangesForDocument | labprobe_storage.py:384-412 | per document the method lists exactly the specified changes |
| Store.SQLiteStore.Insert | labprobe_storage.py:349-353 | rows get the next revisions in order |
| Store.SQLiteStore.PruneRevisions | labprobe_storage.py:314-331 | the table becomes the specified suffix and the throttle time moves |
| Store.SQLiteStore.Save | labprobe_storage.py:333-365 | an unchanged document writes nothing, a changed one appends a listing of its diff and prunes |
| Store.SQLiteStore.Initialize | labprobe_storage.py:106-138 | an empty log gets a baseline row, then a forced prune |
| Store.SQLiteStore.ChangesSince | labprobe_storage.py:428-464 | the method returns the specified reply |
| FirewallSafety.VisitRemembered | router/firewall_automation.py:467-475 | a candidate's count is backed by the values the last visits resolved |
| FirewallMeaning.UntouchedIff | router/firewall_automation.py:523-533 | a rule counts as drifted exactly when its bound field no longer says what was applied, or a field other than it and the statistics is not as recorded |
| FirewallMeaning.FitIff | router/firewall_automation.py:366-386 | a binding counts as compatible exactly when its rule accepts, by a usable address of the mapping's family, what the mapping forwards from WAN to LAN |
| FirewallMeaning.MappedToIs | router/firewall_automation.py:352-364 | a binding resolves to its mapping's present address, or its suffix where the field takes one |
| FirewallMeaning.PayloadOnlySets | router/firewall_automation.py:545-550 | what is sent is the rule with the controlled field set and the statistics left out |
| FirewallSafety.AcceptableIff | router/firewall_automation.py:192-241 | a request is acceptable exactly for a known rule that is fit for the mapping it names |
| FirewallSafety.AdoptionRecords | router/firewall_automation.py:243-259 | adoption records the request's mapping and field and the rule as it is, so that nothing counts as touched yet |
| FirewallSafety.CycleForOne | router/firewall_automation.py:509-511 | a cycle for one rule writes or suspends no other |
| FirewallSafety.CycleSuspends | router/firewall_automation.py:517-534 | a cycle suspends only a running binding whose rule was touched |
| FirewallSafety.CycleWrites | router/firewall_automation.py:512-587 | a write goes to a rule that is untouched and fit, sets its bound field only, to the address its mapping has now, which was resolved twice running |
| FirewallSafety.WritesAreSafe | router/firewall_automation.py:503-589 | after any run of edits, adoptions, deletions, restarts and cycles against any router, so is every write: no operator's edit is overwritten |
| FirewallSafety.SuspendedStays | router/firewall_automation.py:454-465 | a suspended binding stays as it is until its rule is adopted again |
| FirewallLiveness.CycleProgress | router/firewall_automation.py:503-589 | every faithful cycle shrinks the set of busy rules, except at most one that only observes |
| FirewallLiveness.FollowConverges | router/firewall_automation.py:503-589 | within one cycle more than there are bindings the bound field of every fit, untouched rule says its mapping's present address, and every touched one is suspended |
| FirewallFollow.SavedInOrder | router/firewall_automation.py:178-184 | bindings are saved in the order of their rules' ids, the first hundred of them, and nothing else is lost |
| FirewallService.FirewallAutomationService.ReplaceBinding | router/firewall_automation.py:448-452 | the binding list becomes the specified one, sorted and capped |
| FirewallService.FirewallAutomationService.Suspend | router/firewall_automation.py:454-465 | the binding is stored suspended and its candidate forgotten |
| FirewallService.FirewallAutomationService.CandidateConfirmed | router/firewall_automation.py:467-475 | confirmed exactly when the same value was observed before |
| FirewallService.FirewallAutomationService.Reconcile | router/firewall_automation.py:503-589 | one cycle does what the specified cycle does, for any router reply |
| FirewallService.FirewallAutomationService.Adopt | router/firewall_automation.py:192-259 | an acceptable request is adopted with the rule's present value and fingerprint |
| FirewallService.FirewallAutomationService.Upsert | router/firewall_automation.py:261-274 | a request is refused without effect, or adopted and its rule reconciled at once by a cycle of its own |
| FirewallService.FirewallAutomationService.Delete | router/firewall_automation.py:276-284 | reports whether a binding existed and removes it |
| Ddns.IndexOf | lab_ddns.py:749-753 | the first record with the id, or none |
| Ddns.FinishedTracker | lab_ddns.py:837-869 | finishing an update changes each planned type by its own outcome and nothing else of the record |
| Ddns.DueIffSends | lab_ddns.py:508-542 | a record is due exactly when an unforced update at that moment would send an address |
| Ddns.DueAgainIff | lab_ddns.py:761-875 | from its planning until thirty seconds after its end an update leaves an address type due if and only if it would be due without the update and was not when planned, whatever the provider answered |
| Ddns.SecondTypeComesDue | lab_ddns.py:508-542 | a record that publishes one type is due again when the update ends, as its second type left its backoff meanwhile |
| Ddns.NoHotLoop | lab_ddns.py:544-552 | the same over a pass in which each update has its own clock readings: a type is due soon after if and only if it would be without the pass and no update of the record found it due when planned |
| Ddns.PassLeavesIff | lab_ddns.py:508-552 | for a pass over the due list: and nothing that was due when the list was made still is |
| Ddns.PassLeavesNothingDueIff | lab_ddns.py:508-552 | with distinct ids the due list soon after a pass is empty if and only if all that is due by then was found due when planned |
| DdnsGate.TrackOk | lab_ddns.py:642-655 | a new sample advances or resets a tracker so that its count is backed by the last samples |
| DdnsGate.CandidateIsDetected | lab_ddns.py:642-655 | a candidate counted twice is the detected address, and public; so is one counted once where no request supplies trackers |
| DdnsGate.RepeatedTimeIff | lab_ddns.py:616-660 | after a repeated sample time everything an update of a record would send, at any clock, forced or not, has been seen twice if and only if the repeat shows the same address wherever one can be sent |
| DdnsGate.RepeatedTimeSends | lab_ddns.py:616-660 | a run: one address at two times, another at the second time again, and the update sends that one |
| DdnsGate.CreateSendsIff | lab_ddns.py:724-737 | right after a create everything the new record would send has been seen twice if and only if, for a type it can send, a supplied count of two is backed by the samples |
| DdnsGate.SafeForeverIff | lab_ddns.py:724-737 | whatever the store holds and whatever follows, a create request lets nothing unseen out if and only if each address type comes with no count, or with one for an empty or published candidate |
| DdnsGate.NextKeepsWorld | lab_ddns.py:562-875 | every step keeps the gate: samples, edits, both update phases interleaved with anything, restarts |
| DdnsGate.PlannedAddressSeenTwice | lab_ddns.py:761-786 | an address planned for a provider was public in the last two distinct samples, forced or not |
| DdnsGate.EveryUpdateSendsSeenTwice | lab_ddns.py:747-828 | over every run from an empty store each started update sends only such addresses |
| DdnsGate.SuppliedTrackerSends | lab_ddns.py:697-737 | with a tracker supplied on create one sample is enough to send |
| DdnsGate.PublishedIsConfirmedIff | lab_ddns.py:837-853 | what is recorded as published was confirmed, or was published before, except for a skipped type that differed |
| DdnsGate.SkippedUnpublishedIff | lab_ddns.py:761-786 | that exception is exactly a detected address that is not public, or missing |
| DdnsGate.SkippedAddressIsNeverSent | lab_ddns.py:837-853 | such an address is recorded as published and never sent once public |
| DdnsGate.PublishedIsSentIff | lab_ddns.py:837-853 | after success the published value is the sent one exactly when it did not move between the phases |
| DdnsGate.FailureClimbs | lab_ddns.py:860-869 | a failure climbs the four-step ladder with a delay no shorter than before, an authentication failure locks |
| DdnsSends.SeenTwiceIsSentIff | lab_ddns.py:607-805 | after two accepted samples at new times that show the same public address, unpublished so far, an update plans to send it, of either family, if and only if it finds the second sample recent and is forced or not held back by a lock or backoff for that very address |
| DdnsSends.SentIsPublished | lab_ddns.py:747-875 | an update that plans it and is told it went well leaves the record published at it, with nothing to send for the type |
| DdnsSends.ValueIsSentIff | lab_ddns.py:786-805 | a CNAME or TXT value is planned if and only if the provider takes the type, it is neither empty nor published, and the update is forced or not held back |
| DdnsSends.EditStores | lab_ddns.py:702-723 | an edit sets types, switch and values as requested, keeps what it does not mention, and leaves addresses, trackers and other records alone |
| DdnsSends.RestartKeeps | lab_ddns.py:562-578 | a restart keeps every record but for candidates and counts |
| DdnsSends.FailureWaits | lab_ddns.py:860-869 | after a failed or impossible send the next try waits 30, 120, 600, then 1800 seconds, and after an authentication failure the type is locked |
| DdnsSends.FinishKeepsOrPublishes | lab_ddns.py:837-869 | a type that only waits keeps its record as it was; one that is sent or needs nothing is published as the record has it and starts anew, and no other type changes |
| DdnsSends.CreateStores | lab_ddns.py:724-737 | a create adds the record as requested, with the addresses of the current sample, and changes nothing else |
| DdnsSends.DeleteRemoves | lab_ddns.py:877-884 | deleting removes the records with the id and no other |
| DdnsStore.LabDdnsStore.AcceptAddress | lab_ddns.py:607-695 | the loop over records does the specified step and wakes the automatic loop exactly when some address waits |
| DdnsStore.LabDdnsStore.PlanRecord | lab_ddns.py:761-805 | each of the record's types gets its decision |
| DdnsStore.LabDdnsStore.BeginUpdate | lab_ddns.py:747-822 | the plan under the lock sends only addresses seen twice, and the store is saved for any known record, sent or not |
| DdnsStore.LabDdnsStore.FinishUpdate | lab_ddns.py:837-875 | phase two looks the record up again, records each planned type and saves; without the record nothing happens |
| DdnsStore.SendsWake | lab_ddns.py:607-695 | the automatic loop is woken whenever a stored record has an address to send |
| DdnsStore.DeferredIff | lab_ddns.py:508-542 | a type is deferred if and only if a forced update of its enabled record would send it and otherwise only its retry time stands in the way |
| DdnsStore.LabDdnsStore.FindDue | lab_ddns.py:508-542 | the due list, and the earliest retry among the deferred types |
| DdnsStore.LabDdnsStore.RunPendingUpdates | lab_ddns.py:544-552 | the serial pass for any provider, each update planned and finished at its own reading of the clock; when it leaves nothing due |
| DdnsStore.LabDdnsStore.CreateRecord | lab_ddns.py:724-737 | a new record starts from the current sample and is saved; the gate survives a request whose trackers are safe |
| DdnsStore.LabDdnsStore.EditRecord | lab_ddns.py:702-723 | an edit keeps addresses, published values and trackers |
| DdnsStore.LabDdnsStore.Load | lab_ddns.py:562-578 | a restart takes the saved state with candidates and counts cleared |
| PortMapRules.CreateNeedsFreshId | hub.py:3784-3798 | an accepted create keeps the store consistent if and only if its id is unused |
| PortMapRules.PerformKeepsStore | hub.py:3784-3853 | every accepted request keeps ports in range and no two rules on one port and protocol |
| PortMapRules.RunsKeepStore | hub.py:3784-3853 | over all runs from empty that create with unused ids |
| PortMapRules.AtMostFortyTwo | portmap_persistence_patch.py:20-38 | by pigeonhole there are at most 42 rules, so keeping the last hundred loses none |
| PortMapStored.CleanCarries | hub.py:3502-3567 | a request is well formed exactly if it is cleaned at all, and the cleaned rule carries its switch, port, transport, target and lease, and its limits where in range |
| PortMapStored.CreateStores | hub.py:3784-3798 | a create is refused exactly for a malformed request or a taken port; else it adds one rule that carries the request, and loses none |
| PortMapStored.EditStores | hub.py:3801-3823 | an edit is refused exactly for an unknown rule, a malformed request or a taken port; else its rule carries the request, and the others are as they were |
| PortMapStored.DeleteStores | hub.py:3801-3812 | a delete removes the rule with the id and nothing else |
| PortMapStored.StartStores | hub.py:3827-3853 | a start switches the rule on, renews a lease that ran out by its last length, and is refused exactly for an unknown rule or one that ran out and knows no length |
| PortMapStored.StopStores | hub.py:3827-3853 | a stop switches the rule off and changes nothing else |
| PortMapStored.SavedInOrder | portmap_persistence_patch.py:20-38 | rules are stored by port and name |
| PortMapSync.PageHead | hub.py:3868-3917 | one fetched, executed and acknowledged page, command by command |
| PortMapSync.PageThenDrain | hub.py:3868-3917 | handling a page first changes nothing about what draining the queue does |
| PortMapSync.PageProgress | hub.py:3868-3893 | each page leaves fewer commands waiting |
| PortMapConvergence.EnqueueQueues | hub.py:3652-3690 | queueing leaves the action pending and last of its kind |
| PortMapConvergence.EnqueueOther | hub.py:3652-3690 | and does to another rule's command nothing but possibly cut it off |
| PortMapConvergence.DrainDelivers | hub.py:3868-3917 | a deliverable upsert or delete takes effect at the agent when targets are distinct |
| PortMapConvergence.WrongIff | labrelay_sync_patch.py:84-98 | a report finds a rule wrong exactly if one side lacks it or they differ in one of the fourteen compared settings, an absent transport read as TCP |
| PortMapConvergence.AgreesIff | labrelay_sync_patch.py:84-98 | agent and Hub agree, setting by setting, exactly when no rule is found wrong |
| PortMapConvergence.DesiredIs | labrelay_sync_patch.py:74-74 | the desired rules are the stored ones, each under its id |
| PortMapConvergence.QueueAllOwnWork | labrelay_sync_patch.py:73-98 | after a report from a quiet queue exactly its own corrections are deliverable, for different rules |
| PortMapConvergence.QueueAllFresh | labrelay_sync_patch.py:94-98 | of corrections with no active command to revive the last five hundred survive, even in a full queue |
| PortMapRounds.DrainCorrects | labrelay_sync_patch.py:73-98 | after the next drain a rule is still wrong exactly when it was and its correction was cut |
| PortMapRounds.NextRoundLosesFew | labrelay_sync_patch.py:73-98 | the following report queues exactly those, and its last five hundred are not cut again |
| PortMapRounds.TwoRoundsIffNothingCut | labrelay_sync_patch.py:73-98 | two rounds make the agent agree if and only if the first report's corrections all stayed queued |
| PortMapRounds.TwoRoundsWithRoom | labrelay_sync_patch.py:73-98 | which holds whenever queue and corrections together are at most 501 |
| PortMapRounds.ThreeRounds | labrelay_sync_patch.py:73-98 | if the second report has at most five hundred corrections, three rounds make the agent agree and the third report queues nothing |
| PortMapRounds.ReportShrinks | labrelay_sync_patch.py:73-98 | from the second report on each is shorter by five hundred or empty |
| PortMapRounds.RoundsConverge | labrelay_sync_patch.py:73-98 | for any queue without commands in flight and any agent, a number of rounds fixed by the second report's length makes the agent's rules equal to the Hub's in every compared setting |
| PortMapRounds.RoundClearsFlight | hub.py:3868-3893 | fifteen seconds after any round nothing delivered before is still in flight |
| PortMapRounds.FourRounds | labrelay_sync_patch.py:73-98 | from any queue, commands in flight included, one round more is enough |
| PortMapRounds.StaysSettled | labrelay_sync_patch.py:73-98 | once settled later rounds deliver, queue and change nothing |
| PortMapRounds.FullQueueCutsACorrection | hub.py:3656-3658 | in a full queue two further corrections cut off a revived one |
| PortMapOrder.UpsertPrevailsIff | hub.py:3664-3675 | a pending upsert is what the agent ends up with if and only if everything deliverable for its rule behind it is a stop and the rule is disabled |
| PortMapOrder.DeletePrevailsIff | hub.py:3664-3675 | a pending delete leaves the rule gone if and only if no upsert of it is deliverable behind |
| PortMapOrder.StopPrevailsIff | hub.py:3664-3675 | a pending stop leaves the rule running if and only if the last command deliverable for it stands behind and starts it |
| PortMapOrder.QueueOrderIsNotEnough | hub.py:3664-3675 | start, stop, start before a poll leaves the agent stopped |
| PortMapAck.DeliveredIffUnrevived | hub.py:3664-3675 | whatever was requested since, a delivered command still in the queue is as it was handed out if and only if no request revived it, and it says what the last that did said |
| PortMapAck.AcknowledgedIff | hub.py:3897-3917 | an acknowledgement finishes the action its delivery handed out if and only if that is what the last request that revived the command said |
| PortMapAck.EditIsLost | hub.py:3897-3917 | an edit between delivery and acknowledgement leaves the agent with the old rule and nothing to deliver |
| PortMapAck.FetchHandsOut | hub.py:3868-3893 | a poll hands out, in queue order and up to its limit, what the router is owed: never sent, or sent fifteen seconds ago, under five times, and not acknowledged |
| PortMapAck.FetchMarksIff | hub.py:3868-3893 | and marks exactly those as sent now and once more, leaving the rest as it was |
| PortMapAck.AckSettles | hub.py:3897-3917 | an acknowledgement settles exactly the commands it names, as done or failed, now |
| PortMapAck.ExpireDropsIff | hub.py:3655-3658 | cleaning drops exactly the commands finished more than a day ago |
| PagedFetch.Advances | hub.py:3868-3893 | one command on, a fetch has marked and selected it if it was due and passed over it otherwise; wireguard_service.py:664-682 runs the same loop |
| PortMapHub.Hub.CleanCommands | hub.py:3655-3658 | the cleaning loop keeps the newest five hundred of the unexpired |
| PortMapHub.Hub.QueueCommand | hub.py:3652-3690 | the backwards search revives the last active match in place or appends |
| PortMapHub.Hub.FetchCommands | hub.py:3868-3893 | the loop marks and returns the first deliverable commands |
| PortMapHub.Hub.AckCommands | hub.py:3897-3917 | exactly the named commands are finished |
| PortMapHub.Hub.DrainByPages | hub.py:3868-3917 | fetching, executing and acknowledging pages until one is empty is one pass over everything deliverable |
| PortMapHub.Hub.CreateRule | hub.py:3784-3798 | refused without effect, or stored with its upsert queued |
| PortMapHub.Hub.EditRule | hub.py:3801-3823 | likewise for an edit |
| PortMapHub.Hub.DeleteRuleById | hub.py:3801-3812 | the rule is gone and a delete queued |
| PortMapHub.Hub.SwitchRule | hub.py:3827-3853 | start may renew an expired lease or be refused, stop queues a stop |
| PortMapHub.Hub.Reconcile | labrelay_sync_patch.py:73-98 | the loops queue exactly one correction for each wrong rule |
| WireGuard.QueuedOneActiveIff | wireguard_service.py:496-519 | queueing leaves one active command of its scope if and only if no active one that survives it is newer, in a full queue too |
| WireGuard.FetchCounts | wireguard_service.py:664-682 | each row's attempts grow by how often it was handed out |
| WireGuard.NextKeepsHub | wireguard_service.py:496-717 | every request keeps the fencing invariants and never lowers the document revision |
| WireGuard.RunKeepsHub | wireguard_service.py:496-717 | over every run: one active server command per router, revisions handed to a router never step back, no command delivered more than five times |
| WireGuard.OneWritePerRevision | wireguard_service.py:521-563 | of two writes expecting the same revision at most one succeeds |
| WireGuard.EndpointOneActiveIff | wireguard_service.py:566-616 | an endpoint update leaves one active command of its profile exactly when none that survives it is above its revision |
| WireGuard.LoweredEndpointRevision | wireguard_service.py:411-420 | a PUT that lowers an endpoint revision leads to two active commands |
| WireGuardPayload.QueueKeepsIff | wireguard_service.py:496-519 | with room in the queue exactly the commands the new one replaces go |
| WireGuardPayload.RunKeepsPayloads | wireguard_service.py:496-717 | over every run an active server command of the document's revision removes exactly when the document is a tombstone, and otherwise applies the document's settings and profiles |
| WireGuardPayload.WriteQueuesLast | wireguard_service.py:521-563 | a put or delete that meets its expectation sets the document and queues, last, the command that says so; any other changes nothing |
| WireGuardPayload.EndpointQueuesLast | wireguard_service.py:566-616 | an endpoint update that names the present endpoint revision moves it on by one and queues, last, the new endpoint |
| WireGuardPayload.ReportQueuesLast | wireguard_service.py:699-717 | a report of an older revision queues, last, what the document says; any other changes nothing |
| WireGuardPayload.FetchHandsOut | wireguard_service.py:664-682 | a poll hands out, in queue order and up to its limit, what the router is owed |
| WireGuardPayload.WriteIsHandedOut | wireguard_service.py:521-682 | what a put or delete asks for reaches its router at the next poll that asks for enough |
| WireGuardPayload.AckSettles | wireguard_service.py:684-697 | an acknowledgement settles exactly the commands it names, as done or failed |
| WireGuardPayload.AcknowledgedStays | wireguard_service.py:684-697 | an acknowledged command is never handed out again, whatever happens later |
| WireGuardService.WireGuardService.Unsuperseded | wireguard_service.py:496-511 | the filtering loop drops exactly the superseded commands, those without a scope included |
| WireGuardService.WireGuardService.QueueCommand | wireguard_service.py:496-519 | the new command replaces them at the end of the queue, which keeps its newest five hundred |
| WireGuardService.WireGuardService.Put | wireguard_service.py:521-543 | succeeds exactly without a conflict and then advances the revision |
| WireGuardService.WireGuardService.Delete | wireguard_service.py:545-563 | likewise, leaving a tombstone |
| WireGuardService.WireGuardService.UpdateEndpoint | wireguard_service.py:566-616 | needs the current endpoint revision and leaves the server revision alone |
| WireGuardService.WireGuardService.Poll | wireguard_service.py:664-682 | hands out nothing older than what the router already got |
| WireGuardService.WireGuardService.Acknowledge | wireguard_service.py:684-697 | finishes exactly the named commands |
| WireGuardService.WireGuardService.Report | wireguard_service.py:699-717 | a report behind the document queues it again |
| ControlActor.AccountingKept | router_control_actor_patch.py:47-102 | every step keeps the counter equal to the foreground work admitted and not yet counted or refused |
| ControlActor.NextKeepsState | router_control_actor_patch.py:47-102 | with that, every item has one place and one name |
| ControlActor.ClampNeverFires | router_control_actor_patch.py:53-54 | in every schedule the clamp at zero changes nothing |
| ControlActor.BackgroundYields | router_control_actor_patch.py:68-78 | a background call is let in only when no foreground call is anywhere before its start |
| ControlActor.StartedOnce | router_control_actor_patch.py:47-63 | no item starts twice |
| ControlActor.ForegroundTakenFirst | router_control_actor_patch.py:47-54 | the worker never takes a background item while a foreground one is queued |
| ControlActor.PassedOverIff | router_control_actor_patch.py:47-83 | while it holds a background item a foreground one is queued if and only if one was put since the take |
| ControlActor.ForegroundMayArriveInBetween | router_control_actor_patch.py:47-54 | a schedule in which the worker starts a background item over a queued foreground one |
| ControlActor.BoundedOvertaking | router_control_actor_patch.py:81-83 | a queued item is overtaken at most by what was ahead of it unless something more urgent is submitted |
| ControlActor.AdmittedIff | router_control_actor_patch.py:68-80 | in every schedule a call is let in if and only if it is a foreground call or the actor is at rest |
| ControlActor.RefusedWhenFull | router_control_actor_patch.py:81-87 | a call is refused a place only while exactly ninety-six are queued |
| ControlActor.RouterControlActor.Admit | router_control_actor_patch.py:68-80 | the admission region defers exactly as specified |
| ControlActor.RouterControlActor.Put | router_control_actor_patch.py:81-84 | put succeeds exactly below ninety-six items |
| ControlActor.RouterControlActor.Uncount | router_control_actor_patch.py:84-87 | a refused foreground call is uncounted by one |
| ControlActor.RouterControlActor.Take | router_control_actor_patch.py:47-50 | the most urgent and then oldest item |
| ControlActor.RouterControlActor.CountHeld | router_control_actor_patch.py:51-54 | a foreground item is counted down by one as it starts |
| TrafficCounter.RunSumSnoc | device_history_patch.py:50-64 | the sum of run ends grows with a sample by its rise, or by all of it after a reset |
| TrafficCounter.TotalIsRunSumIff | device_history_patch.py:50-64 | the stored total is the sum of run ends if and only if no zero separates positive samples, and is never more |
| TrafficCounter.NoRestart | device_history_patch.py:50-64 | without a reset the total is the last sample |
| TrafficCounter.TotalGrows | device_history_patch.py:50-64 | the total never shrinks and covers every sample |
| TrafficCounter.TrafficField.Advance | device_history_patch.py:50-64 | the in-place update keeps the closed form |
| DeviceTransitions.DeviceMap | device_history_patch.py:35-40 | the MACs of the rows |
| DeviceTransitions.EventsFollowMembership | device_history_patch.py:239-313 | online minus offline events of a MAC are its change of membership, and they alternate |
| DeviceTransitions.EmptiedIffTwice | device_history_patch.py:248-260 | a non-empty set is emptied by a snapshot if and only if it and the one before are empty |
| DeviceTransitions.OnlineFollows | device_history_patch.py:239-313 | a single empty snapshot leaves the online devices as they are; any other replaces them by its rows, the last for each MAC |
| DeviceTransitions.DurableDeviceHistory.Ingest | device_history_patch.py:215-313 | defers or accepts a snapshot and emits exactly the transitions |
| DailyOnline.Seed | hub.py:751-769 | the seed never exceeds the time since midnight |
| DailyOnline.SampledBounded | hub.py:772-834 | a snapshot keeps every device within the time since midnight at its last sample |
| DailyOnline.RunBounded | hub.py:772-834 | over any run with a clock that does not run backwards |
| DailyOnline.SampledGrows | hub.py:797-823 | seconds do not shrink, cover the seed, and rise beyond the gap cap only by it |
| DailyOnline.DayGrows | hub.py:772-834 | within a day a device's seconds never shrink |
| DailyOnline.SeedIs | hub.py:751-769 | the router's claim for the day is the time since the start it reports, but not since before midnight, or its active time, up to the time since midnight |
| DailyOnline.SampledCounts | hub.py:797-823 | one sample leaves a present device with the claim or with what it had plus the time since its last sample, at most five minutes of it, whichever is more |
| DailyOnline.PresentCounts | hub.py:772-834 | a device present in all snapshots of a stretch is credited with all of the time, and with exactly that if the router claims nothing |
| DailyOnline.SampledBoundedIff | hub.py:772-834 | whatever the clock says and whoever is present, a snapshot of the same day keeps the bound if and only if no device had been counted beyond the new time |
| DailyOnline.BackwardClockBreaks | hub.py:789-796 | a clock set back by a minute breaks it |
| DailyOnline.DailyStore.Sample | hub.py:772-834 | the two loops close the absent and count the present devices |
| DailyEvents.OrderedIsStableSort | hub.py:4168-4168 | sorted by time and id, a permutation, ties kept in order |
| DailyEvents.JudgedTwice | hub.py:4173-4206 | a dropped event leaves no trace, a kept one differs at most in its text and is kept again as it is |
| DailyEvents.DailyIsStable | hub.py:4167-4207 | the day's list is a thinning of the sorted events up to text, and filtering it again changes nothing, for any duration reader and writer |
| DailyEvents.DailyAlternates | hub.py:4167-4207 | each device goes online and offline by turns |
| DailyKept.KeptIff | hub.py:4173-4206 | event by event, an event is listed if and only if it counts after those listed before it (device not yet so, known time online, no offline in the last five minutes), with its duration worked out |
| DailyEvents.NormalizeDeviceEvents | hub.py:4167-4207 | the loop with its three dictionaries computes that list |
| DashboardMerge.MergeIsIdempotent | router_realtime_stability_patch.py:81-104 | merging the same payload again changes nothing |
| DashboardMerge.EmptyNeverReplaces | router_realtime_stability_patch.py:85-101 | at any depth null, blank text, an empty list or an empty object never replaces what is shown |
| DashboardMerge.NewValueWins | router_realtime_stability_patch.py:85-101 | at any depth anything non-empty in the new payload is what the merge shows |
| DashboardMerge.KeysAreJoined | router_realtime_stability_patch.py:85-101 | where both sides are objects the merge has exactly the keys of both |
| DashboardMerge.UnmentionedStays | router_realtime_stability_patch.py:85-101 | what the new payload does not mention stays |
| DashboardMerge.ReadableIff | router_realtime_stability_patch.py:29-31 | a text counts as shown exactly if it says something beyond blanks and the words for nothing |
| DashboardMerge.MergeInto | router_realtime_stability_patch.py:85-101 | the recursive key loop computes the merge |

## Left out

Abstractions:

- JSON: numbers are integers, Python's identification of `1`, `1.0` and `True` is not made, and lower-casing and stripping cover ASCII only. Truthy numbers where a list is expected raise in the original and are not modelled.
- Storage: SQLite, its WAL, file atomicity, JSON migration and hydration with the device archive; a save is atomic and reads one clock value.
- Sync: the snapshot hands out the status document, the online count and three lists, and no other document, though the log reports those too. Status fields derived when it is built, archived offline devices, hydration of rows from the archive and `updatedAt` are left out; rows and status are compared up to the fields the log strips. The client program is not part of the repository: the model's client keeps rows by the log's own key; `EventDeletionIsSilent` is about replies alone, so it holds for every client.
- Firewall: addresses, suffixes and port matching are abstract functions with canonical results, the SHA-256 of a rule is the rule without `stats` and the controlled field, timestamps are omitted, and a cycle is atomic with respect to operator edits. The mappings a cycle sees are a map of specifications by kind and id; reading them from the relay's and the router's tables is left out.
- DDNS: provider calls are arbitrary answers; host names, providers, TTLs, credentials, status and error texts are omitted. Whether a sample is written to disk is a free choice, as the original decides it partly by those texts. Records and files are well-formed.
- Port maps: address checks and text cleaning of a rule are one flag of the request, which for an edit is already merged with the old rule; a lease length worked out from creation times is part of it; the agent is a map from rule id to rule that executes in order and acknowledges with success. Runtime state, sync display and the monotone runtime revision of labrelay_sync_patch.py are left out.
- WireGuard: validation of peers, profiles and ownership, firewall and STUN side effects; a request that fails validation changes nothing.
- Control actor: a call from the worker thread itself runs directly and touches no state; waiting timeouts do not cancel an item, so they are not steps. The callback's result is left out.
- Device history: rollup texts, archive, neighbours and event texts; live-only samples change nothing after hub0935_sync_fix.py and are left out.
- Daily seconds: local days are 86400 seconds, daylight saving time is left out; Daily events: times are whole seconds and 0 stands for a missing time, device keys and duration texts are abstract.

Weaker than one might state:

- ControlActor.BoundedOvertaking: bounds overtaking only while nothing more urgent is admitted; commands of the highest priority can starve others in the original.
- PortMapRounds.TwoRoundsWithRoom: the room condition is sufficient, the exact condition is TwoRoundsIffNothingCut.

Not modelled at all: HTTP, MQTT, WebSocket and Docker plumbing, token checks, the STUN service
(stun_service.py), the slow cache, task and realtime layers in front of the router
(router_slow_cache_patch.py, router_task_manager_patch.py, router_lite_realtime_patch.py), IPv6 scoring,
dashboard normalisation, report texts, provider adapters, router login and RPC.
