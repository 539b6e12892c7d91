# Group keys, threads and purge: a verified model

A Dafny model of the parts of Underground BB's server whose guarantees no single
function shows: who can read which generation of a group's key, while a dozen
transactions in ten files change it; what an account's key history keeps; what a
thread's sort keys say about the tree under them; what a purge that died halfway
leaves behind; and when two signed byte strings can coincide. `dafny verify
dfyconfig.toml` checks all of it.

Every `TransactWriteItems` is one guarded step: all of its conditions on the
state as it is, then all of its writes. A handler is its reads, in order, with
any number of other requests' steps between them, and then its step. Runs are
sequences of steps, so a statement about every run covers every interleaving.

## How it is laid out

| file | what it is about |
|---|---|
| `Encoding.dfy`, `Payloads.dfy` | length-prefixed fields, signing contexts, pins, rosters, key bundles |
| `SortKeys.dfy`, `CommentPaths.dfy` | string order of padded numbers and of materialized paths |
| `Accounts.dfy`, `Cooldowns.dfy`, `KeyRenewals.dfy`, `AccountTable.dfy`, `HandoffSweeps.dfy` | PROFILE, RECOVERY, KEYCHANGE#, HANDOFF# and HANDOFFSEQ: steps, history, the rotate-keys handler, what a late sweep takes |
| `Groups.dfy`, `GroupEffects.dfy` | a group's rows and its transactions; what any transaction can do to each kind of row |
| `GroupInvariants.dfy`, `GenerationKeys.dfy`, `Cutoff.dfy` | what every run keeps, the key chain, who stops reading when |
| `Dormancy.dfy`, `SelfSteps.dfy`, `MarkerLife.dfy`, `Completion.dfy`, `Resumption.dfy` | WrapEpoch, what a handoff row is good for, the ROTATION marker, what a completion's scan is worth, finishing a rotation |
| `Histories.dfy` | runs that honest clients can bring about from any group with a live admin |
| `MissedMembers.dfy`, `TrustedScans.dfy`, `SafeScans.dfy` | from where a completion's scan can be trusted, exactly: while nobody converts the group, whoever does, and leaves from behind included |
| `ReopenedMarkers.dfy`, `RotationEnds.dfy`, `Conversions.dfy` | what a leave from behind does, which rotations can be ended, what a conversion's scan is worth: exact conditions, with the runs that show them |
| `MemberCap.dfy`, `ContentPins.dfy`, `GrantChain.dfy` | the member cap, what content writes pin, the grants behind roles |
| `GroupTable.dfy`, `GroupRequests.dfy`, `JoinsAndLeaves.dfy` | the same transactions and handlers as methods that update the table in place |
| `Threads.dfy`, `ThreadTree.dfy`, `ThreadTable.dfy`, `ThreadPages.dfy` | comments, reactions, notifications, edits; next free path; deletes and sweeps; paging |
| `Purge.dfy`, `PurgeTable.dfy` | the purge's goal, and the purge as it runs and dies |

## What is taken as given

- Keys are symbols. A group key is its generation; a wrap is a group key for one
  wrapping key; link n is key n under key n + 1. Clients put the right key in
  their own wraps. Every wrap ever made is kept as history (`Group.wraps`), as are
  who joined in what order, the order of grants, every edition of a comment, and
  whether a marker's generation has been minted; no condition looks at them.
- Requests are as the handlers pass them on (`Honest`): a key and its epoch were
  read from a profile together, at any earlier time; a group once Open stays Open,
  so a handler that read Rotating carries a rotation start, a leave marker or a
  JoinSeq; a start or a leave's marker is sent only by a handler that read Rotating,
  so never to a group created Open, which one converted Open is told from by history
  (`Mode.converted`); a self-wrap is sent only to a group that does not rotate; an
  invite makes a plain member. The cut-off, the chain, the grants and the wedge below
  hold of any requests at all.
- Nothing makes a leaver be at the group's newest generation. Where a leave from
  behind matters, statements say which one they exclude (`ReopensIn`: the one
  that puts the very marker in question up again).
- Failing runs are built from any group that is or was Rotating, with a live admin at
  its current generation and nobody stuck (`Histories.Ready`), which is what
  CreateGroup leaves (`CreationIsReady`), or from any group that is or was Rotating: the states they end in are reached.
- DeleteAccount refuses an account its membership query still finds in a group. The
  query comes before the tombstone, and a membership completed in between
  survives it, as internal/db/account.go says itself; Tombstone is that second
  step, and may find its account a member (`StuckIsReached` shows where the query
  comes).
- An absent KeyEpoch, WrapEpoch, JoinSeq or Seq reads as 0. Fewer than 10^6
  generations where sort keys are queried. Group ids are not reused; no live
  row is lost to TTL.
- A thread's post stands at the post-level target 0000: posts and comments are
  edited, deleted and reacted to by the same rules.

## Where the code does not do what one might read it to promise

Each comes with the run that shows it and the exact condition under which the
promise holds.

- "WrapEpoch behind KeyEpoch" is read as "wrapped to a replaced key". An owner who
  rotates away from a wrapping key and back is dormant on their own current key
  (`DormantOnTheirOwnKey`); the handler compares a new wrapping key with the
  current one only. It is read rightly wherever the owner is a member exactly if
  they never came back to a key they had (`DormancyIsRightExactly`), and stays so
  exactly if no rotation brings one back (`StaysRightExactly`).
- A leave from behind puts up the marker of a rotation that is over: markers of past
  generations return exactly so (`MarkerReturnsExactly`). A write built during
  the first rotation is admitted again, and a completion from an old scan passes a
  member who is behind and not dormant (`ReopenedMarkerAdmitsAnOldPin`,
  `ReopenedMarkerMissesAMember`).
- Such a marker cannot be taken over (`TakeOverNeedsACurrentLeaver`), and if nobody
  is at the generation it names it blocks every rotation for as long as the group
  exists (`BehindLeaverWedgesTheGroup`, reached by `WedgeIsReached`). Whatever
  marker stands, it can be ended exactly if somebody at the front is not a plain
  member with a deleted account and nobody behind has deleted theirs
  (`EndsExactly`; a deleted account behind is reached by `StuckIsReached`).
- CompleteRotation does not read the marker before it scans, and what was dormant
  when read need not be at the commit. Over all honest runs that keep META,
  conversions and leaves from behind included, a scan for a generation is sound
  exactly if the group was created Open, or nobody can ever complete it, or it is minted and only deleted plain
  members are behind it, or it is minted, nobody is right behind it, and the group
  is not Open under its marker (`ScansAreSoundExactly`). Short of a leave that puts
  the very marker up again, in a Rotating group with a live admin at the current
  generation and no older marker: exactly if its marker is up at the first read, or
  it is no newer than the current one (`RotatingScansAreSoundExactly`; any group:
  `UnreopenedScansAreSoundExactly`). For the next generation a scan begun before
  the marker is never sound: the group can be converted in the middle of it, with
  nobody behind when it read (`ConversionDuringTheScan`). Only if nobody converts the
  group does it suffice that whoever is behind already is a deleted plain member
  (`UnconvertedScansAreSoundExactly`; `BehindIsMissed` builds the run otherwise).
- In an Open group a member brings their own entry current at an old generation
  even under a marker (`OpenScansAreSoundExactly`). No rotation start looks at META's
  mode, so one built before a conversion commits after it, although the comment in
  internal/db/convert.go says the chain is never extended again
  (`OpenGroupsStillRotate`, reached by `OpenedWhileRotating`).
- SweepHandoffs deletes by key, without a condition and without moving HANDOFFSEQ, so
  a sweep that listed before a PutHandoff takes the fresh row, and the next rotation
  commits without a handoff it had checked: it can exactly if the sweep's last
  delete comes within a request's lag of the cooldown's end, or later
  (`SweepTakesAHandoffExactly`).
- ConvertGroupToOpen means to refuse while anybody is behind and not dormant. With
  no marker up, an approval at an older generation can commit after the page; its
  scan can be trusted exactly if whoever is behind is equally far behind
  (`ConversionsAreSoundExactly`).
- Content built with no marker in sight can be written after a whole rotation,
  sealed with the key the removed member holds (`ARotationFitsBeforeTheWrite`).
- Ends of signing-key intervals stay in order from a cooldown of two hours on; the
  configured floor is one hour (`EndsAreOrderedFromTwoHoursOn`).
- Taking back a reaction whose comment was not yet there when the audience was
  read can leave its notification behind (`UndoKeepsPairs`,
  `AnAudienceReadTooEarlyStrandsANotification`).
- Generation 10^6 sorts before 999999 (`GenKeyOrderBreaks`), and a field of 2^32
  bytes encodes like an empty one before zeros (`LongFieldIsAmbiguous`).

## Model

| member | source | states |
|---|---|---|
| GroupInvariants.RunKeepsConsistent | internal/db/remove.go:217-271 | over every run: accounts' histories, entries wrapped at their epoch, links exactly 0..Cur-1, nothing past Cur; and a later state extends an earlier one, memberships only moving forward |
| GroupInvariants.RunKeepsChained | internal/db/leave_takeover.go:94-123 | the chain part of it for any requests at all: no gap, no link overwritten or lost while META exists, a minted marker names the newest generation |
| GroupInvariants.MoveKeepsChain | internal/db/rekey.go:102-126 | no committed step leaves a gap, mints a generation twice, or puts an entry or wrap past the newest generation |
| GroupInvariants.StartKeepsChain | internal/db/approve_rekey.go:105-139 | every rotation start mints exactly the next generation, whichever of the four transactions makes it |
| GroupInvariants.CreationIsConsistent | internal/db/group.go:161-188 | CreateGroup's three rows satisfy the invariant |
| GroupInvariants.ObservationStays | internal/db/keyrotation.go:668-702 | a key read with its epoch stays right about that epoch however late it is used |
| GroupEffects.EntryAfter | internal/db/rotation.go:190-205 | after any transaction each entry is unchanged but for its role, or was wrapped by it to its owner's current key at a generation no lower |
| GroupEffects.WrapsAfter | internal/db/invite.go:784-797 | any transaction wraps only for members at a checked epoch, and for the invitee |
| GroupEffects.LinksAfterStart | internal/db/remove.go:217-271 | whichever transaction starts a rotation, by an admin at the generation before: the link seals that generation's key under the next one and names who started it and who was removed, and so does the marker; only a takeover finds one standing |
| GroupEffects.MarkerAfterOther | internal/db/leave.go:308-317 | nothing else writes the marker but a leave, which finds none and names the leaver at the generation after theirs, and a completion, which clears it for an admin at its generation |
| GenerationKeys.ChainIsWalkable | internal/db/remove.go:236-253 | somebody derives a generation's key, opening links one after another, exactly if some wrap ever made for them holds it or a later one |
| GenerationKeys.NothingAboveTheWraps | internal/db/rotation.go:320-352 | nobody derives a key newer than every wrap made for them |
| GenerationKeys.MembersReadBack | internal/db/rotation.go:320-352 | a member derives every generation up to their entry's |
| GenerationKeys.GroupCurrentGeneration | internal/db/keyrotation.go:63-95 | the descending one-item query over the links' sort keys returns the current generation of any well-chained group |
| SortKeys.GenKeyRoundTrip | internal/db/remove.go:35-51 | parsing a GENKEY# sort key gives back its generation |
| SortKeys.GenKeysKeepOrder | internal/db/remove.go:35-37 | below 10^6 key order is generation order, both ways |
| SortKeys.GenKeyOrderBreaks | internal/db/remove.go:35-37 | at 10^6 it is not |
| Cutoff.RemovalCutsOff | internal/db/remove.go:160-191 | after a removal that mints c + 1, in every later state before the subject joins anew, every generation they can derive is at most c |
| Cutoff.OutsiderGetsNoWrap | internal/db/rotation.go:172-201 | no run wraps anything for somebody outside the group, until they join |
| Cutoff.ATombstoneNeverJoins | internal/db/account.go:50-53 | a deleted account in no group never joins one again and no key is wrapped to it, whatever is sent |
| Cutoff.WhoGoesStopsThere | internal/db/leave.go:208-307 | however somebody goes, with a rotation or without, current or behind: until they join anew they derive nothing newer than the wraps made for them by then |
| Cutoff.LeavingCutsOff | internal/db/leave.go:146-164 | a leaver at the current generation c: the marker stands until c + 1 is minted naming them, and they derive nothing past c |
| Cutoff.MarkerWaitsForTakeover | internal/db/leave_takeover.go:94-123 | such a marker ends only in a link that names the leaver as removed |
| Cutoff.TakeOverNeedsACurrentLeaver | internal/db/leave_takeover.go:94-123 | a leaver's marker can be taken over exactly if the leaver was at the current generation, by an admin there with current keys |
| Cutoff.BehindLeaverWedgesTheGroup | internal/db/leave.go:308-317 | a behind leaver's marker naming a generation nobody is at stands as long as the group, and no rotation start ever commits |
| Dormancy.EntriesAreWrappedAtTheirEpoch | internal/db/approve_rewrap.go:96-114 | in every reachable state an entry's WrapEpoch is at most its owner's KeyEpoch and its wrap is to the key they held then |
| Dormancy.DormancyIsRightExactly | internal/db/rotation.go:355-369 | in every group an account may be in, dormant means wrapped to another key than the current one, exactly if its current wrapping key is none it had before |
| Dormancy.StaysRightExactly | internal/handlers/keyrotation.go:204-220 | a request keeps that exactly if it is no rotation to a wrapping key the account has or had |
| Dormancy.DormantOnTheirOwnKey | internal/handlers/keyrotation.go:204-220 | a run after which a member counts as dormant on their current key |
| Dormancy.DormancyEndsBy | internal/db/rotation.go:172-205 | somebody dormant comes back only by another's approval or a wrap of their own, never by the batches that rewrap everybody else |
| Dormancy.ApprovalsEndDormancy | internal/db/approve_rewrap.go:58-141 | either approval is by somebody else with the key, of a member who is dormant, and ends that |
| SelfSteps.SelfStepSpendsItsRow | internal/db/selfwrap.go:42-90 | a member re-wraps their own entry only with a handoff row for this group, to the key it names, at the generation it names, and the row is gone |
| SelfSteps.OneSelfStepADeposit | internal/db/rekey.go:58-162 | without a new handoff row a second such step never commits, whatever else is sent |
| SelfSteps.RowFitsItsEntryOnly | internal/db/keyrotation.go:196-263 | a row still to be used serves only the entry it was stored for: an admin's, or in an Open group anybody's, at the generation it had then, and the wrap is to the key the row named, whatever was sent in between |
| MarkerLife.MarkerReturnsExactly | internal/handlers/members.go:484-493 | over any run, the marker of a generation that is over stands again exactly if somebody left from the generation before it |
| MarkerLife.MarkerNeverReturns | internal/db/rotation.go:115-132 | without such a leave a rotation that is over stays over |
| MarkerLife.MarkerStandsAt | internal/db/rotation.go:291-302 | without one a marker seen at both ends of a run stood at every point of it |
| MarkerLife.OpenGroupsStillRotate | internal/db/remove.go:217-271 | a rotation start commits after a conversion exactly if it did before it, so a marker may stand in an Open group |
| SafeScans.ScansAreSoundExactly | internal/db/rotation.go:257-318 | for every group with META and an admin, every marker and every generation, over all honest runs that keep META: no scan begun now ends past a member who is behind, not dormant and was there when their page was read, exactly if the group was created Open, or nobody can ever complete that generation, or it is minted and only deleted plain members are behind it, or nobody is right behind it and the group is not Open under its marker |
| TrustedScans.UnreopenedScansAreSoundExactly | internal/db/rotation.go:262-290 | the same over runs, conversions included, without a leave from behind that puts this marker up again: exactly if the marker is up and the group Rotates, or only the gone are behind, or nobody can complete it; with no such marker, if it is no newer than the current one or no key can be minted any more, as none ever can in a group created Open |
| TrustedScans.RotatingScansAreSoundExactly | internal/db/rotation.go:262-290 | in a Rotating group with a live admin at the current generation and no older marker: exactly if the marker is up or the generation is no newer than the current one |
| TrustedScans.OpenScansAreSoundExactly | internal/db/selfwrap.go:42-90 | in an Open group with the marker up and an admin at it: exactly if whoever is behind the marker's generation is a deleted plain member |
| TrustedScans.ConversionDuringTheScan | internal/db/approve_rewrap.go:68-114 | from any ready group, a scan that reads everybody dormant, nobody newly behind; then a conversion, an approval in place, and a rotation completed past that member |
| Completion.CompletionIsSound | internal/db/rotation.go:257-318 | any paged scan in any interleaving, conversions included, begun with the marker up in a Rotating group, or with only deleted plain members behind, and no leave from behind that reopens the rotation: when completion commits, whoever is behind is dormant or joined after their page was read |
| MissedMembers.UnconvertedScansAreSoundExactly | internal/db/rotation.go:262-290 | in a ready Rotating group, while nobody converts it or leaves so as to put this marker up again, for every generation: exactly if the marker is up, or the generation is no newer than the current one, or it is the next one and whoever is behind is a deleted plain member |
| MissedMembers.BehindIsMissed | internal/db/approve_rewrap.go:68-114 | from any such group with a live member behind: an honest run without a conversion and a scan, all read at one moment, whose completion commits past that member |
| MissedMembers.OpenedWhileRotating | internal/db/convert.go:78-123 | from any such Rotating group, an honest run to an Open one with a marker up and a scan that misses a member |
| ReopenedMarkers.ReopenedMarkerMissesAMember | internal/db/leave.go:146-164 | from any such group, an honest run with a completion, a leave from behind, and a second completion past a member who is behind and not dormant |
| ReopenedMarkers.ReopenedMarkerAdmitsAnOldPin | internal/db/post.go:95-120 | in the same run a write is admitted under the marker, not after the completion, and again after the leave |
| Completion.BehindStaysUntouched | internal/db/approve_rewrap.go:68-114 | while the marker stands an entry behind it is never rewrapped short of it, so dormancy ends only at its generation |
| Resumption.MintedKeyIsNeverLost | internal/db/remove.go:100-103 | while a minted rotation runs in a Rotating group some entry is at its generation |
| Resumption.BatchLowersTheCount | internal/db/rotation.go:134-205 | a committed batch lowers the number behind by exactly its size |
| Resumption.BatchShrinksBehind | internal/db/rotation.go:190-205 | a committed batch takes exactly its members out of those behind |
| Resumption.RetryIsHarmless | internal/db/rotation.go:138-150 | sending a batch again changes nothing, in either mode |
| Resumption.CompletionPassesAtZero | internal/db/rotation.go:262-302 | with nobody behind the scan passes and the transaction commits |
| Resumption.RotationCanFinish | internal/db/rotation.go:134-302 | if everyone behind is live, an admin at the generation finishes in one batch for every 25 of them and a completion |
| Resumption.StuckRotationNeverEnds | internal/db/rotation.go:204-228 | a deleted account behind keeps the marker standing in every later Rotating state |
| Resumption.FinishesUnlessStuck | internal/db/rotation.go:257-318 | some honest run ends the rotation exactly if nobody behind has deleted their account |
| RotationEnds.EndsExactly | internal/db/leave_takeover.go:94-123 | whichever marker stands in a Rotating group with an admin, a leaver's or a minted one: some honest run with sound scans ends it exactly if somebody at the front generation is not a deleted plain member and nobody behind has deleted their account |
| RotationEnds.DesertedRotationNeverEnds | internal/db/rotation.go:291-302 | with nobody at the front but deleted plain members, no requests at all end it |
| RotationEnds.WedgeIsReached | internal/handlers/members.go:484-493 | from any ready group, two rotations and a leave that wedge it |
| RotationEnds.StuckIsReached | internal/db/account.go:55-68 | from any ready group, an honest run in which an account is found in no group, joins this one, is left behind by a rotation, and gets its tombstone: the rotation cannot complete |
| Conversions.ConversionsAreSoundExactly | internal/db/convert.go:36-76 | in a Rotating group with no marker, an admin at the generation and nobody stuck: all conversion scans begun now are sound exactly if whoever is behind, deleted plain members apart, is equally far behind |
| GroupInvariants.BornOpenNeverRotates | internal/handlers/rotation.go:333-336 | over every honest run a group created Open has no marker and no link |
| Histories.CreationIsReady | internal/db/group.go:161-188 | CreateGroup of a Rotating group leaves one from which all of these runs start |
| MemberCap.CapIsExact | internal/db/invite.go:679-715 | over any run of capped joins, leaves and removals the member count never passes the larger of the first count and the cap |
| MemberCap.CommittedJoinFits | internal/db/invite.go:827-849 | a join that commits under the JoinSeq it read counted at least everybody then in the group |
| MemberCap.NobodyJoinsUnnoticed | internal/db/invite.go:680-690 | while JoinSeq stands still nobody comes in |
| ContentPins.AuthorHoldsTheKey | internal/db/post.go:95-120 | an accepted write's author is not dormant and derives the key it is sealed with |
| ContentPins.WrittenWhileTheMarkerStands | internal/handlers/comment.go:188-203 | built under marker m: sealed at m - 1, accepted only while the marker names m |
| ContentPins.CompletionEndsThePin | internal/db/comment.go:144-173 | never accepted after that rotation completes, unless somebody leaves from the generation before it |
| ContentPins.WrittenWithoutAMarker | internal/handlers/comment.go:101-106 | generation and marker read one after the other, others' steps between: with no marker read, accepted only with none, and sealed at the current key exactly if no rotation start committed since the generation was read |
| ContentPins.ARotationFitsBeforeTheWrite | internal/db/comment_edit.go:133-156 | a removal and its completion between read and write; the removed member derives the key of what is then accepted |
| GrantChain.ElevatedMembersHoldTheirGrant | internal/db/members.go:107-210 | in every state with META an elevated member's row names a stored grant to them of exactly their role, and some member is an admin |
| GrantChain.EveryGrantReachesTheRoot | internal/db/claim.go:57-133 | from any grant the references reach the root within as many hops as there are grants, each landing on a grant to the signer, of admin unless a self-demotion |
| GrantChain.CreationIsGoverned | internal/db/group.go:161-188 | CreateGroup's root grant starts that off |
| GrantChain.SomeAdminStays | internal/db/leave.go:208-307 | no transaction leaves a group that still has META without an admin |
| GrantChain.ALiveAdminStays | internal/db/leave.go:82-112 | an admin's leave leaves an admin whose account is live |
| GrantChain.ElevatedRolesEndOnRecord | internal/db/remove.go:132-216 | whoever goes while the group stays left or was removed by another admin; an elevated role they had ends in the newest grant, and a plain member's going writes none |
| GrantChain.RolesAreGranted | internal/db/members.go:107-210 | a role changes only by another admin, from the role they saw, with a grant of the new one; an elevated one goes to a live account |
| GroupTables.GroupTable.RemoveMember | internal/db/remove.go:132-316 | commits exactly under its conditions, deletes, appends the demotion and starts the rotation in one step; which condition is reported |
| GroupTables.GroupTable.WhyRemoveMemberFails | internal/db/remove.go:286-308 | none exactly if all conditions hold; a running rotation is told from a minted generation |
| GroupTables.GroupTable.TakeOver | internal/db/leave_takeover.go:51-154 | the marker replaced, the link written, the caller moved, all or nothing |
| GroupTables.GroupTable.SelfRekey | internal/db/rekey.go:58-162 | as a start, only from a handoff row that fits, which it consumes |
| GroupTables.GroupTable.ApproveRekey | internal/db/approve_rekey.go:61-165 | the start and the approved member's entry in one step |
| GroupTables.GroupTable.WhyApproveRekeyFails | internal/db/approve_rekey.go:142-198 | none exactly if all conditions hold; a member behind, not dormant or gone are told apart, and its default case is never reached |
| GroupTables.GroupTable.CommitLeave | internal/db/leave.go:208-347 | the delete, the self-demotion, the successor checks and the marker in one step |
| GroupTables.GroupTable.WhyLeaveFails | internal/db/leave.go:208-347 | none exactly if all conditions hold; a running rotation exactly if a marker stands in the way of one |
| GroupTables.GroupTable.DeleteGroup | internal/db/leave.go:355-394 | the last membership and META together, or neither |
| GroupTables.GroupTable.CommitCompletion | internal/db/rotation.go:291-318 | the marker goes exactly under its conditions, and a missing or moved marker is told first |
| GroupTables.GroupTable.CommitApproveRewrap | internal/db/approve_rewrap.go:58-171 | the wrap and its failures, re-key required only at the approver's own generation in a Rotating group |
| GroupTables.GroupTable.SelfWrap | internal/db/selfwrap.go:42-90 | the entry replaced in place and the row consumed |
| GroupTables.GroupTable.CommitRewraps | internal/db/rotation.go:172-228 | the whole batch or nothing |
| GroupTables.GroupTable.WhyRewrapsFail | internal/db/rotation.go:206-255 | none exactly if the batch fits; a dormant member is reported only when an entry is at another epoch |
| GroupTables.GroupTable.CommitConversion | internal/db/convert.go:78-123 | Open only from Rotating with no marker, by an admin at the generation |
| GroupTables.GroupTable.ChangeRole | internal/db/members.go:107-210 | the role and its grant together |
| GroupTables.GroupTable.ClaimDesignation | internal/db/claim.go:57-133 | the successor's role and the claim together |
| GroupTables.GroupTable.CompleteInviteOnce | internal/db/invite.go:778-962 | one join attempt: the membership and the JoinSeq bump together, a lost race told from a missing group |
| GroupRequests.CompleteRotation | internal/db/rotation.go:262-318 | the paged scan with profile reads, others' steps before every read, none of its own, then the delete. Refused for members behind only if, at a page read, somebody was at an earlier generation and, at their profile read, not dormant; refused by the transaction only if it does not commit in that state; with nothing else committing it passes exactly if nobody is behind and not dormant. Past the scan: excused members only, page by page, from a safe state on; from a trusted one if nobody reopens the rotation; from a sheltered one if nobody converts the group either |
| GroupRequests.CheckPage | internal/db/rotation.go:266-288 | one page of it: held up only by a member of the page at an earlier generation whose profile, read later, has no newer epoch; passed only if every such member is dormant when their profile is read |
| GroupRequests.ScanMembers | internal/db/rotation.go:257-290 | all pages of it: held up exactly by such a member of some page |
| GroupRequests.MemberIsDormant | internal/db/rotation.go:355-369 | the profile is read after the member, others' steps between: dormant exactly if the epoch is past the entry's then, not dormant without a profile |
| GroupRequests.ConvertToOpen | internal/db/convert.go:36-76 | commits only past a scan everybody passed, with no marker at the first read; refused for members behind only if one held it up, as for a completion, and by the transaction only if it does not commit then; excused members only if whoever was behind at the call was equally far behind |
| GroupRequests.RewrapMembers | internal/db/rotation.go:154-228 | the mode read from the marker is the mode committed; batches with repeats, the caller or a wrong size are refused; a marker for another generation is told, and any other refusal is of a transaction that does not commit |
| GroupRequests.ApproveRewrap | internal/db/approve_rewrap.go:58-141 | the marker read is pinned in the step; a marker for another generation is told, and any other refusal is of a transaction that does not commit |
| JoinsAndLeaves.CountMembers | internal/db/invite.go:745-772 | a paged count while others act: each person counted was a member in some state of it, none counted twice, and it is at least the members there if JoinSeq did not move; with nothing else committing it is exact |
| JoinsAndLeaves.CompleteInvite | internal/db/invite.go:679-715 | up to five attempts, given up only after five other joins have committed; a join that commits found fewer members than the cap at the commit; refused as full only after counting that many people who were members since the call, and with nothing else committing exactly if there are that many; any other refusal is of a join that does not commit |
| JoinsAndLeaves.LeaveGroup | internal/db/leave.go:189-347 | the roster holds whoever was a member throughout its reading, each with a role they had in it; the only member deletes the group; otherwise each refusal exactly when its check fails, in their order; last admin if every other admin on the roster is already a tombstone at the call, and only if all are by the answer; any other refusal is of a leave that does not commit |
| JoinsAndLeaves.LeaveAlone | internal/db/leave.go:198-200 | the only member's leave commits exactly as the deletion of the group, and a membership lost meanwhile is told from a lost race |
| JoinsAndLeaves.ReadRoster | internal/db/leave.go:50-80 | page by page with others' steps between: every entry is a role held in some state of the reading, and whoever was a member throughout is on it |
| JoinsAndLeaves.LiveOtherAdmin | internal/db/leave.go:82-112 | a successor is another admin on the roster and no tombstone when named; with every other admin a tombstone at the call there is none; with none named every other admin is a tombstone |
| Accounts.RunKeepsHistory | internal/db/keyrotation.go:479-642 | over every run, however stale the reads: KEYCHANGE# exactly 1..KeyEpoch and linked, each of the day its interval ends, intervals touching, no signing key twice, one CredentialVersion; and histories only grow |
| Accounts.HistoryHoldsSinceRegistration | internal/handlers/keyrotation.go:204-242 | the same for any account since it registered |
| Accounts.ADeletedAccountIsClosed | internal/db/account.go:79-110 | no key, credential or handoff row is written to a deleted account again, whatever is sent |
| Accounts.WrappingKeyMayRepeat | internal/handlers/keyrotation.go:208-211 | two rotations that bring a wrapping key back |
| Accounts.HandoffSeqLinearizes | internal/db/keyrotation.go:187-317 | HANDOFFSEQ stands still exactly if no row was written or deleted, and then rows were only consumed |
| Accounts.RotationSawEveryHandoff | internal/db/keyrotation.go:601-610 | a rotation that commits with the sequence it read saw every row there is |
| Accounts.PendingRowIsKept | internal/db/keyrotation.go:187-195 | a row naming the current key is never replaced: it outlives every run but its own delete, its use, a sweep, a rotation or the account's clearing |
| Accounts.OneWriteAVersion | internal/handlers/keyrotation.go:243-250 | once a password change, recovery or rotation prepared from a credential version has committed, no other prepared from the same version ever does, whatever commits in between |
| Accounts.VersionMoves | internal/db/credentials.go:278-300 | each that commits was prepared from the version there and takes it to the next; nothing else moves it |
| Cooldowns.EndsAreOrderedFromTwoHoursOn | internal/config/config.go:262-278 | for every cooldown: interval ends never decrease over any timed run exactly if it is at least two hours |
| Cooldowns.ShortCooldownMisordersEnds | internal/handlers/pins.go:24-33 | for every shorter one, a run within the signed-day window that puts two ends out of order |
| AccountTables.AccountTable.RotateKeys | internal/db/keyrotation.go:498-642 | commits exactly under its five items' conditions, and what each error says of the rows |
| AccountTables.AccountTable.PutHandoff | internal/db/keyrotation.go:196-263 | the row and the counter together; refused as pending only over a row for the current key |
| AccountTables.AccountTable.DeleteHandoff | internal/db/keyrotation.go:268-297 | gone and counted, or nothing for a deleted account |
| AccountTables.AccountTable.RewrapCredentials | internal/db/credentials.go:211-345 | PROFILE and RECOVERY move together |
| AccountTables.AccountTable.ListHandoffs | internal/db/keyrotation.go:142-172 | if HANDOFFSEQ did not move, what the paged listing returns was there at the start and covers every row at the end |
| AccountTables.AccountTable.HandleRotateKeys | internal/handlers/keyrotation.go:98-330 | reads, checks, others' steps and commit: at the commit no handoff was written since the sequence was read, every row there was checked, and every row checked was there when the sequence was read; the credential version is one past the one the request was prepared from, the superseded keys' interval ends on the signed day, and each refusal says which check failed |
| AccountTables.CheckRotateRequest | internal/handlers/keyrotation.go:169-225 | the request's own checks in order: each refusal exactly when its check fails |
| AccountTables.AccountTable.SweepHandoffs | internal/db/keyrotation.go:345-400 | a paged listing, membership reads and deletes by key with others' steps between all of them: exactly the rows listed as useless are deleted, whatever row is there by then |
| AccountTables.UndisturbedSweep | internal/db/keyrotation.go:345-400 | with nothing else committing, exactly the rows for the current key that a membership can use are left |
| HandoffSweeps.RotationLacksExactlyTheTaken | internal/db/keyrotation.go:601-610 | a rotation that commits with the sequence it read lacks a row it listed exactly if it was consumed or swept since |
| HandoffSweeps.SweepTakesAHandoffExactly | internal/handlers/keyrotation.go:314-319 | a rotation can commit without a handoff it found in place exactly if the sweep of the one before lasts to within a request's lag of the cooldown's end |
| HandoffSweeps.RotationsKeepApart | internal/db/keyrotation.go:479-642 | whatever commits in between, the next rotation commits no earlier than the cooldown's end |
| AccountTables.CheckHandoffs | internal/handlers/keyrotation.go:332-401 | passes exactly if nothing is pending and every owed group is handed over; each refusal names exactly its groups |
| AccountTables.ReadyByRows | internal/handlers/keyrotation.go:332-401 | what passes, row by row: each owed group's names the new key at the newest generation, where the account's entry is |
| Threads.RunKeepsConsistent | internal/db/comment.go:115-220 | over every run: paths parent-closed and gap-free, one ciphertext a nonce and UsedNonces exactly the superseded ones, every reaction notification with its reaction |
| Threads.FairRunKeepsConsistent | internal/db/comment_edit.go:219-270 | any number of deletes and their sweeps in any interleaving with other honest requests, each sweep's deletes in order: the same at every point of the run, with nothing supposed of what a sweep finds |
| Threads.RunIsLater | internal/db/comment_edit.go:189-217 | a tombstone never becomes live, authors never change, histories only grow |
| Threads.EditKeepsNonces | internal/db/comment_edit.go:98-137 | an edit that commits adds a nonce no edition used, or repeats the current one with its own ciphertext |
| Threads.NothingLandsOnATombstone | internal/db/reaction.go:102-116 | nothing new is ever put on a tombstone, so a swept one has no reaction in any later state |
| Threads.ADeletedPostIsClosed | internal/db/comment.go:144-152 | once the post is deleted no row is new or changed but to a tombstone, and reactions and notifications only go, whatever is sent |
| Threads.OnlyTheAuthorWrites | internal/db/comment_edit.go:103-187 | a live row is new or changed only by its author, under a live post, over the edition they saw |
| Threads.HeardUntilTakenBack | internal/db/reaction.go:102-116 | a reaction's notification is there from its commit until it is taken back or swept |
| Threads.UndoKeepsPairs | internal/db/reaction.go:138-165 | taking a reaction back strands no notification exactly if its audience was right or there was none to remove |
| Threads.AnAudienceReadTooEarlyStrandsANotification | internal/handlers/reaction.go:213-227 | a run in which it does strand one |
| ThreadTree.NextCommentPath | internal/db/comment.go:269-314 | the one-item descending query returns exactly one past the last child, or that the numbers are used up |
| ThreadTree.LastKeyNamesTheLastChild | internal/db/comment.go:269-275 | the greatest key under a parent is its last child's or a descendant's, and the children are numbered without gaps |
| CommentPaths.KeyOrderIsReadingOrder | internal/db/comment.go:316-323 | key order is depth-first order, with or without the suffixes reactions carry |
| CommentPaths.PathStringsAreInjective | internal/db/comment.go:108-113 | two comments never share a row key |
| CommentPaths.PrefixSelectsDescendants | internal/db/comment.go:276-290 | begins_with on a parent's prefix selects exactly its descendants |
| ThreadTables.HandleCreate | internal/handlers/comment.go:204-252 | each refusal exactly when its check fails, in their order: a path that skips is one past the next free number of the tree it was checked against, replies are full exactly if the numbers are used up; otherwise the write is answered as it ends, and answered well only if the row there is the author's with the edition sent; whatever commits between the next-path read and the write, the step that commits keeps the tree whole |
| ThreadTables.HandleReaction | internal/handlers/reaction.go:145-157 | the audience is the target's author as read, if they hear of it at all (another user, still a member); whatever commits between the read and the write, the step that commits is honest: the notification is to the author the target has |
| ThreadTables.HandleUndo | internal/handlers/reaction.go:185-241 | the undo bound to the audience read, honest if the target was there when it was read |
| ThreadTables.HandleEdit | internal/handlers/comment_edit.go:150-200 | nonce reuse refused exactly if some edition the comment ever had carries that nonce and it is not the edition there; each other refusal exactly when its check fails, and the step bound to the edition read |
| ThreadTables.ReuseByHistory | internal/db/comment_edit.go:76-96 | what UsedNonces refuses is exactly a nonce of another edition in the comment's history |
| ThreadTables.DeleteRow | internal/db/comment_edit.go:189-270 | whatever others send: its own steps are the tombstone first, then deletes on the target, each reaction's after its notification's, and done, no reaction is left; so if the others' steps are fair where they run, stopped after any step, every notification has its reaction, and done, no notification is left either |
| ThreadTables.ThreadTable.CommitEdit | internal/db/comment_edit.go:103-187 | commits exactly under its conditions; gone is reported exactly for a row not live, a conflict only for another author, edition or a nonce used |
| ThreadTables.ThreadTable.CommitComment | internal/db/comment.go:125-240 | a new row, or a retry answered by the same bytes; the failed condition is told exactly |
| ThreadPages.FollowingCursorsReadsTheThreadOnce | internal/db/comment.go:316-359 | following cursors, with any page lengths and cuts: every comment once in order, and every reaction as often as it is stored, in key order, unless its target is a tombstone |
| ThreadPages.ListComments | internal/db/comment.go:316-359 | however short the query stops, a page goes on from where it starts, is empty only at the end, and its cursor is its last comment unless nothing follows |
| ThreadPages.ListReactions | internal/db/comment.go:364-418 | the bounds a page of comments gives select exactly the reactions on them, and the post's with page one |
| ThreadPages.GetThread | internal/handlers/comment.go:385-412 | one page: comments from the cursor on, and in key order exactly the stored reactions on them, and with page one on the post, whose target is no tombstone; within the budget unless it is a single comment, the cursor moved back with the cut |
| ThreadPages.FitThreadPage | internal/handlers/thread_budget.go:40-72 | at least one comment, and with those kept exactly the reactions within the last one's bound; more than one comment is within the budget, and one more with its reactions would pass it |
| ThreadPages.WithoutDeletedTargets | internal/handlers/comment.go:447-475 | each reaction is returned as often as it was read, in the same order, unless its target is a tombstone |
| ThreadPages.CursorResumes | internal/db/comment.go:333-345 | a cursor naming a comment resumes right after it |
| Purge.DropKeepsGoalOnlyIfHarmless | internal/db/purge.go:71-110 | a delete leaves the end of the purge unchanged exactly if it is one the order allows |
| Purge.BuryKeepsGoal | internal/db/purge.go:446-486 | the tombstone, written when nothing is left to find through the account, does too |
| Purge.RealGroupsStay | internal/db/purge.go:283-305 | no row of a group with a real member is in what goes |
| PurgeTables.PurgeTestAccounts | internal/db/purge.go:111-187 | dying after any write, what is left leads to the same end, and whoever is not a flagged, listed, old enough account, unnamed or with the reserved prefix, keeps PROFILE, claims and own rows, and every group with somebody not flagged, too new or under another name keeps every row; done, it is that end: each account due is a nameless tombstone with nothing left, listed exactly while a group with a real member names it, and test-only groups with one are gone |
| PurgeTables.RunAfterACrash | internal/db/purge.go:99-110 | a run that dies anywhere and another finish as one uninterrupted run, and keep and remove the same |
| PurgeTables.PurgeGroup | internal/db/purge.go:403-426 | threads, rows, and last the membership that leads to the group |
| PurgeTables.PlanGroups | internal/db/purge.go:276-335 | the groups that go and those kept, split by whether anybody in them is real |
| Encoding.LengthPrefixedConcat | internal/crypto/group.go:373-387 | the loop computes the concatenation that the next rows are about |
| Encoding.ParseInvertsConcat | internal/crypto/group.go:373-387 | parsing gives back any list of fields under 2^32 bytes |
| Encoding.ParseAcceptsOnlyConcat | internal/crypto/keybundle.go:164-174 | exactly the bytes the encoder can produce are accepted |
| Encoding.LongFieldIsAmbiguous | internal/crypto/payload.go:48-54 | at 2^32 bytes two different lists encode alike |
| Encoding.ContextualizeIsInjective | internal/crypto/ed25519.go:89-95 | context and message to bytes is injective for contexts without NUL |
| Encoding.SignedBytesAreUnique | internal/crypto/ed25519.go:72-95 | context and field list to signed bytes is injective |
| Encoding.InviteStepsNeverCoincide | internal/crypto/invite.go:38-71 | an invite's creation and acceptance never sign the same bytes |
| Encoding.InvitePayloadLayouts | internal/crypto/invite.go:38-71 | which field stands where in each |
| Encoding.PutUint32IsBigEndian | internal/crypto/payload.go:48-54 | the length prefix is big-endian, modulo 2^32 |
| Payloads.SignedPayloadBindsEveryField | internal/crypto/payload.go:35-54 | equal payloads have equal authors, groups, keys, generations, days and ciphertext hashes, and equal ciphertexts where the hash is injective |
| Payloads.SignedPayloadLayout | internal/crypto/payload.go:35-46 | which field stands where: author, group, sort key, decimal generation, day, hash |
| Payloads.DecimalBytesAreDigits | internal/crypto/payload.go:42 | decimal digits worth the number, most significant first and without leading zeros |
| Payloads.PinPayloadIsCanonical | internal/crypto/pin.go:41-57 | equal exactly if everything named is equal and the signing keys are the same multiset |
| Payloads.PinPayloadLayout | internal/crypto/pin.go:41-57 | which field stands where, and the keys after them in ascending byte order |
| Payloads.RosterPreimageIsCanonical | internal/crypto/pin.go:76-83 | the bytes hashed depend on the entries' multiset only, and determine it |
| Payloads.RosterPreimageLayout | internal/crypto/pin.go:76-83 | the count, then the entries in ascending byte order |
| Payloads.KeyBundleRoundTrip | internal/crypto/keybundle.go:76-174 | decoding yields a bundle exactly if encoding it yields the bytes; an unknown version is told from damage |
| Payloads.KeyBundleLayout | internal/crypto/keybundle.go:76-94 | a version byte, then seed and private key, each behind a big-endian 32; other sizes are refused |

## Left out

- AES-GCM, Ed25519, X25519, HKDF, Argon2id and SHA-256 are symbols or injective functions.
- DynamoDB conflicts, batch retries, unprocessed items, GSI lag and marshalling: a step happens whole or not at all, reads are consistent.
- HTTP decoding, status codes, sessions, rate limits and signature checks in the handlers.
- Public groups: modelled as Open ones where the code asks whether a group rotates. The code asks differently on leave and on removal for a public group that rotates.
- Users without a PROFILE row: every member has an account, so a missing profile is only the not-dormant answer of memberIsDormant.
- Invite rows, SENT#, ADMISSION# and wrap records: written beside the rows modelled, and no condition modelled reads them.
- GroupTables.GroupTable.CompleteInviteOnce: does not model ErrInviteAlreadyCompleted, because SENT# rows are not part of this model.
- ListGenerationKeys, ListPosts and the other listings that only page over rows.
- Reply notifications: random keys, found by a filter; only reaction notifications are paired.
- PurgeTables.PurgeTestAccounts: takes the list of accounts to examine, because the cap on accounts a run examines would let a second run go further than an uninterrupted one.
- PurgeTables.RunAfterACrash: takes one such list for both runs.
- Threads.RunKeepsConsistent: supposes that each undo's audience was read right; UndoKeepsPairs says exactly when one read wrong strands a notification.
- Join requests in a purged group are listed both under the group and under the user; the model gives the two listings keys of their own.
- The purge's INVITE# rows, whose SENT# pointer may go in an earlier batch, and its report.
- Registration, login, lockout, pins, verifications, settings edits, designation eligibility.
- Expiry of posts and comments by TTL.
