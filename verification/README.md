# Models of the Bison Relay client

This project models the parts of the Bison Relay client that keep state over many messages, and proves
what they promise over whole runs. Each module stands for one component:

- `GroupList`, `GroupClient`, `GroupEffects`, `GroupStore`, `GroupHistory`, `GroupNetwork`: group chats
  (GCs). The rules for one list, one client as a pure step function, what each of its events does in plain
  terms (when it goes through, which list is stored or deleted then, who is told), the same client as an
  object whose methods are proved equal to it, the properties of one client's whole history, and a network
  of clients in which every packet may be lost, repeated or reordered.
- `PostComments`: the reply tree of a post, built from linked nodes and flattened with a stack.
- `PageSections`: sections of a page replaced in place on a byte slice, with Go's `append` modelled on
  arrays (it writes in place while there is room, and moves to a new array otherwise).
- `IdleUsers`: the automatic handshake and the removal of idle users, as a machine with a clock and a
  history.
- `KXSearch`: the search for a user through other users.
- `MediateID`: requests for introductions, how far apart and how many.
- `FileChunks`: the download of a file in paid chunks; every transaction is one step.
- `ContentFilters`: the lazily filled cache of compiled filters.
- `WordWrap`, `Windows`, `InvitePrefix`, `ChanPoint`, `CommonPrefix` (with `Decimal`): the word wrapper,
  the marks of windows, the suggested prefix of a session id, channel points as text, common prefixes.

Where the source updates fields or arrays step by step, the model is a class or a method, and its
postcondition equates the new state with a function; the properties are then lemmas about that function
and about runs of it. Clocks, random draws and the order in which Go visits a map are parameters. All
results hold for every run of any length unless the row says otherwise.

## What was found

- A join and a kick add one to the 64-bit generation without the guard that other updates go through, so
  the generation can wrap to zero (`GroupHistory.RecordStep` says exactly when, by the guards of the two).
- Every list of a GC, in every run, is one that some action wrote at that generation, less users who
  parted (`GroupNetwork.EveryListWasWritten`), so the lists of a generation agree if and only if those
  written at it do (`GroupNetwork.AgreementExact`). With one administrator, and no more than 2^64 - 1
  actions, only one is written (`GroupNetwork.SingleWriterAgreement`).
- `ModifyGCAdmins` checks neither repetition nor the owner. A list with either leaves a misshapen list
  (`GroupNetwork.ImproperAdminsBreakShape`). A removed user keeps its permission if and only if the list
  has version 1 and names it at least twice (`GroupList.RemovedKeepsPerm`; `RepeatedAdminSurvivesKick` is
  an instance).
- With a second administrator two lists can be written at one generation, and they can have different
  members: `GroupNetwork.TwoAdminsDisagree` gives such a run of two clients from the start.
- A filter stored after the last one was removed gets the removed filter's id, and the removed
  expression, still cached, goes on deciding (`ContentFilters.RemovedExpressionDecides`). The cache is
  right exactly as long as no filter is stored under such an id (`ContentFilters.StepCoherent`).
- A message is forgotten when a new key exchange replaces the ratchet it came on, so a user can be removed
  as idle soon after writing (`IdleUsers.RekeyedUserIsRemoved`).
- A reply to a key exchange search that names a known user twice has that user asked twice
  (`KXSearch.StepOnce` says exactly what asks twice); replies made by this client never do.
- Two invoices sent in a row for one chunk are both paid (`FileChunks.TwoPaymentsUnderWay`).
- Replies to two sections of a page can give different pages in different orders, but only when one
  section is nested in the other and its id is used again behind (`PageSections.RepliesCommute`).
- A comment that names itself as its parent is not shown, nor is anything below it
  (`PostComments.ShownIsPermutation`).
- Closing a window remembers its number, which then stands for the window that followed it, so going back
  shows a window that may never have been shown (`Windows.CloseForgets`; `Windows.GoingBack` says exactly
  when going back leads to the window shown before).
- Two invites to one realtime session by different users cannot be told apart by any prefix
  (`InvitePrefix.SuggestionAccepted`).
- `ResendGCList` hands the stored record, not the list, to the composer of messages, which has no case
  for it (rpc/routedrpc.go:224-424); its documentation says that the list is sent again. The model follows
  the code: nothing is sent, so it is not a step.

## Model

| member | source | states |
|---|---|---|
| GroupList.RemoveMemberKeepsShape | client/client_groupchat.go:1353-1413 | removing a member keeps the list well shaped, keeps the owner, and leaves the removed user without permission |
| GroupList.AddMemberKeepsShape | client/client_groupchat.go:833-863 | adding a new member keeps the shape |
| GroupList.SetAdminsShape | client/client_groupchat.go:1900-1948 | an accepted administrator list keeps the shape if and only if it has no repetition and not the owner |
| GroupList.RemovedKeepsPerm | client/client_groupchat.go:1375-1402 | a removed user keeps permission if and only if the list has version 1 and names it at least twice as an extra administrator, on any list |
| GroupList.RepeatedAdminSurvivesKick | client/client_groupchat.go:1900-1948 | an accepted administrator list with a repetition, and the kick after which the user keeps permission |
| GroupList.SetOwnerHandsOver | client/client_groupchat.go:1951-1975 | the members are permuted, the new owner comes first, the old one fails the permission check |
| GroupClient.AliasIndexIsFirstFree | client/client_groupchat.go:1001-1018 | the alias loop stops within one try more than there are chats, on the first free candidate |
| GroupClient.CandidatesDiffer | client/client_groupchat.go:1001-1018 | candidate aliases of different numbers differ, which is why the loop stops |
| GroupClient.StepExplained | client/client_groupchat.go:670-803 | a complete account of how one step can change a stored list |
| GroupClient.StepSends | client/client_groupchat.go:1435-1495 | only a local administrator's action sends a list, and it sends the new one; only a member that leaves sends a part message |
| GroupClient.StepKeepsKeys | client/client_groupchat.go:670-803 | a stored list always has the id it is stored under |
| GroupEffects.PermIs | client/client_groupchat.go:206-231 | the owner administers versions 0 and 1, extra administrators version 1, nobody later ones |
| GroupEffects.CheckIs | client/client_groupchat.go:683-740 | when a list may take another one's place |
| GroupEffects.LessOneMeans | client/client_groupchat.go:1375-1402 | what is left after a member is taken off: one copy less, all others in order |
| GroupEffects.PartTakesOff | client/client_groupchat.go:1579-1596 | a part message takes exactly its sender off a held list, which keeps generation, version and name, unless it owns the chat or is not in it |
| GroupEffects.ListReplaces | client/client_groupchat.go:670-803 | a received list, kick, upgrade or administrators message stores its list, or deletes the chat for a client not in it, if and only if the list may follow |
| GroupEffects.KillMessageDeletes | client/client_groupchat.go:1653-1688 | a kill deletes the chat if and only if the owner sent it |
| GroupEffects.KickTakesOff | client/client_groupchat.go:1435-1495 | when a kick goes through, the list it stores and the former members it tells |
| GroupEffects.UpgradeSets | client/client_groupchat.go:1830-1861 | when an upgrade goes through, the list it stores and the members it tells |
| GroupEffects.AdminsSet | client/client_groupchat.go:1900-1948 | when an administrator change goes through, the list it stores and the members it tells |
| GroupEffects.OwnerHandsOver | client/client_groupchat.go:1951-1993 | only the owner hands over; the two change places, the others stay, and the members are told |
| GroupEffects.PartLeaves | client/client_groupchat.go:1528-1576 | who may leave, that the chat is deleted and the others told |
| GroupEffects.KillDeletes | client/client_groupchat.go:1599-1650 | who may end the chat, that it is deleted and the others told |
| GroupEffects.JoinAdds | client/client_groupchat.go:807-874 | when a join uses its invite up, and when it adds the user, as the last member, and sends the list to all |
| GroupEffects.FirstListStores | client/client_groupchat.go:964-1024 | when a first list is stored, under which name, and that all invites to the chat go |
| GroupEffects.InviteSends | client/client_groupchat.go:235-309 | when an invite is sent, to whom, and what is stored |
| GroupEffects.InviteMessageStores | client/client_groupchat.go:312-369 | when a received invite is stored |
| GroupEffects.AcceptJoins | client/client_groupchat.go:400-437 | an accepted invite is marked, and its sender gets the join if known and in time |
| GroupEffects.CreateStores | client/client_groupchat.go:158-196 | when a chat is created and what it is like |
| GroupEffects.AliasSets | client/client_groupchat.go:51-83 | when an alias is set |
| GroupEffects.InvitesGo | client/client_groupchat.go:372-397 | which invites declining and purging delete |
| GroupStore.Client.GCIDByName | client/client_groupchat.go:98-124 | whether a chat shows the name, over all chats in any order |
| GroupStore.Client.FindGCInvite | client/clientdb/gc.go:184-209 | an invite to the chat with the token, or proof that there is none |
| GroupStore.Client.FindAcceptedGCInvite | client/clientdb/gc.go:212-235 | an accepted invite from the user, or proof that there is none |
| GroupStore.Client.SendToGCMembers | client/client_groupchat.go:471-516 | one packet to every listed member that is another, known user |
| GroupStore.Client.MaybeUpdateGCFunc | client/client_groupchat.go:670-786 | every check of the guard, the deletion of a list without the local client, and no change on error |
| GroupStore.Client.HandleNewList | client/client_groupchat.go:796-803 | a received list goes through the guard with its sender as the updater |
| GroupStore.Client.UpgradeGC | client/client_groupchat.go:1830-1861 | the new version and generation, sent to the members, or an error and no change |
| GroupStore.Client.ModifyGCAdmins | client/client_groupchat.go:1900-1948 | the new administrators, sent to the members, or an error and no change |
| GroupStore.Client.ModifyGCOwner | client/client_groupchat.go:1951-1993 | the new owner, sent to the members, or an error and no change |
| GroupStore.Client.RemoveMemberFromGC | client/client_groupchat.go:1353-1413 | the in-place removal from members and administrators equals removal of the first occurrence |
| GroupStore.Client.GCKick | client/client_groupchat.go:1435-1495 | the kicked member is told as well as those who stay; refused when a linked realtime session is not live |
| GroupStore.Client.HandleGCPart | client/client_groupchat.go:1579-1596 | a part message removes its sender and leaves the generation |
| GroupStore.Client.PartFromGC | client/client_groupchat.go:1528-1576 | the chat is dropped and the other members told; the owner cannot leave |
| GroupStore.Client.KillGroupChat | client/client_groupchat.go:1599-1650 | only the owner kills a chat |
| GroupStore.Client.HandleGCKill | client/client_groupchat.go:1653-1688 | a kill counts only from the owner |
| GroupStore.Client.InviteToGroupChat | client/client_groupchat.go:235-309 | an invite is stored and sent only by an administrator, and only with room in a linked realtime session it administers |
| GroupStore.Client.HandleGCInvite | client/client_groupchat.go:312-369 | a received invite is refused when the chat is held or the invite expired |
| GroupStore.Client.AcceptGroupChatInvite | client/client_groupchat.go:400-437 | the invite is marked accepted and the join sent |
| GroupStore.Client.DeclineGroupChatInvite | client/client_groupchat.go:372-397 | the invite is deleted |
| GroupStore.Client.RemoveExpiredGCInvites | client/client_groupchat.go:2034-2057 | exactly the expired invites are deleted |
| GroupStore.Client.DelAllInvitesToGC | client/clientdb/gc.go:144-158 | all invites to a joined chat are deleted, and no others |
| GroupStore.Client.HandleGCJoin | client/client_groupchat.go:807-874 | the checks of a join, the use of its invite and the new member |
| GroupStore.Client.SaveJoinedGC | client/client_groupchat.go:964-1024 | the first list is stored under a free display name, and the invites to the chat are deleted |
| GroupStore.Client.FreeAlias | client/client_groupchat.go:1001-1018 | the alias loop over held chats ends with no alias or the first free candidate |
| GroupStore.Client.HandleGCList | client/client_groupchat.go:1029-1060 | a list of a held chat is an update, another one a first list |
| GroupStore.Client.NewGroupChatVersion | client/client_groupchat.go:158-196 | a new chat with the local client as its only member, unless the name is taken |
| GroupStore.Client.AliasGC | client/client_groupchat.go:51-83 | an alias is set only if no other chat shows it |
| GroupHistory.RecordStep | client/client_groupchat.go:670-803 | one step never lowers version or changes the name, lowers the generation exactly when a kick or join passes its guards at the largest one, changes the owner only by the owner; past version 1 only a part message changes a list |
| GroupHistory.StepAdmits | client/client_groupchat.go:807-863 | a kick or a join goes through if and only if its guards hold, and then stores the new list |
| GroupHistory.RecordLife | client/client_groupchat.go:670-803 | the same over the whole life of a record under any events and messages |
| GroupHistory.GenerationCanDrop | client/client_groupchat.go:1375-1402 | a concrete kick that brings the generation to zero |
| GroupHistory.AddedMemberWasInvited | client/client_groupchat.go:807-863 | the invite behind a new member was sent by this client, to that user, for that chat, and had not expired |
| GroupHistory.InvitesUsedOnce | client/client_groupchat.go:807-863 | two new members never rest on one invite |
| GroupHistory.InvitesOwnAlways | client/client_groupchat.go:342-359 | every stored invite to a held chat was sent by this client |
| GroupHistory.NamesAlwaysDistinct | client/client_groupchat.go:57-107 | the display names of held chats stay pairwise distinct over every run |
| GroupHistory.NameEffect | client/client_groupchat.go:158-196 | a step leaves a name alone or gives its chat a name no other chat shows |
| GroupNetwork.ShapeAlways | client/client_groupchat.go:670-803 | every list stored or on the wire is well shaped over every run, if administrator changes are proper |
| GroupNetwork.ShapeStep | client/client_groupchat.go:796-803 | one action keeps all lists well shaped |
| GroupNetwork.ImproperAdminsBreakShape | client/client_groupchat.go:1900-1948 | an administrator change that goes through keeps the shape if and only if it is proper |
| GroupNetwork.EveryListWasWritten | client/client_groupchat.go:670-803 | over every run, with any number of administrators and owners, every list stored or on the wire is one that some action wrote at that generation, in the same order, less users who parted |
| GroupNetwork.AgreementExact | client/client_groupchat.go:670-803 | all lists that ever exist at a generation agree, but for parted users, if and only if the lists written at it do |
| GroupNetwork.SingleWriterAgreement | client/client_groupchat.go:670-803 | without extra administrators and change of owner, two lists of one generation agree in name, version and order, and in members but for users who parted |
| GroupNetwork.AgreementAlways | client/client_groupchat.go:1579-1596 | with one writer, every list stored or on the wire is the owner's of that generation less parted users |
| GroupNetwork.OneWriterAlways | client/client_groupchat.go:206-231 | with one writer, every list has the owner first and no extra administrators, and only the owner sends lists |
| GroupNetwork.WrittenIsMove | client/client_groupchat.go:1353-1413 | with one writer, every list written is one the owner moved to |
| GroupNetwork.OwnerMonotone | client/client_groupchat.go:1353-1413 | the owner's generation never goes back while it cannot wrap |
| GroupNetwork.MovesOnce | client/client_groupchat.go:1353-1413 | the owner moves to a generation at most once |
| GroupNetwork.TwoAdminsDisagree | client/client_groupchat.go:1435-1495 | a run from the start, of two clients, after which two lists of one generation have different members and nobody parted |
| PostComments.ParentIsLatest | brclient/postwin.go:164-186 | a comment hangs under the latest one so far with the id it names, and is a root if there is none |
| PostComments.PreorderHolds | brclient/postwin.go:161-201 | the preorder of some trees holds exactly what lies below their roots |
| PostComments.ShownIsPermutation | brclient/postwin.go:161-201 | no comment is shown twice, and all are shown if and only if none names itself as its parent |
| PostComments.ShownInOrder | brclient/postwin.go:161-201 | ancestors before descendants, replies to one comment in arrival order |
| PostComments.ShownSubtree | brclient/postwin.go:161-201 | a comment and everything below it stand together |
| PostComments.DepthCountsAncestors | brclient/postwin.go:180-186 | the depth of a comment that is shown is the number of its ancestors |
| PostComments.PostWindow.UpdatePost | brclient/postwin.go:161-201 | the comments after the update are the recursive preorder of the forest, with their depths |
| PostComments.PostWindow.BuildTree | brclient/postwin.go:161-186 | the nodes linked by the map loop are the forest of the comments |
| PostComments.PostWindow.Flatten | brclient/postwin.go:188-201 | the stack loop terminates and yields the preorder |
| PostComments.PostWindow.PushReversed | brclient/postwin.go:190-200 | a list pushed last first |
| PageSections.Slice.Append | brclient/chatwindow.go:630-635 | appending gives old contents plus new ones, in place or in a new array |
| PageSections.ChatWindow.ReplaceSection | brclient/chatwindow.go:669-699 | truncating, appending and restoring from the auxiliary buffer equals the pure splice |
| PageSections.ChatWindow.ReplaceAsyncTargetWithLoading | brclient/chatwindow.go:595-640 | the page becomes the splice with the loading text, or nothing changes |
| PageSections.ChatWindow.ReplacePage | brclient/chatwindow.go:642-718 | from history: all replies spliced into the first resource; a reply: spliced into the page; otherwise the new page |
| PageSections.ChatWindow.ApplyReplies | brclient/chatwindow.go:667-699 | the loop over replies is the fold of splices, with one buffer reused |
| PageSections.SectionIs | brclient/chatwindow.go:669-690 | a section lies between the first start marker of its id and the first end marker behind it |
| PageSections.NoSection | brclient/chatwindow.go:669-690 | there is none only without such markers |
| PageSections.SpliceBytes | brclient/chatwindow.go:669-699 | byte by byte, all up to the start marker's end and all from the end marker on is kept |
| PageSections.SpliceRelocates | brclient/chatwindow.go:606-635 | after a reply the section is where it was and holds the reply |
| PageSections.LastReplyWins | brclient/chatwindow.go:669-699 | of two replies to one section only the last shows |
| PageSections.LoadingThenReply | brclient/chatwindow.go:606-635 | showing the loading text before the reply leaves no trace |
| PageSections.LiveIsHistory | brclient/chatwindow.go:652-699 | the page seen live is the page rebuilt from the stored replies |
| PageSections.RepliesCommute | brclient/chatwindow.go:669-699 | replies to two ids commute if and only if neither is nested in the other with another section of its id, of other contents, behind |
| PageSections.InnerReplyLost | brclient/chatwindow.go:669-699 | a reply to a nested section is lost when the outer one is replaced |
| PageSections.RepliesCanClash | brclient/chatwindow.go:669-699 | a concrete page on which two replies do not commute |
| PageSections.StartsApart | brclient/chatwindow.go:425-426 | start markers of different ids do not overlap |
| IdleUsers.RemovedWasIdle | client/client_kx.go:827-990 | a removed user's last decryption and creation times, and every message on its ratchet and first key exchange in the run, lie before the limit; it is not ignored and has an attempt half an interval old without an answer since |
| IdleUsers.StoredAttempt | client/client_rm_handlers.go:19-64 | a stored attempt was made at that time, and no SYNACK, ACK or key exchange came since |
| IdleUsers.DecryptedBy | client/client_kx.go:906-913 | the last decryption time covers every message on the ratchet in use |
| IdleUsers.CreatedAt | client/client_kx.go:180-199 | the creation time stays that of the first key exchange |
| IdleUsers.PassBegun | client/client_kx.go:830-850 | a pass runs only with both features on, and its limits count from its start |
| IdleUsers.RekeyedUserIsRemoved | client/client_kx.go:196-208 | a concrete run that removes a user who wrote within the limit, before a new key exchange |
| IdleUsers.RepeatNeedsNews | client/client_kx.go:784-816 | between an attempt and a later automatic one there was an answer or a later message |
| IdleUsers.AttemptedWasIdle | client/client_kx.go:740-820 | over every run, a user the client attempts a handshake with on its own was last heard on its ratchet, and first met, an interval before the pass began |
| IdleUsers.WantsIs | client/client_kx.go:753-816 | which users a turn attempts a handshake with |
| IdleUsers.TurnLeaves | client/client_kx.go:753-816 | what a turn leaves in the address book, for this user and the others |
| IdleUsers.PassReaches | client/client_kx.go:740-820 | a pass sends a handshake to exactly the idle ones of its users, each once, and marks them |
| IdleUsers.RemovesIs | client/client_kx.go:886-990 | on which grounds exactly a user is removed, and from what |
| IdleUsers.Client.HandshakeIdleUsers | client/client_kx.go:740-820 | the pass over the users equals the run of its turns, with the handshakes it sends |
| IdleUsers.Client.HandshakeTurn | client/client_kx.go:753-816 | one user's turn: an idle user without an attempt is marked and sent a SYN, one heard from since the limit is left alone, stale attempts are cleared |
| IdleUsers.Client.UnsubIdleUsers | client/client_kx.go:827-992 | exactly the removals of the specification, in order |
| IdleUsers.Client.GCsToUnsub | client/client_kx.go:944-949 | the administered GCs with the user, in order |
| IdleUsers.Client.HandleRMHandshake | client/client_rm_handlers.go:42-69 | which messages clear the attempt and what is answered |
| IdleUsers.Client.ClearLastHandshakeAttemptTime | client/client_rm_handlers.go:19-39 | the attempt of a stored entry is cleared |
| IdleUsers.Client.Handshake | client/client.go:1160-1184 | the attempt is stored before the SYN is sent |
| IdleUsers.Client.CompleteKX | client/client_kx.go:180-210 | the new entry keeps the creation time and has no attempt |
| KXSearch.StepOnce | client/client_kxsearch.go:212-331 | a step asks a user twice about a target if and only if it restarts the search with it or a reply names it twice |
| KXSearch.AskedOnce | client/client_kxsearch.go:212-331 | over every run without such steps nobody is asked twice |
| KXSearch.SearchStops | client/client_kxsearch.go:212-331 | in a run of any length over a fixed set of users a search asks each at most once, so at most as many as there are |
| KXSearch.IntroductionsBounded | client/client_kxsearch.go:275-330 | introductions asked for never exceed the distinct users named by the replies, reply by reply |
| KXSearch.ReplyAsksOrIntroduces | client/client_kxsearch.go:275-330 | an expected reply asks every known user it names, and stores for exactly the others an action about its target and a request to its sender |
| KXSearch.NamedIsAsked | client/client_kx.go:45-70 | over every run, a user that a reply named and that had to be met is asked when its key exchange completes, if the target is still unknown |
| KXSearch.MetIsAsked | client/client_kx.go:45-70 | whose actions waited is asked about each of their targets still searched for |
| KXSearch.StartAsks | client/client_kxsearch.go:66-123 | when a search starts, and that its relayer is recorded and asked |
| KXSearch.TargetIsFirst | client/client_kxsearch.go:129-180 | the target is the author named by the first reference that says anything, if its copy can be read |
| KXSearch.MetOnce | client/client_kx.go:45-70 | the action after a key exchange asks a user not asked before |
| KXSearch.CandidatesSend | client/client_kxsearch.go:275-330 | the queries a reply leads to, and that users with an action stored are unknown |
| KXSearch.QueriesForNoDup | client/client_kxsearch.go:275-330 | a reply asks nobody twice if and only if it names no user to be asked twice |
| KXSearch.Client.SendKXSearchQuery | client/client_kxsearch.go:14-34 | the query is recorded, then sent to a known user |
| KXSearch.Client.KXSearchPostAuthor | client/client_kxsearch.go:66-123 | when a search starts, and that it queries the relayer |
| KXSearch.Client.HandleKXSearch | client/client_kxsearch.go:129-209 | when there is an answer, and that its ids are distinct and are the target or exactly the relayers |
| KXSearch.Client.HandleKXSearchReply | client/client_kxsearch.go:212-331 | the loop over the ids equals the specification |
| KXSearch.Client.CompleteKX | client/client_kx.go:100-118 | the actions that waited are taken and forgotten |
| MediateID.RequestsApart | client/client_autokx.go:99-135 | two automatic requests for one target are more than the threshold apart, unless a stored request was dropped early in between |
| MediateID.StoredStays | client/clientdb/kx.go:146-200 | a request stays stored until it is removed or old enough for another |
| MediateID.AutoRequestNeeds | client/client_autokx.go:99-135 | an automatic request finds none recent and is stored |
| MediateID.RoundStores | client/client_groupchat.go:630-643 | of a round of requests at most one is for a target |
| MediateID.SendsWithinLimit | client/client_groupchat.go:529-643 | messages to GCs request a target no more often than the limit between key exchanges, while the 32-bit counter has room |
| MediateID.SendsWithinLimitAlone | client/client_groupchat.go:545-585 | when nothing else counts, the counter stops one past the limit and the limit always holds |
| MediateID.SentCounted | client/client_groupchat.go:529-643 | one message keeps the counter above the requests it made |
| MediateID.WantedBelowLimit | client/client_groupchat.go:553-585 | a member is asked for only below the limit |
| MediateID.RequestSets | client/client_autokx.go:80-135 | when a request is made, and what is stored, counted and sent then |
| MediateID.FirstListAsks | client/client_groupchat.go:1060-1082 | a first list asks once for exactly its members that can be asked for, the local client apart |
| MediateID.SendAsks | client/client_groupchat.go:529-643 | a message to a GC asks its owner once for exactly the missing members that can be asked for and are not left alone |
| MediateID.ExaminedSkips | client/client_groupchat.go:553-585 | exactly the members at the limit are counted up, once |
| MediateID.OtherStepsSet | client/client_autokx.go:43-75 | what a request by hand, a completed key exchange, joining a GC, a removal and the expiry change |
| MediateID.Client.MaybeRequestMediateID | client/client_autokx.go:80-152 | when a request is made, and that it is counted and stored |
| MediateID.Client.RequestMediateIdentity | client/client_autokx.go:43-75 | a request by hand is stored for a known mediator and an unknown target |
| MediateID.Client.SendToGCMembers | client/client_groupchat.go:529-643 | looking at all missing members, then requesting, equals the specification |
| MediateID.Client.Examine | client/client_groupchat.go:535-585 | what is found out about one member, and the counter at the limit |
| MediateID.Client.HandleFirstList | client/client_groupchat.go:1060-1082 | a first list asks its sender for every unknown member but the local client |
| MediateID.Client.ClearOldMediateIDs | client/client_autokx.go:268-291 | exactly the requests older than the expiry are removed |
| FileChunks.PaymentsWithinInvoices | client/client_content.go:370-430 | payments started for a chunk, and one more if it has an invoice, never exceed the invoices stored for it |
| FileChunks.InvoiceBetweenPayments | client/client_content.go:374-430 | between two payments for a chunk an invoice was stored for it |
| FileChunks.PaidWasPriced | client/client_content.go:840-898 | a paid invoice was accepted earlier for that chunk, at no more than its price |
| FileChunks.TwoPaymentsUnderWay | client/client_content.go:876-894 | two invoices in a row are both paid |
| FileChunks.HoldsAfter | client/client_content.go:374-430 | what gives a chunk an invoice to pay and what takes it away |
| FileChunks.InvoiceTaken | client/client_content.go:840-898 | exactly when an invoice is taken, and that it is then stored and due |
| FileChunks.PaymentBegins | client/client_content.go:374-396 | exactly when a payment begins |
| FileChunks.PaymentEnds | client/client_content.go:405-430 | a failed payment leaves the chunk blank without an invoice, a successful one paid with it |
| FileChunks.RequestAndChunkCome | client/client_content.go:356-367 | what a sent request and a received chunk change |
| FileChunks.TurnDoes | client/client_content.go:489-582 | which chunks a turn asks for, and which it has paid |
| FileChunks.LoopDoes | client/client_content.go:446-592 | the loop asks for exactly the chunks to be asked for and has exactly the payable ones paid |
| FileChunks.FailedIsAskedAgain | client/client_content.go:408-414 | after a failed payment the next turn asks for the chunk again |
| FileChunks.StateHasCause | client/client_content.go:374-430 | over every run, a chunk's state was given by the one kind of step that gives it |
| FileChunks.PaidWasPaid | client/client_content.go:374-430 | over every run, a chunk that is paid had a payment started for it that ended well |
| FileChunks.ChunkPriceIs | client/clientintf/util.go:67-78 | a chunk's price is its share of the cost, rounded down, and at least an atom |
| FileChunks.PriceOfFile | client/clientintf/util.go:67-78 | the chunks of a file together cost at most its cost and an atom for each chunk, with 64-bit products |
| FileChunks.PriceOfChunks | client/clientintf/util.go:67-78 | the same for the first n chunks and their share of the size |
| FileChunks.Download.HandleFTPayForChunk | client/client_content.go:840-898 | the checks of an invoice in order, and that it is stored and to be paid |
| FileChunks.Download.BeginPayment | client/client_content.go:374-396 | only a chunk that has an invoice is paid |
| FileChunks.Download.EndPayment | client/client_content.go:405-430 | a failure clears the invoice, a success marks the chunk paid, in the stored record |
| FileChunks.Download.RequestSent | client/client_content.go:356-367 | a request that was sent overwrites the state of its chunk |
| FileChunks.Download.SaveChunk | client/client_content.go:904-935 | a received chunk is marked downloaded |
| FileChunks.Download.DownloadChunks | client/client_content.go:446-592 | the loop over missing chunks equals its turns, ending at the first error |
| FileChunks.Download.TakeTurn | client/client_content.go:489-582 | what is done about a chunk in each state |
| ContentFilters.CacheDecides | client/client_filters.go:139-206 | with a coherent cache the decision is that of compiling each time, and the cache stays coherent |
| ContentFilters.StepCoherent | client/client_filters.go:42-206 | a step breaks the cache if and only if it stores a filter under an id cached from another expression |
| ContentFilters.DecisionAlways | client/client_filters.go:42-206 | over every run without such a store every message is decided as if there were no cache |
| ContentFilters.ScanDecides | client/client_filters.go:128-206 | the decision is the id of the first filter about the message's sender, GC and kind that matches it, and none if and only if no filter does |
| ContentFilters.DecisionMeans | client/client_filters.go:128-206 | the same for the cached decision over every run without a stale store |
| ContentFilters.LoadTakesAll | client/client_filters.go:15-38 | loading takes all stored filters by increasing id and forgets the cache |
| ContentFilters.NextIDIs | client/clientdb/filters.go:6-21 | the id a new filter gets |
| ContentFilters.StoreSets | client/client_filters.go:42-74 | where a filter is stored, and that the others keep their places |
| ContentFilters.RemoveDrops | client/client_filters.go:77-96 | removing takes that filter alone, from storage and memory, in order |
| ContentFilters.RemoveAllDrops | client/client_filters.go:100-116 | removing all leaves nothing but the cache |
| ContentFilters.CoherentAlways | client/client_filters.go:15-115 | storage and memory hold the same filters under distinct ids, over every run |
| ContentFilters.RemovedExpressionDecides | client/clientdb/filters.go:6-21 | the id of the last filter is given again, and its expression goes on deciding |
| ContentFilters.Client.LoadContentFilters | client/client_filters.go:15-38 | the stored filters by increasing id and an empty cache |
| ContentFilters.Client.StoreContentFilter | client/client_filters.go:42-74 | the filter replaces the one with its id or comes last, and its cached expression is dropped only in the first case |
| ContentFilters.Client.RemoveContentFilter | client/client_filters.go:77-96 | the filter leaves storage and memory, its cached expression stays |
| ContentFilters.Client.RemoveAllContentFilters | client/client_filters.go:100-116 | all loaded filters leave storage and memory |
| ContentFilters.Client.ShouldFilter | client/client_filters.go:128-209 | the lazy scan's decision and cache; with a coherent cache, the first filter that is about the message and matches it |
| WordWrap.CountWrappedLines | brclient/textareahelper.go:35-104 | the lines are the text with blanks for white space and one at the end, the result is their number less one, no line is too wide, none has room for the first word of the next, and no word is broken that fits a line |
| WordWrap.BlankStep | brclient/textareahelper.go:56-68 | a word put on a line with its blank keeps lines within the width and full |
| WordWrap.RuneStep | brclient/textareahelper.go:69-85 | a word is broken only when it fills a line |
| Windows.StepMark | brclient/appstate.go:932-1060 | every operation changes the mark of the window it is about and of no other, whatever the numbers |
| Windows.ValidAlways | brclient/appstate.go:998-1047 | over every run the shown window exists and has no mark, marks are in range, windows are distinct |
| Windows.ShownAfter | brclient/appstate.go:932-1047 | which window each operation shows |
| Windows.WindowsAfter | brclient/appstate.go:932-957 | which windows there are after each operation, in order |
| Windows.CloseKeepsFixed | brclient/appstate.go:941-952 | the fixed windows keep their marks |
| Windows.ToPrevActiveShows | brclient/appstate.go:988-1027 | going back shows what the remembered number stands for, if anything |
| Windows.PrevActiveAfter | brclient/appstate.go:932-1047 | what the remembered number stands for after each operation |
| Windows.GoingBack | brclient/appstate.go:988-1027 | going back leads to the window shown before a step if and only if the step changed windows by number, or the number was that window's and it was not closed |
| Windows.CloseForgets | brclient/appstate.go:932-957 | closing the second of three windows and going back shows the third |
| Windows.AppState.CloseActiveWindow | brclient/appstate.go:932-957 | the window is gone, the marks moved and the window before it shown |
| Windows.AppState.ShiftMarks | brclient/appstate.go:941-952 | moving the marks in sorted order overwrites none |
| Windows.AppState.ChangeActiveWindow | brclient/appstate.go:998-1027 | a valid window is shown and its mark removed |
| Windows.AppState.ChangeActiveWindowCW | brclient/appstate.go:1030-1047 | the first window that matches is shown |
| Windows.AppState.FindOrNewWindow | brclient/appstate.go:1395-1421 | the window found or appended, with its mark |
| Windows.AppState.MarkWindowUpdated | brclient/appstate.go:1427-1444 | a window that is not shown is marked, and a mention stays marked |
| InvitePrefix.AppState.OnInvited | brclient/appstate.go:3913-3934 | the suggestion is the shortest prefix of even length from four on that no other session's id has |
| InvitePrefix.AppState.Disambiguate | brclient/appstate.go:3926-3930 | the inner loop stops within the id |
| InvitePrefix.AppState.Accept | brclient/commands.go:4080-4100 | the one invite with the prefix, or which of the two errors |
| InvitePrefix.SuggestionAccepted | brclient/commands.go:4084-4095 | the suggestion finds the invite, alone if and only if nobody else invited to that session |
| ChanPoint.RoundTrip | brclient/util.go:169-208 | every channel point is read back from its text |
| ChanPoint.TextIs | brclient/util.go:169-175 | the text has the bytes of the id last first in hexadecimal, a colon and the index in decimal |
| ChanPoint.TextOfPoint | brclient/util.go:177-208 | a text that is read differs from its point's text in letter case and leading zeros only |
| ChanPoint.TextsDiffer | brclient/util.go:169-175 | different points have different texts |
| ChanPoint.StrToChanPoint | brclient/util.go:177-208 | the parser with its array equals the pure one |
| ChanPoint.ReverseInPlace | brclient/util.go:193-197 | the two-index loop reverses the array |
| CommonPrefix.StringsCommonPrefix | brclient/util.go:370-390 | the result is shared by all strings, and every shared prefix is a prefix of it |

## Left out

- Group list timestamps, block lists, messages to a chat and their cache: they take no part in membership.
- Database errors and rollback: a step that fails keeps what it wrote before, as client/clientdb/access.go:227-237 does not undo writes; what fails is limited to the errors the code itself returns.
- The loop that draws a random invite token until it is new: the draw is a parameter that meets the loop's condition.
- The trimming of a chat's name and the id shown when it is empty: names are taken as given.
- Failed sends: a packet that is not delivered is a packet lost.
- GroupStore.Client.GCKick: removing the kicked user from a linked realtime session afterwards, and changing the session's cookies; whether the session is live is a parameter.
- GroupStore.Client.InviteToGroupChat: the linked session itself; whether the local client administers it and it has room is one parameter.
- GetGCDestCount: its loop drops the last element on every pass, so it is not a count of members.
- PageSections.RepliesCommute: ids are words of letters, digits and underscores, for which the source's pattern matches literally; other ids can form patterns that are not modelled.
- PageSections.ChatWindow.ReplacePage: the links and forms parsed from the page are not modelled, only the bytes they are parsed from.
- PostComments.PostWindow.UpdatePost: texts, hearts and authors of comments; statuses that are not comments are skipped before the model starts.
- IdleUsers.RemovedWasIdle: users and address book entries are never deleted in the model; the stored decryption time's loss of less than a millisecond on restart is not modelled; the clock of a pass is read once.
- IdleUsers.Client.HandshakeIdleUsers: an error while sending ends the source's pass early; in the machine that is a run with fewer turns.
- KXSearch.AskedOnce: sending errors, which end the source's loop over a reply early, are not modelled.
- MediateID.Client.SendToGCMembers: the warnings shown to the user and their timers only decide which members the call looks at, so those members are a parameter.
- MediateID.SendAsks: the limit is below 2^32 - 1, where counting up would wrap; the default is 3.
- FileChunks.ChunkPriceIs: the product of cost, chunk size and 1000 fits 64 bits; beyond that the source's product wraps, and only the upper bound of FileChunks.PriceOfFile is stated.
- FileChunks.PaidWasPriced: uploads, free files sent unasked and the assembly of the finished file are not modelled; a file has a size, since the source divides by it.
- WordWrap.CountWrappedLines: the bounds need a string to be as wide as its runes together, which the width library does not promise for combined runes; that no text is lost needs no such assumption.
- Windows.AppState.FindOrNewWindow: reading the chat's history into a new window is not modelled.
- Closing a window and showing the one before it are one step, though the source releases the lock in between.
- Rendering, configuration, payments over the Lightning network, audio and cryptography: interface, input and output, and foreign libraries.
- splitEmbeds, splitURLs and the parsing of a line into elements: they edit what is shown, and a link whose text mentions the user is split by a later pass.
