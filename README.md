# Kanban board core, modelled in Dafny

This project models the logic core of a small Next.js kanban board application. The application has boards, lists and cards, per-user ownership with editors, and live updates pushed to other browser tabs. The model covers nine components:

- **Live-update subscriber registry** (`EventBus`): a map from board id to a per-board map from client id to sink. `Subscribe` returns an unsubscribe closure. `Broadcast` skips the sender, drops subscribers whose sink fails and prunes empty boards. The frame is text/event-stream framing, as in section 9.2 "Server-sent events" of the HTML Living Standard.
- **Card ordering and board queries** (`BoardUtils`): incomplete cards first, then completed cards newest-first with a stable sort. Also the visibility filter, list lookup and label-name lookup.
- **Board reducers** (`BoardReducers`): the pure `BoardData -> BoardData` transformers behind the board screen's actions. The drag-and-drop handler is a small `BoardEditor` class holding the board and the drag ref.
- **Access control** (`BoardAuth`): public, owner and editor decisions, plus the delete and sharing permissions, over a stored document that may be absent.
- **Fixed-window rate limiter** (`RateLimit`): a per-key counter with a 15-minute window and a limit of 10. It lives in a class whose `store` map is updated in place, and it has the expired-entry sweep.
- **Routing guard** (`Middleware`): prefix predicates, the structural and expiry check of the session token, and the decision chain. The `exp` claim is the one from section 4.1.4 of RFC 7519.
- **Password strength** (`PasswordStrength`): a 0–5 criteria count mapped to Weak/Fair/Good/Strong.
- **Client reconnect backoff** (`BoardSync`): a class with the connection, retry-delay and retry-timer refs. Its methods are the `connected`, `board-updated`, `board-deleted` and `onerror` callbacks, the timer and the cleanup.
- **Account tables** (`AuthStore`): the users, email-token and board-ownership tables as fields of a `Store` class. The SQL statements are methods that change them.

Clocks, random identifiers, the directory listing of board files, the token decoder and which sinks accept a write are all parameters. `Wrappers` holds `Option` and `Result`. `Text` holds the string operations the code relies on: `trim`, `startsWith`, `split`, `indexOf`, `replace`, ASCII `toLowerCase`, and decimal rendering of a timestamp. `BoardTypes` holds the board, list and card records.

## Model

| member | source | states |
|---|---|---|
| BoardUtils.CreateEmptyBoard | src/lib/board-utils.ts:3-9 | The id is "board-" followed by decimal digits that read back as the creation time. Name "New Project", no lists, no cards, no label names, version 1, no owner and no editors recorded. |
| BoardUtils.EmptyBoardIdsDistinct | src/lib/board-utils.ts:3-5 | Boards created at different times get different ids, because the time reads back from the id. |
| BoardUtils.Incomplete | src/lib/board-utils.ts:13 | Every id kept is not completed; ids absent from the card map count as incomplete. |
| BoardUtils.Completed | src/lib/board-utils.ts:14-15 | Every id kept belongs to a completed card. |
| BoardUtils.SortNewestFirst | src/lib/board-utils.ts:16-20 | The insertion sort by completion time returns a permutation of its input. |
| BoardUtils.Insert | src/lib/board-utils.ts:16-20 | One step of the sort: the result holds the inserted id once more and every other id as often as before. |
| BoardUtils.SortSorted | src/lib/board-utils.ts:16-20 | Its output is ordered by completion time, descending. |
| BoardUtils.InsertSorted | src/lib/board-utils.ts:16-20 | Inserting into a newest-first sequence keeps it newest-first. |
| BoardUtils.SortIsStable | src/lib/board-utils.ts:16-20 | For every time t, the ids with time t appear in input order, so ties are stable. |
| BoardUtils.WithTimeInsert | src/lib/board-utils.ts:16-20 | Insertion places equal-time ids after the existing ones. This is the step of the stability proof. |
| BoardUtils.GetSortedCardIds | src/lib/board-utils.ts:12-22 | The sorted ids are a permutation of the input ids, and every incomplete id precedes every completed id. |
| BoardUtils.SortedKeepsIncompleteOrder | src/lib/board-utils.ts:13-21 | The incomplete ids come out in input order. |
| BoardUtils.SortedCompletedNewestFirst | src/lib/board-utils.ts:14-21 | The completed ids come out newest-first and in stable order. |
| BoardUtils.PartitionMultiset | src/lib/board-utils.ts:13-15 | The incomplete and completed parts together are exactly the input, as multisets. |
| BoardUtils.IncompleteAppend | src/lib/board-utils.ts:13 | The incomplete filter distributes over concatenation. |
| BoardUtils.CompletedAppend | src/lib/board-utils.ts:14-15 | The completed filter distributes over concatenation. |
| BoardUtils.IncompleteOfIncomplete | src/lib/board-utils.ts:13-15 | On all-incomplete ids, the incomplete filter is the identity and the completed filter is empty. |
| BoardUtils.CompletedOfCompleted | src/lib/board-utils.ts:13-15 | On all-completed ids, the completed filter is the identity and the incomplete filter is empty. |
| BoardUtils.MultisetElements | src/lib/board-utils.ts:21 | Multiset-equal sequences have the same elements. |
| BoardUtils.GetVisibleCardIds | src/lib/board-utils.ts:24-28 | With hiding on, the result is exactly the incomplete ids in input order. With hiding off, it is exactly GetSortedCardIds, so every order property proved of the sorted ids holds for what is shown. |
| BoardUtils.FindList | src/lib/board-utils.ts:30-32 | Returns none iff no list contains the card. Otherwise it returns the first list, in list order, containing the card. |
| BoardUtils.GetListForCard | src/lib/board-utils.ts:30-32 | Same as FindList, over the board's lists. |
| BoardUtils.GetLabelName | src/lib/board-utils.ts:34-36 | Returns the stored name for the colour, else "". |
| BoardReducers.FindListById | src/components/Board.tsx:55 | Returns none iff no list has the id; otherwise the first list with that id. |
| BoardReducers.Without | src/components/Board.tsx:115-119 | Removes every occurrence of one id and keeps all other ids, each as often as before; an absent id leaves the sequence as it is. |
| BoardReducers.WithoutAppend | src/components/Board.tsx:115-119 | Filtering distributes over concatenation, so the kept ids keep their relative order. |
| BoardReducers.RenameIn | src/components/Board.tsx:46-51 | Only the title of lists with the matching id changes. |
| BoardReducers.DropList | src/components/Board.tsx:53-60 | Keeps exactly the lists whose id differs; when no list has the id, the lists are returned as they are. |
| BoardReducers.DropListAppend | src/components/Board.tsx:53-60 | Dropping distributes over concatenation, so the kept lists keep their order. |
| BoardReducers.AppendTo | src/components/Board.tsx:77-80 | Appends the id to the end of each matching list only. |
| BoardReducers.RemoveEverywhere | src/components/Board.tsx:114-120 | Removes the id from every list and leaves everything else in each list unchanged. |
| BoardReducers.MoveIn | src/components/Board.tsx:150-154 | Removes the id from the source list and appends it once to the target list. Other lists are unchanged. |
| BoardReducers.AddList | src/components/Board.tsx:36-44 | A blank title leaves the board unchanged. Otherwise exactly one list is appended, with the trimmed title and no cards. |
| BoardReducers.RenameList | src/components/Board.tsx:46-51 | Only the title of the list with the matching id changes. |
| BoardReducers.DeleteList | src/components/Board.tsx:53-60 | The lists become DropList of the old lists, so exactly the lists with another id remain, in order. The cards of the first matching list leave the card map. Nothing else changes. |
| BoardReducers.NewCard | src/components/Board.tsx:67-76 | The new card has the given id and creation time, and its title is Trim of the typed title: no white space at either end, and non-empty for a non-blank title. It is not completed, has no completion time, and has empty description, labels and dates. |
| BoardReducers.AddCard | src/components/Board.tsx:64-83 | A blank title leaves the board unchanged. Otherwise a fresh card (not completed, empty labels, description, dates) is added and its id is appended to the target list only. |
| BoardReducers.UpdateCard | src/components/Board.tsx:85-88 | Replaces exactly one card in the map. |
| BoardReducers.ToggleCard | src/components/Board.tsx:90-107 | A missing id leaves the board unchanged. Otherwise `completed` flips, and `completedAt` becomes the given time on completion and empty on un-completion. |
| BoardReducers.DeleteCard | src/components/Board.tsx:109-123 | The card leaves the map. Each list keeps its id and title, and its ids become Without of the old ids: every occurrence of the card goes and the rest keep their order. |
| BoardReducers.MoveCard | src/components/Board.tsx:150-154 | Only the source and target lists change; the card map is unchanged. |
| BoardReducers.RenameLabel | src/components/Board.tsx:166-171 | Sets the colour's name and leaves other colours unchanged. |
| BoardReducers.RenameLabelThenLookup | src/components/Board.tsx:166-171 | Looking up a renamed colour returns the new name. |
| BoardReducers.DeleteCardThenFind | src/components/Board.tsx:109-123 | After deletion, no list contains the card. |
| BoardReducers.ToggleTwice | src/components/Board.tsx:90-107 | Toggling twice restores the board when the card starts incomplete with an empty `completedAt`. |
| BoardReducers.AddCardThenFind | src/components/Board.tsx:64-83 | After adding to an existing list, the card's list is that list, with the card last. |
| BoardReducers.AppendToThenFind | src/components/Board.tsx:77-81 | The list update of an add: the first list holding the new card is the target list, with the card last. |
| BoardReducers.AddListKeepsWellFormed | src/components/Board.tsx:36-44 | Adding a list with a new id keeps list ids distinct, each card in at most one list, and list cards present in the map. |
| BoardReducers.RenameListKeepsWellFormed | src/components/Board.tsx:46-51 | Renaming keeps the board well-formed. |
| BoardReducers.DropListKeepsWellFormed | src/components/Board.tsx:53-60 | Dropping a list keeps the lists well-formed. |
| BoardReducers.ConsKeepsWellFormed | src/components/Board.tsx:53-60 | A list whose id and cards no other list has can go in front of well-formed lists. |
| BoardReducers.DeleteListKeepsWellFormed | src/components/Board.tsx:53-60 | Deleting a list keeps the board well-formed. |
| BoardReducers.AddCardKeepsWellFormed | src/components/Board.tsx:64-83 | Adding a card with a new id keeps the board well-formed. |
| BoardReducers.AppendToKeepsWellFormed | src/components/Board.tsx:77-81 | Appending a card that no list holds keeps the lists well-formed. |
| BoardReducers.ToggleCardKeepsWellFormed | src/components/Board.tsx:90-107 | Toggling keeps the board well-formed. |
| BoardReducers.UpdateCardKeepsWellFormed | src/components/Board.tsx:85-88 | Updating a card keeps the board well-formed. |
| BoardReducers.DeleteCardKeepsWellFormed | src/components/Board.tsx:109-123 | Deleting a card keeps the board well-formed. |
| BoardReducers.RemoveEverywhereKeepsWellFormed | src/components/Board.tsx:114-117 | Taking a card out of every list keeps the lists well-formed. |
| BoardReducers.MoveCardKeepsWellFormed | src/components/Board.tsx:141-157 | Moving a card from the list holding it keeps the board well-formed. |
| BoardReducers.MovedListsWellFormed | src/components/Board.tsx:150-154 | The lists after a move stay well-formed; this is the step of MoveCardKeepsWellFormed. |
| BoardReducers.MovedLists | src/components/Board.tsx:150-154 | After a move, each list keeps its id and has no repeated card. The card is only in lists with the target id, and other cards stay where they were. |
| BoardReducers.MovedMembership | src/components/Board.tsx:150-154 | After a move, the card is in the target list and not in the source list. |
| BoardReducers.BoardEditor.constructor | src/components/Board.tsx:27 | Starts with the given board and no drag in progress. |
| BoardReducers.BoardEditor.DragStart | src/components/Board.tsx:127-129 | Records the dragged card and its source list; the board is unchanged. |
| BoardReducers.BoardEditor.Drop | src/components/Board.tsx:141-157 | With no drag, or source equal to target, nothing changes (the drag stays recorded). Otherwise the board becomes MoveCard of the old board, and the drag is cleared. |
| BoardReducers.BoardEditor.DragEnd | src/components/Board.tsx:159-162 | Clears the drag and leaves the board unchanged. |
| BoardAuth.Backfill | src/lib/board-auth.ts:27-28 | A missing owner becomes public (null) and missing editors become empty. Nothing else changes. |
| BoardAuth.CheckBoardAccess | src/lib/board-auth.ts:17-43 | An absent document gives not authorized, not owner, no board. A public board authorizes everyone, with no owner. On an owned board, the user is authorized iff owner or editor, and is owner iff the user equals the owner. |
| BoardAuth.CanManageSharing | src/lib/board-auth.ts:46-48 | True iff the board is owned by the user. |
| BoardAuth.CanDeleteBoard | src/lib/board-auth.ts:51-54 | True for everyone on a public board; otherwise only for the owner. |
| BoardAuth.OwnerIsAuthorized | src/lib/board-auth.ts:35-41 | Being owner implies being authorized. |
| BoardAuth.SharingImpliesDelete | src/lib/board-auth.ts:46-54 | Sharing permission implies delete permission, and nobody manages sharing on a public board. |
| BoardAuth.AccessAgreesWithPermissions | src/lib/board-auth.ts:17-54 | The access result's owner flag matches CanManageSharing on the backfilled board. |
| BoardAuth.LegacyBoardPermissions | src/lib/board-auth.ts:27-54 | A document without an owner field is authorized and deletable after backfill, but not before backfill. |
| RateLimit.Step | src/lib/rate-limit.ts:28-38 | With no entry or an expired one, a new window opens: count 1, reset at now + 900000, allowed, remaining 9. Otherwise the count grows by one, and the request is allowed with 10 - count remaining iff count ≤ 10 (else denied with 0). |
| RateLimit.Unexpired | src/lib/rate-limit.ts:14-18 | Keeps exactly the entries with now ≤ resetAt, unchanged. |
| RateLimit.RateLimiter.constructor | src/lib/rate-limit.ts:9 | The store starts empty. |
| RateLimit.RateLimiter.CheckRateLimit | src/lib/rate-limit.ts:21-39 | The store and the answer follow Step for the key; other keys are untouched; remaining lies in [0, 9]. |
| RateLimit.RateLimiter.Sweep | src/lib/rate-limit.ts:12-19 | The loop leaves exactly Unexpired(old store). |
| RateLimit.ResetAtBelongsToWindow | src/lib/rate-limit.ts:28 | A request exactly at resetAt still counts in the old window. |
| RateLimit.RemainingBounded | src/lib/rate-limit.ts:30-38 | Remaining lies in [0, 9]; allowed iff the new count is at most 10. |
| RateLimit.Replay | src/lib/rate-limit.ts:21-39 | Running Step over a request sequence yields one decision per request. |
| RateLimit.WindowSequence | src/lib/rate-limit.ts:33-38 | Inside one window, request k is allowed with 10 - count remaining up to the 10th, and denied with 0 afterwards. The count still grows and resetAt never moves. |
| RateLimit.FreshKeySequence | src/lib/rate-limit.ts:28-38 | For a new key, the first 10 requests in the window are allowed and the rest are denied. |
| RateLimit.SweepIsInvisible | src/lib/rate-limit.ts:14-28 | Sweeping never changes the result of a later request. |
| Middleware.StartsWithAny | src/middleware.ts:7-13 | True iff the path starts with one of the prefixes. |
| Middleware.IsPublicPath | src/middleware.ts:7-9 | Every public page lies under "/auth/", so none is an API path. |
| Middleware.IsPublicApiPath | src/middleware.ts:11-13 | Every public API path lies under "/api/auth/". |
| Middleware.AnyPrefixExtends | src/middleware.ts:7-13 | When every prefix extends a common one, matching any prefix implies matching the common one. |
| Middleware.FromBase64Url | src/middleware.ts:21 | '-' becomes '+', '_' becomes '/', and every other character is unchanged. |
| Middleware.IsValidJwt | src/middleware.ts:15-31 | Valid iff the token has exactly three dot-separated parts, the payload decodes, it has no expiry (or expiry*1000 ≥ now), and it carries a non-empty user id. |
| Middleware.IsStatic | src/middleware.ts:37-41 | A path is static iff it starts "/_next" or "/favicon", or contains a dot anywhere. |
| Middleware.FlowPathsAreNotStatic | src/middleware.ts:4-41 | No authentication page or API path, nor "/" or "/api/board", counts as static. |
| Middleware.PlainPathNotStatic | src/middleware.ts:37-41 | A path of lower-case letters, "-" and "/" with no "f" second is not static. |
| Middleware.IsAuthenticated | src/middleware.ts:45-46 | A session needs a token present, non-empty and valid; an authenticated token has exactly two dots. |
| Middleware.Decide | src/middleware.ts:33-75 | A 401 is "Not authenticated." on an "/api/" path without a session. A redirect is never for a static or API path; it goes to "/" iff there is a session, and then only from a public page; otherwise to "/auth/login" from a non-public page. An anonymous request passes only to static, public API or public page paths. |
| Middleware.StaticPassesThrough | src/middleware.ts:37-43 | "/_next", "/favicon" and dotted paths pass whatever the token. |
| Middleware.PublicPathIsPrefixMatch | src/middleware.ts:4-13 | Public checks are prefix matches ("/auth/login-x" is public); "/" and "/api/board" are not public. |
| Middleware.ApiGuard | src/middleware.ts:49-59 | Public auth APIs pass. Other "/api/" paths give 401 "Not authenticated." iff unauthenticated, and pass otherwise. |
| Middleware.PageGuard | src/middleware.ts:62-74 | A public page redirects to "/" iff authenticated. Any other page redirects to "/auth/login" iff unauthenticated, and passes otherwise. |
| Middleware.HomeIsOrdinaryPage | src/middleware.ts:4-43 | "/" is neither static, public nor an API path. |
| Middleware.LoginIsPublicPage | src/middleware.ts:4-43 | "/auth/login" is a public page and not an API path. |
| Middleware.NoRedirectLoop | src/middleware.ts:62-74 | The target of every redirect, requested with the same token, passes. |
| Middleware.JwtRejections | src/middleware.ts:17-27 | A wrong part count, a decode failure, an expired payload or a missing user id each reject the token. |
| Middleware.ExpiryBoundaryAccepted | src/middleware.ts:22 | A token expiring exactly now is accepted, because the comparison is strict. |
| PasswordStrength.Score | src/components/PasswordStrength.tsx:10-15 | The score is at most 5. It is 0 iff none of the criteria hold, and 5 iff all of them do. |
| PasswordStrength.GetStrength | src/components/PasswordStrength.tsx:9-21 | The score is Score. Weak iff score ≤ 1 (colour #e74c3c), Fair iff 2 (#f39c12), Good iff 3 (#3498db), Strong iff ≥ 4 (#27ae60). |
| PasswordStrength.Render | src/components/PasswordStrength.tsx:24 | An empty password renders nothing; any other password shows GetStrength. |
| PasswordStrength.AppendNeverLowers | src/components/PasswordStrength.tsx:10-15 | Appending characters never lowers the score. |
| PasswordStrength.LongIsAtLeastFair | src/components/PasswordStrength.tsx:11-18 | Length ≥ 12 implies score ≥ 2 and a label other than Weak. |
| PasswordStrength.ShortLowercaseIsWeak | src/components/PasswordStrength.tsx:10-17 | A lowercase-only password of 8–11 characters scores exactly 1 (Weak). |
| BoardSync.NextDelay | src/hooks/useBoardSync.ts:53-54 | The next delay doubles up to the 30000 cap and never falls below the current delay. |
| BoardSync.Waits | src/hooks/useBoardSync.ts:52-54 | n successive waits, the first being the current delay. |
| BoardSync.WaitsAreCappedDoubling | src/hooks/useBoardSync.ts:52-54 | The k-th wait equals min(d·2^k, 30000). |
| BoardSync.BackoffSchedule | src/hooks/useBoardSync.ts:15-54 | From 1000 ms the waits are 1000, 2000, 4000, 8000, 16000, 30000, 30000, and 30000 ever after. |
| BoardSync.PowGrows | src/hooks/useBoardSync.ts:52-54 | Powers of two are monotone; this is a step of the schedule proof. |
| BoardSync.Connection.constructor | src/hooks/useBoardSync.ts:28 | A new connection is open and has the given URL. |
| BoardSync.SyncSession.constructor | src/hooks/useBoardSync.ts:12-67 | Delay 1000, no timer. Connects iff the board id is non-empty. |
| BoardSync.SyncSession.Connect | src/hooks/useBoardSync.ts:21-30 | Closes any held connection, then holds a fresh open one with the board's events URL. |
| BoardSync.SyncSession.Url | src/hooks/useBoardSync.ts:28 | The stream address starts "/api/board/" followed by the board id, and ends "/events?clientId=" followed by the client id. |
| BoardSync.SyncSession.OnConnected | src/hooks/useBoardSync.ts:31-33 | An event from the held connection resets the delay to 1000. |
| BoardSync.SyncSession.OnBoardUpdated | src/hooks/useBoardSync.ts:35-42 | Only well-formed data is delivered; malformed data is ignored. |
| BoardSync.SyncSession.OnBoardDeleted | src/hooks/useBoardSync.ts:44-46 | Reports the deletion once. |
| BoardSync.SyncSession.OnError | src/hooks/useBoardSync.ts:48-64 | Closes and drops the connection, waits the current delay, stores NextDelay and arms the timer. The delay stays within [1000, 30000]. |
| BoardSync.SyncSession.TimerFires | src/hooks/useBoardSync.ts:56-63 | A pending timer reconnects; otherwise nothing changes. |
| BoardSync.SyncSession.Cleanup | src/hooks/useBoardSync.ts:69-78 | Every connection ever opened is closed, and no timer is pending. |
| BoardSync.AtMostOneOpen | src/hooks/useBoardSync.ts:22-50 | At most one connection is open, and it is the held one. |
| EventBus.RemoveSpec | src/lib/event-bus.ts:20 | Removing a key drops exactly its occurrences from the insertion order, and an absent key leaves the order unchanged. |
| EventBus.RemoveMiddle | src/lib/event-bus.ts:40 | Removing a key that occurs once keeps the order of the others. |
| EventBus.Remove | src/lib/event-bus.ts:20 | The key no longer occurs, every other key occurs iff it did before, and the order never grows. |
| EventBus.Subscriber.constructor | src/lib/event-bus.ts:17 | Builds the record { clientId, controller }. |
| EventBus.Subscribers.constructor | src/lib/event-bus.ts:14 | A new per-board map is empty. |
| EventBus.Subscribers.Put | src/lib/event-bus.ts:17 | Binds the key, keeping its position if present and appending it if new. |
| EventBus.Subscribers.Delete | src/lib/event-bus.ts:20 | Unbinds only the key. |
| EventBus.DistinctCardinality | src/lib/event-bus.ts:21 | A key order without repeats has as many distinct keys as entries. |
| EventBus.SizeCountsKeys | src/lib/event-bus.ts:21 | The `size` of a well-formed map is the number of keys it binds. |
| EventBus.Subscribers.Deliver | src/lib/event-bus.ts:34-42 | The loop delivers to exactly Delivered(order) and keeps exactly Survivors(order). Surviving entries are unchanged. |
| EventBus.Subscribers.Visit | src/lib/event-bus.ts:35-41 | One visit: the sender is skipped; an accepting sink is written to; a refusing one is deleted and nothing else changes. |
| EventBus.Subscribers.Walk | src/lib/event-bus.ts:34-42 | The loop over the snapshot ends with every client visited, in order. |
| EventBus.Subscribers.Step | src/lib/event-bus.ts:34-42 | One iteration moves the loop invariant from i visited clients to i + 1. |
| EventBus.LoopStep | src/lib/event-bus.ts:34-42 | After a visit, the live order is the survivors so far followed by the unvisited clients. Live entries are still original ones, and the log grows by the visited client exactly when it was written to. |
| EventBus.SurvivorsSpec | src/lib/event-bus.ts:34-42 | The survivors are exactly the visited keys that are the sender or whose sink accepts, in order. |
| EventBus.DeliveredSpec | src/lib/event-bus.ts:34-38 | The recipients are exactly the visited non-sender keys whose sink accepts, in order. |
| EventBus.VisitStep | src/lib/event-bus.ts:34-42 | One iteration extends the survivors and recipients by the visited key's outcome. |
| EventBus.DropStep | src/lib/event-bus.ts:40 | Deleting the visited key from the live map leaves the kept keys followed by the unvisited ones. |
| EventBus.DeliveredExactlyOnce | src/lib/event-bus.ts:34-38 | Every accepting non-sender subscriber receives exactly one frame; every other key receives none. |
| EventBus.Frame | src/lib/event-bus.ts:31 | The frame starts "event: " and is 16 characters longer than the event and the data together. |
| EventBus.ParseFrame | src/lib/event-bus.ts:31 | The inverse of Frame used to state FrameRoundTrip, not a general event-stream parser: a parsed event name never contains a newline. |
| EventBus.FrameRoundTrip | src/lib/event-bus.ts:31 | Parsing a frame returns the event and data it was built from. |
| EventBus.Bus.constructor | src/lib/event-bus.ts:6 | No boards. |
| EventBus.Bus.SubscriberCount | src/lib/event-bus.ts:49-51 | 0 for an unknown board; otherwise the size of its map. |
| EventBus.Bus.MapFor | src/lib/event-bus.ts:13-16 | Returns the board's existing map, or registers a fresh empty map for it. Other boards keep their maps. |
| EventBus.Bus.Bind | src/lib/event-bus.ts:17 | The board's map binds the client to a fresh subscriber; other boards' maps keep their entries and order. |
| EventBus.Bus.Subscribe | src/lib/event-bus.ts:8-25 | The board's map binds the client to the new subscriber. The count grows by 1 if the client was new and is unchanged otherwise. Every other board keeps the same map, with the same entries and order. |
| EventBus.Bus.RunUnsubscribe | src/lib/event-bus.ts:19-24 | As written: deletes the key from the captured map, and deletes the board entry whenever that map is empty, whichever map the entry currently holds. |
| EventBus.Bus.Release | src/lib/event-bus.ts:21-23 | Corrected: the board entry goes only while it still holds the captured, now empty map. |
| EventBus.Bus.RunUnsubscribeGuarded | src/lib/event-bus.ts:19-24 | Corrected: deletes the key only while it still holds this closure's subscriber, and deletes the board entry only while it still holds the captured map. Never removes another subscriber or a newer map. |
| EventBus.Bus.Broadcast | src/lib/event-bus.ts:27-47 | An absent board changes nothing. Otherwise frames go to exactly the accepting non-senders, failing ones are removed, an emptied board is pruned, and other boards are unchanged. |
| EventBus.ReusedClientIdAsWritten | src/lib/event-bus.ts:16-24 | A closure from an earlier subscription of a reused client id leaves the board with 0 subscribers. |
| EventBus.ReusedClientIdGuarded | src/lib/event-bus.ts:16-24 | The same scenario with the guard keeps the live subscriber (count 1). |
| EventBus.StaleClosureAsWritten | src/lib/event-bus.ts:19-24 | A repeated closure whose map is empty drops the board's newer map (count 0). |
| EventBus.StaleClosureGuarded | src/lib/event-bus.ts:19-24 | With the guard, the newer map survives (count 1). |
| AuthStore.Lifetime | src/lib/auth.ts:137-138 | 24 h for verify tokens and 1 h for reset tokens. |
| AuthStore.Invalidate | src/lib/auth.ts:141-143 | Afterwards no token of the user and type is unused. Only the `used` flag of such tokens changes. |
| AuthStore.UseById | src/lib/auth.ts:169 | Each row changes at most in its `used` flag, which afterwards is set iff it was set before or the row has the id. |
| AuthStore.UseByIdChangesOneRow | src/lib/auth.ts:169 | With unique token ids, at most one row changes, and that row has the id and was unused. |
| AuthStore.FindLive | src/lib/auth.ts:158-164 | Finds an unused row with the token and type, or reports that none exists. |
| AuthStore.InvalidateThenInsert | src/lib/auth.ts:141-148 | Invalidating, then inserting one new token, keeps at most one unused token per (user, type) and keeps ids and tokens distinct. |
| AuthStore.InvalidateKeeps | src/lib/auth.ts:141-143 | Invalidation alone keeps both invariants. |
| AuthStore.JsonFiles | src/lib/auth.ts:204 | Keeps exactly the names ending in ".json". |
| AuthStore.ListedBoardIds | src/lib/auth.ts:201-211 | An absent directory gives no ids. Otherwise the i-th id is BoardIdOf the i-th ".json" file, in listing order. |
| AuthStore.BoardIdOf | src/lib/auth.ts:211 | A name without ".json" stays as it is; a name ending in ".json" loses five characters. |
| AuthStore.JsonFilesKeepsJson | src/lib/auth.ts:204 | A listing made only of ".json" files passes the filter whole. |
| AuthStore.ListingOfBoardFiles | src/lib/auth.ts:201-211 | A directory holding `<id>.json` for each id, none of which contains ".json", lists exactly those ids in directory order. |
| AuthStore.BoardIdOfFileName | src/lib/auth.ts:211 | Stripping ".json" from "<id>.json" returns the id. |
| AuthStore.Store.constructor | src/lib/db.ts:28-54 | Empty tables. |
| AuthStore.Store.GetUserByEmail | src/lib/auth.ts:76-90 | Looks up the lower-cased address. Returns a stored user with that address, or none when no user has it. |
| AuthStore.FirstWithEmail | src/lib/auth.ts:78-81 | Returns the first user, in insertion order, with the address; none iff no user has it. |
| AuthStore.Store.GetUserBoards | src/lib/auth.ts:182-188 | Exactly the board ids with an ownership row for the user. |
| AuthStore.Store.IsBoardOwner | src/lib/auth.ts:190-198 | In a store that keeps its constraints, an owner of a board is a known user. |
| AuthStore.Store.CreateUser | src/lib/auth.ts:51-74 | Fails with a unique violation iff the id or the lower-cased address is taken. Otherwise it appends the user with the address lower-cased and not verified. The first user inherits every listed board. |
| AuthStore.Store.CreateEmailToken | src/lib/auth.ts:130-151 | Invalidates the user's unused tokens of that type, then inserts one unused token expiring after the lifetime. A clash fails after the invalidation. At most one unused token per (user, type) is kept. |
| AuthStore.Store.ConsumeEmailToken | src/lib/auth.ts:153-171 | Returns the user iff an unused token of that type exists and has not expired (expiry at exactly now is accepted), then marks it used. Otherwise the tables are unchanged. |
| AuthStore.Store.AddBoardOwnership | src/lib/auth.ts:175-180 | Adds the ownership row (idempotently) for a known user, after which the user owns the board. An unknown user is a foreign-key failure. |
| AuthStore.Store.InheritExistingBoards | src/lib/auth.ts:200-214 | The loop adds exactly one ownership row per listed board. |
| AuthStore.LookupIgnoresCase | src/lib/auth.ts:78-80 | Addresses equal up to ASCII case find the same user. |
| AuthStore.OwnerIffListed | src/lib/auth.ts:182-198 | isBoardOwner agrees with membership in getUserBoards. |

## Left out

- Clocks and randomness: `Date.now`, `toISOString` and `Math.random` are parameters (times, ids and the client id).
- Date parsing: `completedAt` is a `Stamp` (no stamp, or a millisecond time) instead of an ISO string, and invalid dates (NaN in JavaScript) are not modelled.
- Rendering: JSX, the modal `editingCard` state, the password-meter width percentage (a float), the toast queue and local storage.
- Strings: lower-casing covers ASCII letters only, not full Unicode case mapping. Lengths count characters, not UTF-16 code units.
- Serialisation: `JSON.stringify`/`TextEncoder` in the broadcast payload and `JSON.parse`/`atob` of the token payload. The payload is an opaque string, and the decoder is a parameter returning an optional payload.
- BoardAuth.CheckBoardAccess: the file read is an optional stored document. A file that exists but fails to parse (which throws in the original) is not modelled.
- Timers and transport: `setInterval`, `setTimeout`, `EventSource`, `fetch`, and the board refetch when the retry timer fires. The timer is a pending flag that `TimerFires` consumes.
- BoardSync.SyncSession.OnBoardUpdated: "well-formed" is the optional result of a parse supplied by the caller; JSON parsing itself is not modelled.
- Crypto and storage engines: bcrypt, JWT signing and verification, uuid, and the SQLite engine. Tables are in-memory sequences and sets; row order of SELECT results is not modelled (`GetUserBoards` returns a set).
- AuthStore: `getUserById`, `markEmailVerified`, `updatePassword` and the session helpers are not part of this model.
- Request handlers, the streaming endpoint, the per-board route and the board listing route are not part of this model. Neither is the middleware `config.matcher`.
- EventBus.Bus.Broadcast: the loop walks a snapshot of the insertion order and skips keys deleted during the walk. That has the same effect as iterating the live JavaScript `Map`, which visits the remaining keys in insertion order.
- EventBus.Sink: a sink's `enqueue` is modelled by membership in the `accepting` set (accepting sinks succeed, others throw).

## Findings

| source | as written | input that shows it | evidently intended | confidence | as-written member | corrected member |
|---|---|---|---|---|---|---|
| src/lib/event-bus.ts:19-24 | The unsubscribe closure deletes `clientId` from the map it captured and deletes the board entry whenever that map is empty, without checking that the key still holds its own subscriber or that the board entry still holds the captured map | (1) subscribe(b, c, s1), subscribe(b, c, s2) reusing the client id, then the first closure runs: count becomes 0 although s2 is live. (2) subscribe(b, c, s1), run its closure, subscribe(b, d, s2), run the first closure again: the board entry holding d is deleted | An unsubscribe removes only its own subscription, and prunes only the map it captured | not executed | EventBus.Bus.RunUnsubscribe, EventBus.ReusedClientIdAsWritten, EventBus.StaleClosureAsWritten | EventBus.Bus.RunUnsubscribeGuarded, EventBus.ReusedClientIdGuarded, EventBus.StaleClosureGuarded |
