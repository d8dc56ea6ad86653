# Guild admin dashboard: verified model of its core

This project models the core of a browser-based admin dashboard for a guild-management system. It covers:

- **Authorization and login** (`src/lib/auth.ts`):
  - the permission check and the role table;
  - the password-strength scorer;
  - the second-factor lockout tracker (5 failures block a username for 24 h; a block lapses on the first check after it has elapsed);
  - the login decision (super-admin code path and ordinary path);
  - the in-memory user directory.
- **Message store** (`src/lib/messageSystem.ts`): the module-level message list with its id counter.
  - Creating messages, including broadcasts that snapshot the directory.
  - The per-user and admin listings (filter, stable sort, page).
  - Mark read, batch update, mark all read and delete.
  - The per-user and global statistics, and the notification badges.
- **Client state machines**:
  - the two reducers of `src/contexts/MessageContext.tsx` and `src/contexts/AuthContext.tsx`;
  - the context's user-creation defaults;
  - the password-change guard.
- **Message composer** (`src/components/messages/MessageComposer.tsx`): the form check and the request it builds.
- **Module registry** (`src/lib/moduleLoader.ts`): the registry with its decorator, plus the five dashboard widgets that register through it.
- **Role ranking** (`src/components/RoleBadge.tsx`).

The source's shape is kept:

- Lists that the source changes in place (the lockout list, the user list, the message list plus counter, the module map) are classes with `seq` fields. Their methods are proved against transition functions on sequences, and the lemmas about those functions state the promised properties.
- Loops in the source (recipient building, status and badge counting, batch updates, mark all read) are `while` loops with invariants.
- Reducers, validators and the permission check are pure functions.
- Time is an explicit `nat` count of milliseconds passed in as `now`. Every operation is synchronous.

Modules and files:

| file | module | models |
|---|---|---|
| `wrappers.dfy` | `Wrappers` | `Option` |
| `text.dfy` | `Text` | decimal rendering of numbers, ASCII lower-casing, `includes`, `trim` |
| `seqs.dfy` | `Seqs` | `Array.prototype.filter` |
| `sorting.dfy` | `Sorting` | stable `Array.prototype.sort`, as insertion sort on a key |
| `auth_types.dfy` | `AuthTypes` | roles, permissions, groups, users |
| `permissions.dfy` | `Permissions` | `hasPermission`, `hasAllPermissions`, `hasAnyPermission`, `ROLE_PERMISSIONS` |
| `password_strength.dfy` | `PasswordStrength` | `validatePasswordStrength` |
| `lockout.dfy` | `Lockout` | `isUserBlocked`, `recordTwoFactorFailure`, `resetTwoFactorFailures` |
| `user_directory.dfy` | `UserDirectory` | the `users` list and its six operations |
| `authentication.dfy` | `Authentication` | `authenticateUser` |
| `message_types.dfy` | `MessageTypes` | message records, recipient lookup, message ids |
| `message_updates.dfy` | `MessageUpdates` | what each changing store operation does to the list |
| `message_stats.dfy` | `MessageStatistics` | user statistics, global statistics, badges |
| `message_queries.dfy` | `MessageQueries` | the two listing pipelines and paging |
| `message_store.dfy` | `MessageStore` | the store itself, as a class |
| `message_context.dfy` | `MessageContext` | `messageReducer` |
| `auth_context.dfy` | `AuthContext` | `authReducer`, `createUserFunc` defaults, `changePassword` |
| `message_composer.dfy` | `MessageComposer` | `validateForm`, the request of `handleSubmit` |
| `module_loader.dfy` | `ModuleLoader` | the registry, its getters, the decorator, the five widgets |
| `role_badge.dfy` | `RoleBadge` | `getRoleWeight`, `compareRoles` |

Where the system's documented behaviour and its code disagree, the model follows the code:

- **Users created through the auth context.** The documented flow expects a user created with role `USER` to pass the `MEMBER_READ` check. In the code, `createUserFunc` stores the user with `groups: []` and `permissions: []`. The requested `groupIds` and `additionalPermissions` are spread into the stored record as extra fields, but nothing ever reads them. `hasPermission` never consults `ROLE_PERMISSIONS`, so such a user holds no permission at all unless they are a super-admin (`AuthContext.ContextUserHasOnlyRolePower`, `Permissions.CheckIgnoresRoleTable`).
- **Batch delete with duplicate entries.** The documented behaviour is that a batch delete leaves a message without the user. The code removes only the user's *first* entry, so a user listed twice is still listed, and the store then reads their second entry (`MessageUpdates.BatchDeleteKeepsDuplicate`; with a single entry the user is gone, `MessageUpdates.BatchDeleteUnlistsSingleEntry`). Likewise, every status operation reads the first entry, while the badges look for *any* unread entry. `MessageTypes.DuplicateEntriesDisagree` exhibits a message on which the two readings differ.

Other source behaviour the model keeps:

- `REMOVE_MESSAGE` decrements `total` (floored at 0) even when no message has the id.
- `validateForm` and `handleSubmit` keep the non-blank recipient entries untrimmed.
- `getUserMessages` returns the user's statistics over all of the user's messages, whatever the query filters.
- A user's id is the creation timestamp rendered in decimal. Two users created in the same millisecond therefore share an id, and the model makes no distinctness claim for user ids. Message ids are distinct because of the counter (`MessageStore.Store.Valid`, `MessageStore.IssueKeepsIdsDistinct`).

## Model

| member | source | states |
|---|---|---|
| Text.NatToString | src/lib/messageSystem.ts:25-27 | an id's timestamp and counter are rendered as a non-empty string of decimal digits |
| Text.DigitsValueOfNatToString | src/lib/messageSystem.ts:25-27 | the decimal rendering is read back to the number it renders |
| Text.NatToStringInjective | src/lib/messageSystem.ts:25-27 | different numbers render differently |
| Text.Lower | src/lib/messageSystem.ts:142-147 | the length is kept; each capital A–Z becomes the small letter at the same offset, every other character is kept, and no capital is left |
| Text.LowerIsIdempotent | src/lib/messageSystem.ts:142-147 | lower-casing an already lower-cased text changes nothing |
| Text.Utf16Length | src/lib/auth.ts:111 | a string's `length` in UTF-16 code units lies between its character count and twice that |
| Text.Utf16LengthAppend | src/lib/auth.ts:111 | the code-unit length of a concatenation is the sum of the lengths |
| Text.Utf16LengthOfBmp | src/lib/auth.ts:111 | on characters of the Basic Multilingual Plane the code-unit length is the character count |
| Text.Trim | src/components/messages/MessageComposer.tsx:106 | the trimmed string is no longer than the original and occurs inside it |
| Text.TrimStart | src/components/messages/MessageComposer.tsx:106 | only a blank prefix is removed, and the result does not start with whitespace |
| Text.TrimEnd | src/components/messages/MessageComposer.tsx:106 | only a blank suffix is removed, and the result does not end with whitespace |
| Text.TrimEmptyIffBlank | src/components/messages/MessageComposer.tsx:106-116 | trimming gives the empty (falsy) string exactly when the string is all whitespace |
| Text.TrimHasNoOuterWhitespace | src/components/messages/MessageComposer.tsx:142-143 | a non-empty trimmed string neither starts nor ends with whitespace |
| Seqs.Filter | src/lib/messageSystem.ts:118-156 | a filter is no longer than its input and keeps only passing elements |
| Seqs.FilterMembers | src/lib/messageSystem.ts:118-156 | an element is kept exactly when it occurs in the input and passes |
| Seqs.FilterMultiset | src/lib/messageSystem.ts:118-156 | every occurrence of a passing element is kept, and nothing else |
| Seqs.FilterKeepsOrder | src/lib/messageSystem.ts:356 | filtering keeps the relative order of what it keeps |
| Sorting.SortByKey | src/lib/messageSystem.ts:159-169 | the comparator sort yields a sorted permutation of its input |
| Sorting.SortIsStable | src/lib/moduleLoader.ts:13 | elements with equal keys keep their original relative order |
| Sorting.FilterKeepsSorted | src/lib/moduleLoader.ts:18 | filtering a sorted sequence leaves it sorted |
| Permissions.HasPermission | src/lib/auth.ts:138-149 | a missing user is refused; a super-admin is granted everything; anyone else holds a permission iff it is direct or comes from one of their groups |
| Permissions.GroupsGrant | src/lib/auth.ts:147-148 | a group grant means some group lists the permission |
| Permissions.HasAllPermissions | src/lib/auth.ts:152-154 | true iff every listed permission passes the check |
| Permissions.HasAnyPermission | src/lib/auth.ts:157-159 | true iff some listed permission passes the check |
| Permissions.EmptyPermissionLists | src/lib/auth.ts:152-159 | on an empty list, with or without a user, all-of holds and any-of fails |
| Permissions.RolePermissions | src/lib/auth.ts:162-186 | the role table: each role's list of permissions; RoleTableIsMonotone and AdminTableRow state its shape |
| Permissions.RoleTableIsMonotone | src/lib/auth.ts:162-186 | USER ⊆ MODERATOR ⊆ ADMIN ⊆ SUPER_ADMIN, and SUPER_ADMIN holds every permission |
| Permissions.AdminTableRow | src/lib/auth.ts:170-181 | ADMIN lacks exactly USER_DELETE, SYSTEM_CONFIG and SYSTEM_BACKUP |
| Permissions.CheckIgnoresRoleTable | src/lib/auth.ts:138-149 | with no direct or group permissions, the check passes iff the role is super-admin |
| Permissions.DirectGrantIsMonotone | src/lib/auth.ts:143-145 | granting a permission directly never revokes one and grants the new one |
| PasswordStrength.ValidatePasswordStrength | src/lib/auth.ts:110-135 | score = min(met, 4); one feedback entry per unmet requirement, in fixed order, so there are 5 − met of them; valid iff the length in UTF-16 code units is ≥ 8 and met ≥ 4 |
| PasswordStrength.Unmet | src/lib/auth.ts:123-133 | the feedback holds exactly the unmet requirements, 5 − met of them |
| PasswordStrength.UnmetKeepsOrder | src/lib/auth.ts:123-133 | the feedback follows the order the requirements are checked in |
| PasswordStrength.MetCountUnfolded | src/lib/auth.ts:111-119 | the met count is the number of true requirement flags |
| PasswordStrength.ValidMeansLongWithThreeClasses | src/lib/auth.ts:119-121 | a password is valid iff it has ≥ 8 UTF-16 code units and at least three of the four character classes |
| PasswordStrength.NoFeedbackMeansValid | src/lib/auth.ts:110-135 | empty feedback iff every requirement is met, and then the password is valid |
| PasswordStrength.ExampleScores | src/lib/auth.ts:110-135 | "Abcdefg1" is valid and "abc" is not |
| PasswordStrength.AstralCharacterCountsTwice | src/lib/auth.ts:110-121 | a seven-character password whose last character lies outside the Basic Multilingual Plane is eight code units long, so it meets the length rule and is valid with no feedback |
| Lockout.IndexOf | src/lib/auth.ts:75 | the index found is the first entry with the username, or no entry has it |
| Lockout.CheckStatus | src/lib/auth.ts:24-39 | the status `isUserBlocked` reports: blocked, with the block time, iff the entry's block lies after now; see ElapsedBlockIsLifted and FiveFailuresBlock |
| Lockout.AfterCheck | src/lib/auth.ts:30-38 | the list after a check: an elapsed block is cleared with its counter; see ElapsedBlockIsLifted and OperationsPreserveWellFormed |
| Lockout.AfterFailure | src/lib/auth.ts:42-71 | the list after a failure: the entry is created or counted up, and blocked for 24 h at five; see FailureCountsOne and FailureLeavesOthers |
| Lockout.FailureOutcome | src/lib/auth.ts:42-71 | the count and block `recordFailedAttempt` reports; see FailureCountsOne and ConsecutiveFailures |
| Lockout.AfterReset | src/lib/auth.ts:74-79 | the list after a reset: the username's entry is removed; see ResetClearsCounter and ResetLeavesOthers |
| Lockout.Tracker.constructor | src/lib/auth.ts:21 | the list starts empty and satisfies the list invariant (one entry per username, a block only after five failures) |
| Lockout.Tracker.IsUserBlocked | src/lib/auth.ts:24-39 | the status and the new list are those of the check function (blocked iff the entry's block lies after now; an elapsed block is cleared with its counter, see ElapsedBlockIsLifted); the list invariant is kept |
| Lockout.Tracker.RecordFailure | src/lib/auth.ts:42-71 | the report and the new list are those of the failure function; the list invariant is kept |
| Lockout.Tracker.ResetFailures | src/lib/auth.ts:74-79 | the username's entry, if any, is removed; the list invariant is kept |
| Lockout.OperationsPreserveWellFormed | src/lib/auth.ts:24-79 | check, failure and reset keep one entry per username, with blocks only at ≥ 5 failures |
| Lockout.FailureCountsOne | src/lib/auth.ts:42-71 | a failure creates the entry if absent and adds exactly 1; it reports a block iff the count reaches 5, and then blocks until now + 86 400 000 ms |
| Lockout.OtherUsernamesUntouched | src/lib/auth.ts:24-79 | operations on one username leave every other username's entry as it was |
| Lockout.FailureLeavesOthers | src/lib/auth.ts:42-71 | a failure leaves every other username's entry as it was |
| Lockout.ResetLeavesOthers | src/lib/auth.ts:74-79 | a reset leaves every other username's entry as it was |
| Lockout.ResetClearsCounter | src/lib/auth.ts:74-79 | after a reset the username is untracked and unblocked, and the next failure reports 1 |
| Lockout.ElapsedBlockIsLifted | src/lib/auth.ts:30-38 | a check after the block time clears the block and zeroes the counter but keeps the entry |
| Lockout.ConsecutiveFailures | src/lib/auth.ts:42-71 | n failures from a clear username count n, and block iff n ≥ 5, until 24 h after the last one |
| Lockout.FiveFailuresBlock | src/lib/auth.ts:24-71 | within 24 h of the fifth consecutive failure the username is reported blocked |
| UserDirectory.IndexOfId | src/lib/auth.ts:263 | the index found is the first record with the id, or no record has it |
| UserDirectory.Directory.constructor | src/lib/auth.ts:194-207 | the directory starts with the seeded super-admin only |
| UserDirectory.Directory.CreateUser | src/lib/auth.ts:276-288 | exactly one record is appended: the supplied fields, id = decimal timestamp, both timestamps now |
| UserDirectory.Directory.GetAllUsers | src/lib/auth.ts:291-294 | the whole list is returned |
| UserDirectory.Directory.DeleteUser | src/lib/auth.ts:297-305 | false and no change for an unknown id; otherwise exactly the first matching record is removed |
| UserDirectory.Directory.UpdateUserPassword | src/lib/auth.ts:260-273 | false and no change for an unknown id; otherwise only that record changes, with the default-password flag cleared |
| UserDirectory.Directory.ResetUserPassword | src/lib/auth.ts:308-322 | false and no change for an unknown id; otherwise only that record changes, with both flags set |
| UserDirectory.Directory.UpdateUser | src/lib/auth.ts:325-338 | null and no change for an unknown id; otherwise only that record is replaced by the patched one, which is returned |
| UserDirectory.ApplyPatch | src/lib/auth.ts:330-334 | `{ ...user, ...userData, updatedAt }`: every supplied field replaces the stored one and updatedAt becomes now; see EmptyPatchTouchesTimestampOnly and PatchIsIdempotent |
| UserDirectory.PasswordChangeKeepsIdentity | src/lib/auth.ts:265-269 | a password change keeps every field but the default flag and the timestamp; the flag becomes false, updatedAt becomes now, and the must-change flag is kept |
| UserDirectory.PasswordResetForcesFlags | src/lib/auth.ts:313-318 | a reset sets both flags, whatever password is passed |
| UserDirectory.EmptyPatchTouchesTimestampOnly | src/lib/auth.ts:330-334 | an empty patch changes only `updatedAt` |
| UserDirectory.PatchIsIdempotent | src/lib/auth.ts:330-334 | applying a patch twice equals applying it once |
| Authentication.Authenticate | src/lib/auth.ts:210-257 | the login outcome and the new lockout list; BlockedAttemptIsNotCounted, CorrectCodeResets, WrongCodeCounts, NoCodeNeverSuperAdmin and NoCodeUnmatched state each branch |
| Authentication.FirstSuperAdmin | src/lib/auth.ts:227 | the result is the first super-admin of the list (no earlier user is one), or the list has none |
| Authentication.FindLoginUser | src/lib/auth.ts:241 | the result is the first user with the username that is not a super-admin, or no such user exists |
| Authentication.AuthenticateUser | src/lib/auth.ts:210-257 | the outcome and the new lockout list are those of the login function |
| Authentication.BlockedAttemptIsNotCounted | src/lib/auth.ts:215-220 | a code attempt on a blocked username is refused and the list is left as it is |
| Authentication.CorrectCodeResets | src/lib/auth.ts:223-228 | the right code with `admin`/`admin123` returns the first super-admin and untracks the username |
| Authentication.WrongCodeCounts | src/lib/auth.ts:229-237 | any other code counts one failure and reports 5 − failures (1..4) left, or the lockout at 5 |
| Authentication.NoCodeNeverSuperAdmin | src/lib/auth.ts:240-256 | without a code the lockout list is untouched, and a returned user has the username, is not a super-admin, is flagged as on the default password, and was given `admin123` |
| Authentication.NoCodeUnmatched | src/lib/auth.ts:242-248 | an unmatched `admin` is told to supply the code; any other unmatched name gets null |
| Authentication.EmptyCodeIsNoCode | src/lib/auth.ts:215 | an empty code behaves exactly as an absent one |
| Authentication.SeededAdminScenario | src/lib/auth.ts:210-238 | the seeded admin logs in with `oscar4471`; a wrong code leaves 4 attempts |
| MessageTypes.CategoryIndex | src/types/message.ts:4-10 | each category has its declaration position |
| MessageTypes.IndexOfRecipient | src/lib/messageSystem.ts:129 | the index found is the user's first entry, or the user has none |
| MessageTypes.RecipientHasStatus | src/lib/messageSystem.ts:118-131 | a message names the user iff the user's first entry gives a status |
| MessageTypes.FirstUnreadIsAnUnreadEntry | src/lib/messageSystem.ts:323-328 | a first entry that is UNREAD is an unread entry for the badges |
| MessageTypes.DuplicateEntriesDisagree | src/lib/messageSystem.ts:323-328 | with a READ entry followed by an UNREAD one, the store reads READ while the badges see an unread message |
| MessageTypes.EntriesOf | src/lib/messageSystem.ts:129 | the user's entries are never more than the list's entries |
| MessageTypes.EntriesOfMembers | src/lib/messageSystem.ts:129 | a recipient entry is among the user's entries exactly when it is in the list and carries the username |
| MessageTypes.ListedIffEntries | src/lib/messageSystem.ts:323-328 | a message names the user iff the user has entries, and has an unread entry iff one of those entries is UNREAD |
| MessageTypes.FirstEntryLeadsEntries | src/lib/messageSystem.ts:129 | the entry `find` returns is the first of the user's entries, or none when there are none |
| MessageTypes.SameEntriesSameReadings | src/lib/messageSystem.ts:118-131 | two messages with the same entries for a user agree on whether the user is listed, on the first entry, on its status and on unread entries |
| MessageTypes.MessageIdInjective | src/lib/messageSystem.ts:25-27 | two ids are equal only when both timestamp and counter are |
| MessageTypes.ParseMessageIdInverts | src/lib/messageSystem.ts:25-27 | an id is read back to its timestamp and counter |
| MessageUpdates.SenderTypeOf | src/lib/messageSystem.ts:63-66 | SUPER_ADMIN maps to super_admin, ADMIN to admin, everyone else to system |
| MessageUpdates.NewMessage | src/lib/messageSystem.ts:30-78 | the record `createMessage` stores; NewMessageRecipients states its entries and flags |
| MessageUpdates.NewMessageRecipients | src/lib/messageSystem.ts:30-78 | a new message's entries are all UNREAD and unread; a broadcast names the directory users and ignores the request list, otherwise the request list is taken as is |
| MessageUpdates.NewSystemMessage | src/lib/messageSystem.ts:81-109 | the record `createSystemMessage` stores; SystemMessageIgnoresBroadcast states its sender and entries |
| MessageUpdates.SystemMessageIgnoresBroadcast | src/lib/messageSystem.ts:81-109 | a system message is sent by "System" with type system and names exactly the request list, even for a broadcast |
| MessageUpdates.IndexOfId | src/lib/messageSystem.ts:197 | the index found is the first message with the id, or no message has it |
| MessageUpdates.AfterMarkRead | src/lib/messageSystem.ts:192-209 | the result of `markMessageAsRead` and the new list; MarkReadEffect states both |
| MessageUpdates.MarkReadEffect | src/lib/messageSystem.ts:192-209 | success iff the message exists and names the user; then that message gets exactly its user's first entry set to READ with readAt = now and updatedAt = now, and that entry is what `find` now returns; other messages are unchanged and no other user's entries change; a failure changes nothing |
| MessageUpdates.BatchStep | src/lib/messageSystem.ts:220-245 | one pass of the batch loop; BatchStepEffect states it |
| MessageUpdates.AfterBatch | src/lib/messageSystem.ts:212-250 | the list after the batch loop over the ids in order; BatchIsolatesUsers, BatchKeepsOtherReadings and UnknownIdsAreSkipped state it |
| MessageUpdates.BatchStepEffect | src/lib/messageSystem.ts:220-245 | ids and every field but the entries and updatedAt are kept, and no other user's entries change; an id without the message or the user's entry is skipped; otherwise only that message changes, with updatedAt = now and exactly the user's first entry replaced by READ at now, UNREAD without readAt, or ARCHIVED, or removed; after a delete the user's entries are the old ones less the first |
| MessageUpdates.BatchDeleteUnlistsSingleEntry | src/lib/messageSystem.ts:240-242 | a delete of the user's only entry keeps the message but leaves it without the user |
| MessageUpdates.BatchDeleteKeepsDuplicate | src/lib/messageSystem.ts:240-242 | a user with two or more entries is still listed after a delete, and the store now reads the status of their second entry |
| MessageUpdates.BatchKeepsIds | src/lib/messageSystem.ts:212-250 | a batch keeps the store's ids in their order, even when a delete leaves a message without entries |
| MessageUpdates.BatchIsolatesUsers | src/lib/messageSystem.ts:212-250 | a whole batch keeps every message and its id, even one left without entries, changes nothing but entries and updatedAt, and leaves every other user's entries as they were |
| MessageUpdates.BatchKeepsOtherReadings | src/lib/messageSystem.ts:212-250 | after a batch, another user is listed, has a first-entry status and has an unread entry exactly as before |
| MessageUpdates.UnknownIdsAreSkipped | src/lib/messageSystem.ts:220-224 | a batch of unknown ids changes nothing |
| MessageUpdates.MarkFirstEntryRead | src/lib/messageSystem.ts:256-263 | one message in `markAllMessagesAsRead`; MarkFirstEntryReadEffect states it |
| MessageUpdates.MarkFirstEntryReadEffect | src/lib/messageSystem.ts:256-263 | only entries and updatedAt may change; the first entry's UNREAD becomes READ and other statuses are kept; other users' entries are kept |
| MessageUpdates.MarkAllEffect | src/lib/messageSystem.ts:253-266 | ids are kept and only entries and updatedAt change; afterwards no first entry of the user is UNREAD; UNREAD became READ, READ and ARCHIVED kept their status; other users' entries are unchanged |
| MessageUpdates.MarkAllIsIdempotent | src/lib/messageSystem.ts:253-266 | a second call, at any time, changes nothing |
| MessageUpdates.AfterDelete | src/lib/messageSystem.ts:552-560 | the result of `deleteMessage` and the new list; DeleteEffect states both |
| MessageUpdates.DeleteEffect | src/lib/messageSystem.ts:552-560 | success iff some message has the id; the first one is removed whole and the rest keep their order; a failure changes nothing |
| MessageStatistics.CategoryCounts.Inc | src/lib/messageSystem.ts:310 | one category's counter goes up by 1 and the others stay |
| MessageStatistics.PriorityCounts.Inc | src/lib/messageSystem.ts:311 | one priority's counter goes up by 1 and the others stay |
| MessageStatistics.UserStats | src/lib/messageSystem.ts:269-319 | the statistics over the messages naming the user; UserStatsIdentities and TallyUserStatus state them |
| MessageStatistics.CountUserFound | src/lib/messageSystem.ts:295-313 | a message whose first entry for the user is found has that entry's status counted, then its category, then its priority |
| MessageStatistics.CountUserCounts | src/lib/messageSystem.ts:295-313 | a message naming the user keeps total and adds one to the status sum, the category sum and the priority sum |
| MessageStatistics.TallyUserCounts | src/lib/messageSystem.ts:294-314 | over messages naming the user, each one adds 1 to the status sum, the category sum and the priority sum |
| MessageStatistics.UserStatsIdentities | src/lib/messageSystem.ts:269-319 | unread + read + archived = total = Σ byCategory = Σ byPriority, and total counts the messages naming the user |
| MessageStatistics.TallyUserStatus | src/lib/messageSystem.ts:297-308 | each status counter counts the messages whose first entry for the user has that status |
| MessageStatistics.AddStatusesCounts | src/lib/messageSystem.ts:533-545 | the inner loop adds one status per recipient entry and changes nothing else |
| MessageStatistics.GlobalStats | src/lib/messageSystem.ts:504-549 | the statistics over all messages; GlobalStatsIdentities states them |
| MessageStatistics.TallyGlobalCounts | src/lib/messageSystem.ts:525-546 | each message adds 1 to the category and priority sums and its entries to the status sum |
| MessageStatistics.GlobalStatsIdentities | src/lib/messageSystem.ts:504-549 | total = number of messages = Σ byCategory = Σ byPriority, and unread + read + archived = number of recipient entries |
| MessageStatistics.Badges | src/lib/messageSystem.ts:322-357 | the non-empty badges of the user's unread messages; BadgesInOrder, BadgeTotals, BadgeContents and BadgePresence state them |
| MessageStatistics.AllBadges | src/lib/messageSystem.ts:330-337 | before empty ones are dropped there are as many badges as categories |
| MessageStatistics.CountsPartition | src/lib/messageSystem.ts:340-348 | the five per-category counts of a list add up to its length |
| MessageStatistics.CountInWitness | src/lib/messageSystem.ts:340-348 | a category count is positive iff some unread message has the category |
| MessageStatistics.UrgentInWitness | src/lib/messageSystem.ts:340-348 | a category is flagged urgent iff one of its unread messages is urgent |
| MessageStatistics.DroppingEmptyKeepsSum | src/lib/messageSystem.ts:356 | dropping empty badges keeps the sum of counts |
| MessageStatistics.BadgesInOrder | src/lib/messageSystem.ts:322-357 | badges come in declaration order of their categories, at most one per category |
| MessageStatistics.BadgeTotals | src/lib/messageSystem.ts:322-357 | the counts add up to the unread total on every badge, and every badge carries the same urgent total |
| MessageStatistics.BadgeContents | src/lib/messageSystem.ts:340-348 | a badge counts its category's unread messages and is urgent iff one of them is |
| MessageStatistics.BadgePresence | src/lib/messageSystem.ts:322-357 | a category has a badge iff the user has an unread message in it |
| MessageQueries.UserListing | src/lib/messageSystem.ts:118-169 | the filtered and sorted listing of a user's messages; UserListingIsSortedSelection and UserListingIsStable state it |
| MessageQueries.UserListingIsSortedSelection | src/lib/messageSystem.ts:118-169 | every listed message names the user and passes every supplied filter; every such message is listed as often as it is stored; the order is priority descending, then createdAt descending |
| MessageQueries.UserListingIsStable | src/lib/messageSystem.ts:159-169 | messages tying on priority and time keep their store order |
| MessageQueries.AdminListing | src/lib/messageSystem.ts:455-481 | the filtered and sorted listing of all messages; AdminListingIsSortedSelection and AdminSearchFindsSender state it |
| MessageQueries.AdminListingIsSortedSelection | src/lib/messageSystem.ts:455-481 | the admin listing takes every message passing category, sender type and search, whatever its recipients, newest first, and ignores the other parameters |
| MessageQueries.AdminSearchFindsSender | src/lib/messageSystem.ts:472-477 | a search that equals the sender's name, ignoring case, selects the message: the admin search also looks at the sender |
| MessageQueries.Slice | src/lib/messageSystem.ts:176 | `Array.prototype.slice` with its clamping of the bounds; SliceIndex and PageArithmetic state it |
| MessageQueries.SliceIndex | src/lib/messageSystem.ts:176 | a slice bound is clamped into the sequence and taken as is when already inside |
| MessageQueries.Paginate | src/lib/messageSystem.ts:172-186 | the page and its `hasMore` flag; PageArithmetic, DefaultPage and PagesAreAdjacent state them |
| MessageQueries.PageArithmetic | src/lib/messageSystem.ts:172-176 | for page p ≥ 1 and limit L over N items: min(L, max(0, N − (p−1)L)) items from (p−1)L on, hasMore iff pL < N, total N |
| MessageQueries.DefaultPage | src/lib/messageSystem.ts:172-173 | with no parameters the first 20 items are returned |
| MessageQueries.PagesAreAdjacent | src/lib/messageSystem.ts:174-176 | page p + 1 starts where page p ends |
| MessageStore.IssueKeepsIdsDistinct | src/lib/messageSystem.ts:25-27 | the next id is not among the issued ones, whatever the clock says |
| MessageStore.RemoveKeepsIdsIssued | src/lib/messageSystem.ts:552-560 | removing a message keeps the ids issued and distinct |
| MessageStore.CountBadges | src/lib/messageSystem.ts:340-348 | the counting loop gives each category its count and urgent flag, plus the unread and urgent totals |
| MessageStore.StampTotals | src/lib/messageSystem.ts:351-354 | the second loop stamps both totals on every badge |
| MessageStore.Store.constructor | src/lib/messageSystem.ts:21-22 | empty list, counter 1 |
| MessageStore.Store.GenerateMessageId | src/lib/messageSystem.ts:25-27 | the id carries now and the old counter, and the counter goes up by 1 |
| MessageStore.Store.CreateMessage | src/lib/messageSystem.ts:30-78 | exactly the new message is appended, built from the request, the sender and the directory snapshot; ids stay distinct |
| MessageStore.Store.CreateSystemMessage | src/lib/messageSystem.ts:81-109 | exactly the new system message is appended; ids stay distinct |
| MessageStore.Store.MarkMessageAsRead | src/lib/messageSystem.ts:192-209 | the result and the new list are those of the mark-read function |
| MessageStore.Store.BatchUpdateMessages | src/lib/messageSystem.ts:212-250 | always true; the new list is that of the batch function over the ids in order |
| MessageStore.Store.MarkAllMessagesAsRead | src/lib/messageSystem.ts:253-266 | always true; the new list is that of the mark-all function |
| MessageStore.Store.CalculateUserMessageStats | src/lib/messageSystem.ts:269-319 | the loop computes the user statistics |
| MessageStore.Store.CalculateGlobalMessageStats | src/lib/messageSystem.ts:504-549 | the nested loops compute the global statistics |
| MessageStore.Store.GetNotificationBadges | src/lib/messageSystem.ts:322-357 | the badges are the non-empty per-category badges of the user's unread messages |
| MessageStore.Store.GetUserMessages | src/lib/messageSystem.ts:112-189 | the page of the user listing, its total, page, limit, hasMore, and the unfiltered user statistics |
| MessageStore.Store.GetAllMessages | src/lib/messageSystem.ts:455-501 | the page of the admin listing, its total, page, limit, hasMore, and the global statistics |
| MessageStore.Store.DeleteMessage | src/lib/messageSystem.ts:552-560 | the result and the new list are those of the delete function; ids stay distinct |
| MessageContext.Reduce | src/contexts/MessageContext.tsx:70-113 | the message reducer; FlagsAreIndependent, ErrorEndsLoading, LoadedPageReplacesListing, UpdateReplacesMatching, RemoveDropsId and ResetForgetsHistory state each action |
| MessageContext.Replaced | src/contexts/MessageContext.tsx:96-98 | the update keeps the list's length |
| MessageContext.FlagsAreIndependent | src/contexts/MessageContext.tsx:72-73 | SET_LOADING changes only `loading`, SET_BADGES only `badges`, and the two commute |
| MessageContext.ErrorEndsLoading | src/contexts/MessageContext.tsx:74-75 | SET_ERROR sets the error and clears `loading`, keeping the listing |
| MessageContext.LoadedPageReplacesListing | src/contexts/MessageContext.tsx:76-86 | SET_MESSAGES replaces messages, stats, total, hasMore and page, clears loading and error, keeps badges |
| MessageContext.UpdateReplacesMatching | src/contexts/MessageContext.tsx:93-99 | UPDATE_MESSAGE keeps the length, replaces exactly the entries with the id, and is idempotent |
| MessageContext.RemoveDropsId | src/contexts/MessageContext.tsx:100-105 | REMOVE_MESSAGE drops every entry with the id and keeps the others; total stays ≥ 0 and drops by 1 when it was positive |
| MessageContext.RemoveUndoesAdd | src/contexts/MessageContext.tsx:87-105 | removing a just-added message with a fresh id restores the list and the total |
| MessageContext.WithoutAbsent | src/contexts/MessageContext.tsx:103 | removing an id that no message has changes nothing |
| MessageContext.ResetForgetsHistory | src/contexts/MessageContext.tsx:58-67 | RESET_MESSAGES gives the initial state, whatever came before |
| MessageContext.TotalNeverNegative | src/contexts/MessageContext.tsx:70-113 | from the initial state, no sequence of actions makes `total` negative |
| AuthContext.Reduce | src/contexts/AuthContext.tsx:26-69 | the auth reducer; ReducePreservesConsistency, LoginStartKeepsSession, LoginOutcomes and LogoutForgetsSession state each action |
| AuthContext.ReducePreservesConsistency | src/contexts/AuthContext.tsx:26-69 | every action keeps "authenticated ⇒ user and token present" |
| AuthContext.ReachableStatesAreConsistent | src/contexts/AuthContext.tsx:17-69 | every state reachable from the initial one is consistent |
| AuthContext.LoginStartKeepsSession | src/contexts/AuthContext.tsx:28-33 | LOGIN_START sets loading and clears the error, keeping the session; CLEAR_ERROR changes only the error |
| AuthContext.LoginOutcomes | src/contexts/AuthContext.tsx:34-51 | LOGIN_SUCCESS authenticates with user and token; LOGIN_FAILURE drops both and records the error; both clear loading |
| AuthContext.LogoutForgetsSession | src/contexts/AuthContext.tsx:52-60 | LOGOUT gives the initial state whatever came before; UPDATE_USER changes only the user |
| AuthContext.ContextUserHasOnlyRolePower | src/contexts/AuthContext.tsx:193-202 | a user created through the context must change a default password and holds a permission iff its role is super-admin |
| AuthContext.CreateUserThroughContext | src/contexts/AuthContext.tsx:193-215 | the directory gains exactly the record with the context's defaults, created by the current user |
| AuthContext.ChangePassword | src/contexts/AuthContext.tsx:156-185 | no user, or a mismatched confirmation: failure and nothing changes; otherwise success iff the record exists, and then the session user loses the default flag and keeps the must-change flag |
| MessageComposer.FormErrors | src/components/messages/MessageComposer.tsx:103-126 | the error map `validateForm` builds; ErrorMap and FormErrorsExactly state it |
| MessageComposer.ErrorMap | src/components/messages/MessageComposer.tsx:103-126 | each field has an error iff its rule failed, and no other key occurs |
| MessageComposer.RecordErrors | src/components/messages/MessageComposer.tsx:103-126 | the successive assignments build that map |
| MessageComposer.ValidateForm | src/components/messages/MessageComposer.tsx:103-130 | the method fills the form's error map and passes iff the map is empty |
| MessageComposer.FormErrorsExactly | src/components/messages/MessageComposer.tsx:106-126 | a blank title or content errs; a non-global form with only blank recipients errs; a given expiry not after now errs |
| MessageComposer.NoFilledRecipientsIffAllBlank | src/components/messages/MessageComposer.tsx:114-119 | no recipient survives the filter iff every entry is blank |
| MessageComposer.ValidIffNoRuleFails | src/components/messages/MessageComposer.tsx:103-130 | the form is valid iff every rule holds |
| MessageComposer.InitialFormIsRejected | src/components/messages/MessageComposer.tsx:89-97 | the untouched form errs on title, content and recipients, not on expiry |
| MessageComposer.BuildRequest | src/components/messages/MessageComposer.tsx:141-149 | the request `handleSubmit` sends; ValidFormBuildsSendableRequest states it |
| MessageComposer.ValidFormBuildsSendableRequest | src/components/messages/MessageComposer.tsx:141-149 | from a valid form: non-empty trimmed title and content; global iff the form was; otherwise at least one recipient, namely the non-blank entries |
| ModuleLoader.Registered | src/lib/moduleLoader.ts:7-9 | the registry after `registerModule`; RegisterEffect and LookupAfterRegister state it |
| ModuleLoader.Lookup | src/lib/moduleLoader.ts:22-24 | `getModule`: the entry with the id, if any; LookupAfterRegister states it |
| ModuleLoader.IndexOfModule | src/lib/moduleLoader.ts:8 | the position found holds the id, or no entry has it |
| ModuleLoader.RegisterEffect | src/lib/moduleLoader.ts:7-9 | an existing id is replaced in place (size unchanged), a new one appended; the id looks up the new config and other ids are unchanged |
| ModuleLoader.LookupAfterRegister | src/lib/moduleLoader.ts:22-24 | `getModule` returns the latest registration of its id |
| ModuleLoader.UniqueIndex | src/lib/moduleLoader.ts:4 | in a map each key sits at one place only |
| ModuleLoader.AllModules | src/lib/moduleLoader.ts:12-14 | `getAllModules`: the entries sorted by order; AllModulesIsStableSort states it |
| ModuleLoader.AllModulesIsStableSort | src/lib/moduleLoader.ts:12-14 | `getAllModules` is a permutation of the registry in ascending order; equal orders keep registration order |
| ModuleLoader.ModulesAt | src/lib/moduleLoader.ts:17-19 | `getModulesByPosition`: the sorted entries at one position; ModulesAtIsSortedSelection states it |
| ModuleLoader.ModulesAtIsSortedSelection | src/lib/moduleLoader.ts:17-19 | `getModulesByPosition(p)` holds exactly the modules at p, in ascending order |
| ModuleLoader.Registry.constructor | src/lib/moduleLoader.ts:4 | the registry starts empty |
| ModuleLoader.Registry.RegisterModule | src/lib/moduleLoader.ts:7-9 | the new entries are those of the registration function, ids stay distinct |
| ModuleLoader.Registry.GetAllModules | src/lib/moduleLoader.ts:12-14 | returns the sorted view |
| ModuleLoader.Registry.GetModulesByPosition | src/lib/moduleLoader.ts:17-19 | returns the sorted view filtered by position |
| ModuleLoader.Registry.GetModule | src/lib/moduleLoader.ts:22-24 | returns the lookup of the id |
| ModuleLoader.Registry.Decorate | src/lib/moduleLoader.ts:27-35 | registers the spec with the component and returns the component unchanged |
| ModuleLoader.DashboardSorted | src/components/modules/index.ts:5-9 | after the five widget files are imported in order, `getAllModules` lists member-stats, welcome-panel, member-type-chart, message-summary, member-analytics |
| ModuleLoader.MainColumn | src/components/modules/MemberStats.tsx:98-103 | the main column is member-stats, member-type-chart, member-analytics |
| ModuleLoader.SidebarColumn | src/components/modules/WelcomePanel.tsx:200-205 | the sidebar is welcome-panel, message-summary |
| RoleBadge.RoleWeight | src/components/RoleBadge.tsx:57-70 | weights lie in 1..4, and 4 is exactly super-admin |
| RoleBadge.WeightIsInjective | src/components/RoleBadge.tsx:57-70 | no two roles share a weight |
| RoleBadge.RolesRankInOrder | src/components/RoleBadge.tsx:57-75 | the weights are 4, 3, 2, 1 for super-admin, admin, moderator and regular user, and each ranks above the next |
| RoleBadge.CompareRoles | src/components/RoleBadge.tsx:73-75 | weight(b) − weight(a): zero exactly on equal roles, antisymmetric, transitive, super-admin first; CompareIsAntisymmetric, CompareIsTransitive, SuperAdminRanksFirst and RolesRankInOrder state it |
| RoleBadge.CompareIsAntisymmetric | src/components/RoleBadge.tsx:73-75 | compare(a, a) = 0, compare(a, b) = −compare(b, a), and 0 only on equal roles |
| RoleBadge.CompareIsTransitive | src/components/RoleBadge.tsx:73-75 | "ranks above" is transitive |
| RoleBadge.SuperAdminRanksFirst | src/components/RoleBadge.tsx:73-75 | compare(SUPER_ADMIN, r) < 0 for every other role |
| RoleBadge.RankFollowsRoleTable | src/components/RoleBadge.tsx:73-75 | a role ranking at least as high holds every table permission of the lower one |

## Left out

- Asynchrony: the `setTimeout` delays and the `Promise` wrapping are dropped, and every operation runs synchronously.
- Time: `Date`, `new Date()` and `Date.now()` become a `nat` millisecond timestamp passed in as `now`. One operation uses one `now`, even where the source reads the clock twice (a new lockout entry's `lastFailedAt`).
- Message texts: each thrown error, feedback line and form error becomes an enumerated kind carrying the values its text reports. The `toLocaleString` formatting is not modelled.
- Passwords: the login compares against the constant `admin123`, and `newPassword` is ignored, as in the source. No operation reads a stored password.
- Extra fields of a created user: `createUserFunc` spreads the whole request into the record it stores, so `groupIds`, `additionalPermissions` and a plain-text `initialPassword` are kept on the user as untyped fields. `UserDirectory.NewUser` and `UserDirectory.User` hold only the typed fields of a user, because no code reads the extra ones.
- Aliasing: the message store hands out its own objects. `createMessage` returns the record it pushed, and the listings return the stored records without copying. `src/contexts/MessageContext.tsx:193-194` and `:236-237` then set `status` and `readAt` on those objects directly. The model works on values, so a change through such a reference is not modelled and only the store's own operations change its records.
- Browser storage: the `localStorage` writes in the auth context are not modelled. Nor are the context's `login`/`logout` wrappers, which only dispatch reducer actions around I/O.
- Network and tokens: `Math.random()` token generation is not modelled; the token is an opaque string in the session state.
- Exceptions in the contexts: `changePassword` and `createUserFunc` catch exceptions. The directory operations they call never throw, so those branches are not modelled.
- Unreachable defaults: the `default` branches of both reducers, of `getRoleWeight`, and the `|| []` of `getRolePermissions` cannot be reached with typed values and are not modelled.
- Text.Lower: ASCII lower-casing only. Locale-dependent case folding in the searches is not modelled.
- MessageComposer.FormData: `expiresAt` is the instant the form's date field denotes, or none when it is empty. The parsing of the date string is not modelled.
- ModuleLoader.ModuleConfig: `props` is left out, a component is known only by a name, and `order` is an integer. The widgets' display names are English paraphrases of their labels.
- MessageStore.CountBadges: the per-category urgent count that the loop keeps is overwritten by the global total before the badges are returned, so no invariant about it is stated.
- JavaScript numbers are modelled as unbounded integers. Counters and timestamps stay far below 2^53 in practice.
- Presentation: the JSX, the charts and the animations are not modelled. Neither are the UI-side filters in the management pages, nor the hitokoto fetch and the health route.
- The composite report functions are not modelled: `detectOverdueUsers`, `generateSystemReport`, `sendOverdueReminders`, `sendSystemReportToAdmin` and `sendBatchRemindersToOverdueUsers`. They run over hard-coded data and compose `createMessage`/`createSystemMessage`.
