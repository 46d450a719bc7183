# HomeHub household-chores core in Dafny

HomeHub is a household chore app: members share a household, pick up tasks and
scheduled chores, earn points for them and spend the points on rewards. This
project models the deterministic logic inside its pages and its data layer. The
database, the auth service and React rendering are not modelled.

- **Rewards page** (`rewards.dfy`, module `Rewards`):
  - The leaderboard: the top member and the points total.
  - Redeeming a reward. A guard runs first, then two independent remote writes: the points debit and the ledger insert. The members, the ledger list, the redeemed counter, the modal and the selections change only after both writes succeed. A failure of either write sets only the error message.
  - Creating a reward, with its validation.
  - The page is a class whose fields are the page's state cells. Each handler returns the remote writes it issues, in order. Each reply is a parameter.
- **Task list** (`tasks.dfy`): adding a task with validation, a fresh id and defaults; toggling completion; the active and completed counters.
- **Weekly schedule** (`schedule.dfy`): adding an entry, the entries of one day, and deleting by id.
- **Calendar view** (`calendar.dfy`):
  - Grouping events into seven day columns. This is a loop that pushes into arrays, so it is a method.
  - The category colour lookup.
- **Avatar** (`avatar.dfy`): initials, and the background colour chosen from the sum of the name's UTF-16 code units.
- **Sign-in / registration form** (`auth.dfy`): the local validation and the error, loading and route state around the auth call.
- **Profile edit** (`profile.dfy`) and **member removal in settings** (`settings.dfy`).
- **Data-layer helpers** from `src/lib/supabase.ts`:
  - Member normalisation, `getHouseholdMembers`, the fast path of `ensureUserHasHousehold`, and `createUserProfile` (`members.dfy`).
  - `inviteUserToHousehold` and `acceptHouseholdInvitation` (`invitations.dfy`).
  - `getRedeemedRewards`, with its placeholder reward, profile fallback and descending-id sort (`redeemed.dfy`).
- **Shared pieces** (`common.dfy`): option and reply types, the `||` fallback on strings, `Math.max(0, ...ids)`, `map`, `filter` and `split`.

Conventions:

- JavaScript's null, undefined and empty strings are all falsy, and the modelled code treats them alike, so all three are the empty string here.
- A nullable number is an `Option<int>`.
- A remote reply is `Reply<T>`: either `Err(message)` or `Ok(data)`, where `data` may be null.
- The day of the week is an index 0..6. Index 0 is the first column of a Monday-first list.

## Model

| member | source | states |
|---|---|---|
| Common.MaxOrZero | src/app/tasks/page.tsx:80 | `Math.max(0, ...ids)`: the result is at least 0, bounds every id, and is 0 or one of the ids |
| Common.NextIdIsFresh | src/app/tasks/page.tsx:80 | max + 1 is at least 1 and differs from every existing id |
| Common.Split | src/components/ui/Avatar.tsx:41 | `split(' ')` always yields at least one piece, so `names[0]` and the last piece exist even for an empty or all-space name |
| Common.SplitJoin | src/components/ui/Avatar.tsx:41 | `Split`: joining the pieces of `split(' ')` with the separator gives the original name back |
| Tasks.NewTask | src/app/tasks/page.tsx:79-88 | a new task has a fresh id of at least 1, starts not completed, has non-zero points and a non-empty category, and copies title, description, assignee and due date |
| Tasks.NewTaskDefaults | src/app/tasks/page.tsx:80-87 | the id is max(0, ids) + 1; points fall back to 10 when 0 or missing; category falls back to 'Övrigt' |
| Tasks.HandleAddTask | src/app/tasks/page.tsx:74-100 | an empty title, assignee or due date leaves the page unchanged; otherwise exactly the new task is appended, existing tasks keep their order, the modal closes and the form resets |
| Tasks.ToggleCompleted | src/app/tasks/page.tsx:102-108 | the map keeps the length, and the task at each position keeps its id and its points |
| Tasks.ToggleCompletedSpec | src/app/tasks/page.tsx:102-108 | `ToggleCompleted`: the length is kept; tasks with the id have `completed` flipped and nothing else changed; every other task is unchanged |
| Tasks.ToggleTwice | src/app/tasks/page.tsx:102-108 | `ToggleCompleted`: toggling the same id twice restores the original list |
| Tasks.ActiveCount | src/app/tasks/page.tsx:129 | the active counter is at most the number of tasks, and 0 exactly when every task is completed |
| Tasks.CompletedCount | src/app/tasks/page.tsx:133 | the completed counter is at most the number of tasks, and 0 exactly when no task is completed |
| Tasks.CountsPartition | src/app/tasks/page.tsx:129-133 | `ActiveCount` plus `CompletedCount`: active count plus completed count equals the number of tasks |
| Tasks.AddTaskCounts | src/app/tasks/page.tsx:129-133 | a valid add raises the active count by one and keeps the completed count |
| Schedule.NewEntry | src/app/schedule/page.tsx:49-59 | a new entry has a fresh id of at least 1, the draft's day, title and assignee, and its start and end times copied unchecked |
| Schedule.NewEntryDefaults | src/app/schedule/page.tsx:50-58 | id max(0, ids) + 1; points 10 when 0 or missing; category 'Städning' when empty; recurring only when set to true |
| Schedule.HandleAddTask | src/app/schedule/page.tsx:44-71 | an empty title or assignee, or an undefined day, changes nothing; otherwise exactly the new entry is appended after the unchanged list, the modal closes and the form resets |
| Schedule.AddAcceptsAnyTimes | src/app/schedule/page.tsx:56-57 | an entry is added whatever its start and end times are; there is no ordering check |
| Schedule.TasksByDay | src/app/schedule/page.tsx:73-75 | a day's list is no longer than the whole list, and every entry in it is from the list and scheduled on that day |
| Schedule.TasksByDayMembers | src/app/schedule/page.tsx:73-75 | `TasksByDay`: an entry is listed for a day exactly when it is in the list and scheduled on that day |
| Schedule.TasksByDayOrder | src/app/schedule/page.tsx:73-75 | `TasksByDay`: listing by day keeps list order |
| Schedule.TasksByDayPartition | src/app/schedule/page.tsx:73-75 | `TasksByDay`: when every day is in 0..6, the per-day lists over the seven days add up to the whole list |
| Schedule.DeleteTask | src/app/schedule/page.tsx:77-79 | no survivor has the deleted id, and every survivor was in the list |
| Schedule.DeleteKeepsOthers | src/app/schedule/page.tsx:77-79 | every entry with another id survives |
| Schedule.DeleteOrder | src/app/schedule/page.tsx:77-79 | survivors keep their order |
| Schedule.DeleteAbsent | src/app/schedule/page.tsx:77-79 | deleting an id no entry has leaves the list unchanged |
| Schedule.DeleteIdempotent | src/app/schedule/page.tsx:77-79 | deleting twice is deleting once |
| Calendar.OnDay | src/components/calendar/CalendarView.tsx:37-39 | a bucket is no longer than the input, and every event in it is an input event of that day |
| Calendar.Buckets | src/components/calendar/CalendarView.tsx:35-41 | there are exactly seven buckets, and bucket d holds only input events of day d |
| Calendar.EventsByDay | src/components/calendar/CalendarView.tsx:35-41 | the loop succeeds exactly when every day is in 0..6 (otherwise the push throws); it then yields exactly seven buckets, bucket d holding the events of day d in input order |
| Calendar.OnDayMembers | src/components/calendar/CalendarView.tsx:37-39 | `OnDay`: an event is in a bucket exactly when it is an input event of that day |
| Calendar.OnDayOrder | src/components/calendar/CalendarView.tsx:37-39 | `OnDay`: within a bucket, events keep their relative input order |
| Calendar.BucketsTotal | src/components/calendar/CalendarView.tsx:35-41 | `Buckets`: the bucket sizes sum to the number of input events |
| Calendar.GetCategoryColor | src/components/calendar/CalendarView.tsx:44-55 | a known category gets its mapped class and any other string gets the 'Övrigt' class; the result is always one of the six classes |
| Avatar.InitialLetters | src/components/ui/Avatar.tsx:40-42 | the characters the initials are taken from: at most two, the first piece's first character plus, with two or more pieces, the last piece's |
| Avatar.GetInitials | src/components/ui/Avatar.tsx:38-44 | an absent name has initials ''; initials have at most four characters (two characters, each upper-casing to at most two) |
| Avatar.AbsentName | src/components/ui/Avatar.tsx:38-48 | an absent name has initials '' and colour 'bg-gray-400' |
| Avatar.InitialsOnePart | src/components/ui/Avatar.tsx:41-42 | `GetInitials`: a name without spaces gives its first character upper-cased |
| Avatar.InitialsSeveralParts | src/components/ui/Avatar.tsx:41-43 | `GetInitials`: a name with spaces gives the first character before the first space plus the first character after the last space, upper-cased; an empty first or last part contributes '' |
| Avatar.InitialsStartWithFirst | src/components/ui/Avatar.tsx:41-43 | `GetInitials`: a name that does not start with a space has non-empty initials beginning with its first character upper-cased |
| Avatar.InitialsLength | src/components/ui/Avatar.tsx:38-44 | `GetInitials`: initials have at most two characters when the name has no 'ß' |
| Avatar.GetBackgroundColor | src/components/ui/Avatar.tsx:47-61 | an empty name gets 'bg-gray-400'; any other name gets palette[hash mod 8], always one of the eight classes |
| Avatar.Hash | src/components/ui/Avatar.tsx:56-58 | the sum is at least the code units of every single character |
| Avatar.HashConcat | src/components/ui/Avatar.tsx:56-58 | `Hash`: the sum over a concatenation is the sum of the two parts' sums |
| Avatar.HashRemove | src/components/ui/Avatar.tsx:56-58 | `Hash`: taking any one character out lowers the sum by exactly that character's code units, so no character is skipped or counted twice |
| Avatar.HashPermutation | src/components/ui/Avatar.tsx:56-58 | `Hash`: the code-unit sum depends only on the multiset of characters |
| Avatar.ColorIgnoresOrder | src/components/ui/Avatar.tsx:47-61 | two names with the same characters in any order get the same colour |
| Auth.Trim | src/app/auth/page.tsx:31 | `trim()` removes only a white-space prefix and a white-space suffix, and what remains neither starts nor ends with white space |
| Auth.TrimEmptyIffBlank | src/app/auth/page.tsx:31 | `Trim`: `trim()` gives '' exactly when the name holds only white space |
| Auth.Validate | src/app/auth/page.tsx:26-33 | login performs no check; in register mode a password mismatch fails with 'Lösenorden matchar inte'; otherwise 'Ange ditt namn' is reported exactly when the name is blank |
| Auth.PasswordCheckFirst | src/app/auth/page.tsx:27-33 | the password check comes before the name check |
| Auth.AuthPage.HandleSubmit | src/app/auth/page.tsx:20-53 | a failed check makes no auth call and sets its message; otherwise signUp or signIn is called, its error is shown, and on success the route is '/auth/verify' or '/dashboard'; loading is false afterwards on every path |
| Profile.HandleEditProfile | src/app/profile/page.tsx:57-75 | each of name, email and role takes the submitted value when non-empty and keeps the old value otherwise; the edit modal closes |
| Profile.EditKeepsOtherFields | src/app/profile/page.tsx:67-68 | points, completed tasks, join date, avatar and preferences are unchanged |
| Profile.EditEmptyFormIsIdentity | src/app/profile/page.tsx:67-72 | submitting all-empty fields leaves the profile identical |
| Profile.EditIdempotent | src/app/profile/page.tsx:67-72 | submitting the same form twice equals submitting it once |
| Settings.RemoveMember | src/app/settings/page.tsx:71-77 | every remaining member was there before and has another id |
| Settings.RemoveMemberSpec | src/app/settings/page.tsx:73-75 | the id is gone, every member with another id remains, and no other setting changes |
| Settings.RemoveMemberOrder | src/app/settings/page.tsx:75 | remaining members keep their relative order |
| Settings.RemoveAbsentMember | src/app/settings/page.tsx:75 | removing an absent id changes nothing |
| Settings.RemoveMemberIdempotent | src/app/settings/page.tsx:75 | removing twice equals removing once |
| Rewards.MemberName | src/app/rewards/page.tsx:83 | the shown name is never empty: full name, else email, else '-' |
| Rewards.TopMemberName | src/app/rewards/page.tsx:74-88 | '-' when the list is empty or nobody has more than -1 points; otherwise the name of the first member holding the maximum (strict `>`, so ties keep the earlier member) |
| Rewards.TopIsUnique | src/app/rewards/page.tsx:80-85 | the top member is determined uniquely |
| Rewards.ReducePoints | src/app/rewards/page.tsx:447 | the displayed `reduce` from an accumulator equals the accumulator plus the sum of all members' points, so from 0 it is the points total |
| Rewards.FindMember | src/app/rewards/page.tsx:241 | `find` gives nothing exactly when no member has the id; otherwise it gives the first member with it |
| Rewards.RedemptionGuard | src/app/rewards/page.tsx:239-242 | passes exactly when a reward and a non-empty member id are selected, the member is in the list and has at least the cost in points; the balance after the debit is then non-negative |
| Rewards.DebitMember | src/app/rewards/page.tsx:275-281 | one member out per member in |
| Rewards.DebitMemberSpec | src/app/rewards/page.tsx:275-281 | `DebitMember`: only the members with the id lose the cost; every other member is unchanged |
| Rewards.DebitMemberTotal | src/app/rewards/page.tsx:275-281 | `DebitMember`: the points total drops by the cost once per member holding the id |
| Rewards.RedemptionDebit | src/app/rewards/page.tsx:275-281 | with unique member ids, a guarded redemption takes exactly the cost off the points total |
| Rewards.RedemptionBalance | src/app/rewards/page.tsx:242-248 | with unique member ids, the redeeming member's new balance is non-negative |
| Rewards.FindUnique | src/app/rewards/page.tsx:241 | with unique ids, `find` returns the member holding the id |
| Rewards.NewEntry | src/app/rewards/page.tsx:286-306 | the prepended entry takes its id, reward id and user id from the inserted row, snapshots the selected reward and the selected member's id, full name, email and avatar, and is stamped with the current time |
| Rewards.RewardsPage.RedeemReward | src/app/rewards/page.tsx:238-324 | a failed guard issues nothing and changes nothing; otherwise the debit is issued first. A failed debit sets the error and changes nothing else. A failed insert sets the error, changes nothing else, and does not undo the debit. Success debits only the member, adds one to the counter, prepends one entry for the chosen reward and member when a row comes back, and closes the modal |
| Rewards.RewardsPage.CompleteRedemption | src/app/rewards/page.tsx:274-323 | the local update after both writes succeed: members become `DebitMember` of the old list, the counter goes up by one, the returned entry (if any) goes first, the modal closes with both selections cleared, and nothing else changes |
| Rewards.RewardsPage.AddReward | src/app/rewards/page.tsx:327-369 | an empty title, a zero cost or a missing household issues nothing and changes nothing; otherwise the reward is inserted; a failed insert sets only the error, the prefix plus the reply's message or 'Okänt fel' when it has none; on success it is appended and the form resets to its defaults |
| Members.EmailName | src/lib/supabase.ts:472 | the email name is the '@'-free prefix of the address that ends at its first '@' |
| Members.EmailNameOfAddress | src/lib/supabase.ts:472 | the email name of `local@domain` is `local` |
| Members.EmailNameWithoutAt | src/lib/supabase.ts:472 | an address without '@' is its own email name |
| Members.DisplayName | src/lib/supabase.ts:473 | the display name is never empty |
| Members.DisplayNameChain | src/lib/supabase.ts:472-478 | full name if non-empty, else the email part before '@' if non-empty, else 'Användare' |
| Members.Normalise | src/lib/supabase.ts:470-485 | keeps id, email and avatar; `full_name == name` and both are the display name; the role is never empty |
| Members.NormaliseDefaults | src/lib/supabase.ts:479-484 | role defaults to 'Medlem', points and completed tasks to 0 |
| Members.NormaliseStable | src/lib/supabase.ts:470-485 | normalising an already normalised record changes nothing |
| Members.NormaliseAll | src/lib/supabase.ts:513-528 | one output per input row, in order |
| Members.NormaliseAllNamed | src/lib/supabase.ts:513-528 | every output has a non-empty name equal to its full name, and the id of its row |
| Members.GetHouseholdMembers | src/lib/supabase.ts:450-536 | an empty household id gives [] and an error; RPC data is normalised; an RPC error or null RPC data falls back to the table query, whose error gives [] plus that error and whose rows (or none) are normalised |
| Members.MembersGuardQueriesNothing | src/lib/supabase.ts:455-458 | with an empty household id the replies do not matter: nothing is queried |
| Members.MembersTableOnlyAsFallback | src/lib/supabase.ts:466-488 | the table reply is ignored when the RPC returns data |
| Members.MembersListingShape | src/lib/supabase.ts:496-530 | a listing with an error has no members; every member listed has a non-empty name equal to its full name |
| Members.EnsureUserHasHousehold | src/lib/supabase.ts:306-309 | a profile with a household id is returned unchanged with no error and no query; anything else goes on to the creation path |
| Members.HouseholdFastPathAfterJoin | src/lib/supabase.ts:306-309 | once a profile has a household id, the fast path applies |
| Members.NewProfile | src/lib/supabase.ts:258-265 | a new profile has the user's id and email, points 0, completed tasks 0, role 'Användare' and a non-empty full name |
| Members.CreateUserProfile | src/lib/supabase.ts:254-277 | the row inserted is the new profile; an insert error returns only the user id plus the error; otherwise the stored row with no error |
| Members.NewProfileAsMember | src/lib/supabase.ts:258-265 | a new profile normalises to a member named as given (or 'Användare') with 0 points |
| Invitations.BuildInvitation | src/lib/supabase.ts:675-682 | a built invitation is pending, copies sender, recipient and household, and has household name 'Hushåll' when none is given |
| Invitations.InviteUserToHousehold | src/lib/supabase.ts:646-703 | a missing sender id, recipient email or household id is rejected before any query; a failed table probe stops after the probe; otherwise the built invitation is inserted, and an insert error gives its message or the default message |
| Invitations.InsertedInvitationsArePending | src/lib/supabase.ts:675-689 | every invitation sent to the database is pending and names its household |
| Invitations.InviteErrorIffNotInserted | src/lib/supabase.ts:650-703 | the answer has no error exactly when the input is complete, the probe passes and the insert succeeds; errors are non-empty and come without data |
| Invitations.AcceptHouseholdInvitation | src/lib/supabase.ts:778-841 | missing ids are rejected before any query; a fetch error, a missing invitation or a profile-update error stop with their message; otherwise the user is moved to the invitation's household, the invitation is marked accepted, and the updated profile is returned |
| Invitations.StatusUpdateNotFatal | src/lib/supabase.ts:829-841 | a failed status update does not change the answer |
| Invitations.AcceptMarksOnlyAfterJoin | src/lib/supabase.ts:810-838 | the invitation is marked accepted only after the fetch and the profile update succeeded |
| Redeemed.Placeholder | src/lib/supabase.ts:985-992 | the placeholder has the row's reward id, title 'Okänd belöning', cost 0 and the queried household |
| Redeemed.ResolveRewardAsWritten | src/lib/supabase.ts:983-992 | as written, the result is the empty array itself exactly when the join is the empty array; every other join yields a reward |
| Redeemed.EmptyJoinKeptAsWritten | src/lib/supabase.ts:983-992 | `ResolveRewardAsWritten`: an empty join array is passed on instead of the placeholder |
| Redeemed.ResolveReward | src/lib/supabase.ts:983-992 | the joined object or the first element of a non-empty join array, else the placeholder |
| Redeemed.ResolveRewardAgrees | src/lib/supabase.ts:983-992 | the corrected and the as-written snapshot agree on every join except the empty array |
| Redeemed.SnapshotNamesReward | src/lib/supabase.ts:985-992 | without a joined reward, the snapshot still names the row's reward and the queried household |
| Redeemed.ProfileFor | src/lib/supabase.ts:996-1033 | a profile error or missing profile gives the 'Användare' / 'användare@exempel.se' fallback; otherwise the fetched profile |
| Redeemed.Enhance | src/lib/supabase.ts:977-1033 | an entry keeps the row's id, reward id and user id, is stamped with the current time, and carries the reward and profile snapshots; the reward snapshot is the corrected `ResolveReward` (see Findings) |
| Redeemed.EnhanceAll | src/lib/supabase.ts:976-1063 | one entry per ledger row, in order |
| Redeemed.IdLeTotal | src/lib/supabase.ts:1066-1069 | any two ids are comparable |
| Redeemed.IdLeTrans | src/lib/supabase.ts:1066-1069 | the id order is transitive |
| Redeemed.InsertDesc | src/lib/supabase.ts:1066-1069 | insertion adds exactly the one entry |
| Redeemed.InsertDescSorted | src/lib/supabase.ts:1066-1069 | insertion keeps the descending order |
| Redeemed.SortByIdDesc | src/lib/supabase.ts:1066-1069 | the result is sorted by id, largest first, and is a permutation of the input |
| Redeemed.GetRedeemedRewards | src/lib/supabase.ts:921-1071 | an empty household id gives [] and 'Ogiltigt household_id'; errors of the two queries give [] and the error; no rewards or no ledger rows give [] with no error; otherwise the entries of all rows, sorted by id descending, with no error; entries use the corrected `ResolveReward` (see Findings) |
| Redeemed.RedeemedEntriesFromRows | src/lib/supabase.ts:976-1071 | every entry returned comes from one ledger row and is stamped with the current time |
| Redeemed.RedeemedCountMatchesLedger | src/lib/supabase.ts:976-1071 | the answer has exactly one entry per ledger row |

## Left out

- Database, auth service and RPCs. Every remote call is a reply parameter. The handlers report the writes they issue as a list of requests. What the database does with a request is not modelled. This covers the queries' own filters, such as `.in('reward_id', …)` in getRedeemedRewards.
- The creation path of `ensureUserHasHousehold` (the RPC and table fallbacks after the fast path), `updateUserProfile`, `getUserInvitations`, rejecting and leaving a household, and the mock household name in `getHouseholdInfo`. These are database round trips with no local logic worth a contract.
- The outer `try/catch` handlers that turn an unexpected exception into a generic message, and the per-item catch of getRedeemedRewards (src/lib/supabase.ts:1034-1060). Nothing in the modelled code throws there except the cases named below.
- Rewards.RewardsPage.RedeemReward: the error text is the prefix plus the reply's message. The `JSON.stringify(error) || 'Okänt fel'` fallback for an error without a message is not modelled. Atomicity and races between the debit and the insert are not claimed: they are two independent writes with no rollback.
- Rewards.RewardsPage.AddReward: `!points_cost` also rejects NaN, which the integer model cannot express.
- The rewards page's own reprocessing of fetched ledger entries, its temporary `Math.random` ids, and its progress bars and average points. These use floating point or randomness.
- Clocks: `new Date().toISOString()` is the parameter `now`. One `now` stands for every `new Date()` of a call. getRedeemedRewards reads the clock once per ledger row (src/lib/supabase.ts:1009, 1025), so its entries' timestamps may differ slightly in the source and are equal here.
- Redeemed.SortByIdDesc: `localeCompare` is replaced by code-point order on the id strings, a total order standing in for the locale's collation. Stability of the sort is not proved.
- Avatar.InitialsLength: holds only for names without 'ß'. `toUpperCase` maps 'ß' to "SS", so such a name can give three or four characters. Upper-casing is modelled for the Latin-1 range only; other letters are left as they are.
- Avatar.GetInitials: upper-casing covers the Latin-1 range only (with 'ß' to "SS"). A lower-case letter from another script stays as it is where `toUpperCase` would map it: "ğül Öz" gives "ĞÖ" in the source and "ğÖ" here. Initials take whole code points, where `charAt(0)` would take one surrogate.
- Avatar.InitialsOnePart: states the result through the same Latin-1 upper-casing, so it is exact only for first characters in that range.
- Avatar.InitialsSeveralParts: states the result through the same Latin-1 upper-casing, so it is exact only for initials in that range.
- Avatar.InitialsStartWithFirst: states the result through the same Latin-1 upper-casing, so it is exact only for a first character in that range.
- Avatar.GetBackgroundColor: characters outside the Basic Multilingual Plane count as their two UTF-16 code units, as `split('')` and `charCodeAt` see them.
- Redeemed.Enhance: builds the reward snapshot with the corrected `ResolveReward`. As written, an empty join array is passed on instead of the placeholder (see Findings).
- Redeemed.GetRedeemedRewards: its entries carry the corrected reward snapshot of `Redeemed.Enhance`, not the as-written one.
- Calendar.EventsByDay: a day outside 0..6 (the push throws) is the result None. What React does with the thrown error is not modelled. Pixel positions of events are floating point and left out.
- Calendar.GetCategoryColor: keys such as 'constructor' that an object literal inherits from `Object.prototype` are not modelled.
- Auth.AuthPage.HandleSubmit: the error shown is the auth service's message. The generic message for a non-Error exception is not modelled.
- The auth hook, redirects, the dashboard (demo data and a completion rate that is floating point), the sidebar, the invitation list component and the other UI-only files. They hold no logic beyond the modelled parts.

## Findings

| source | as written | input that shows it | evidently intended | confidence | as-written member | corrected member |
|---|---|---|---|---|---|---|
| src/lib/supabase.ts:983-992 | `Array.isArray(rewards) && rewards.length > 0 ? rewards[0] : (rewards \|\| placeholder)` | a ledger row whose joined `rewards` is the empty array `[]`: it is truthy, so `[] \|\| placeholder` yields `[]` and the entry carries an empty array instead of a reward | a reward object in every entry: the placeholder whenever no joined reward came back | medium, not executed | Redeemed.EmptyJoinKeptAsWritten | Redeemed.ResolveReward |

`Redeemed.ResolveRewardAsWritten` models the expression as written, and `Redeemed.EmptyJoinKeptAsWritten` exhibits the empty-array result. `Redeemed.ResolveReward` is the corrected snapshot that `Redeemed.Enhance` uses. `Redeemed.ResolveRewardAgrees` proves that the two differ on the empty array and on nothing else.
