# Art-collaboration app data store: a Dafny model

The app is a React Native client for artists. A `DataProvider` holds every collection the app uses: users, projects, feed posts, project chats, forum threads, saved folder views and fundraising data. Each operation reads the current snapshot, computes a new collection with `map`, `filter` and object spread, replaces the old collection, and writes the result to device storage.

This project models that store, in `context/DataContext.tsx`, as one Dafny class, `DataStore.DataProvider`:

- Every collection is a `seq` or `map` field.
- Each operation is one method, and its `ensures` ties the new state to a pure function in `StoreOps`.
- The per-user and per-project lists that the source keeps only under suffixed storage keys are `map` fields:
  - saved projects
  - a user's project ids
  - the like lists that `toggleLike` uses
- The session user (`state.user`) is its own field, `session`. Some operations refresh `currentUser` but leave the session alone, and the model keeps that difference.

Two components that sit on the store are modelled too:

- the commitment grouping and the two handlers of the fundraising panel (`components/FundraisingComponent.tsx`);
- the type toggle and the project record built by the new-project form (`components/AddProjectForm.tsx`).

Modules:

- `Wrappers`: `Option`, `Result`, `Outcome`.
- `Seqs`: the array operations (`filter`, `find`, `findIndex`, removal of an id, the include-or-append toggle).
- `Text`: `trim` with ECMAScript whitespace, and `split` on one character. `Text.Join` models nothing in the app; it only states that `split` loses nothing (`Text.SplitJoin`).
- `Entities`: the records. `Partial<T>` arguments are patches with one `Option` per field.
- `StoreOps`: the new collection values the operations compute.
- `StoreProperties`: lemmas that combine operations.
- `DataStore`: the `DataProvider` class.
- `Fundraising` and `AddProjectForm`: the two components.

Ids, timestamps and `createdAt` strings are method parameters. Amounts are integers (cents). A number the user typed arrives already parsed, with `None` standing for `NaN`.

Where the code and its description disagree, the model follows the code. Toggling participation twice restores a project only when the user was not a collaborator already. Otherwise the second toggle appends them again at the end of the list (`StoreProperties.ParticipationTwiceReorders`).

## Model

| member | source | states |
|---|---|---|
| Seqs.Without | context/DataContext.tsx:481-489 | removing an id keeps exactly the other elements; the length drops by the number of occurrences |
| Seqs.Filter | context/DataContext.tsx:634-637 | a filter keeps exactly the elements that pass, and never grows the list |
| Seqs.FindIndex | context/DataContext.tsx:782-785 | `findIndex` returns the first matching position, or none when nothing matches |
| Seqs.Find | context/DataContext.tsx:296 | `find` returns the first matching element of the list; none exactly when no element matches |
| Seqs.FindIndexAfterUpdate | context/DataContext.tsx:367-382 | an element-wise update that never changes which elements match leaves `findIndex` where it was |
| Seqs.Toggle | context/DataContext.tsx:711-714 | the include-or-append toggle flips the element's membership and leaves every other element's membership alone |
| Seqs.ToggleTwice | context/DataContext.tsx:508-517 | toggling an absent element twice gives the list back |
| Seqs.WithoutKeepsNoDup | components/AddProjectForm.tsx:23 | removing an element keeps a duplicate-free list duplicate-free |
| Seqs.AppendThenFilter | context/DataContext.tsx:836-838 | filtering out what was just appended, from a list that otherwise passes, restores the list |
| Seqs.FindAppendMiss | context/DataContext.tsx:296 | `find` on a list where only the appended element matches returns that element |
| Text.LeadingBlanks | context/DataContext.tsx:541 | counts exactly the whitespace before the first other character (all of `s` when it is blank) |
| Text.ContentEnd | context/DataContext.tsx:541 | finds where the trailing whitespace starts: only whitespace from there, a non-whitespace character just before it |
| Text.Trim | context/DataContext.tsx:541 | `trim` yields the contiguous middle of the string, bounded by non-whitespace, with only whitespace around it; it is empty exactly when the string is blank |
| Text.TrimAddsNothing | components/AddProjectForm.tsx:33 | trimming never introduces a character |
| Text.Split | components/AddProjectForm.tsx:33 | `split` on one character gives one more piece than there are separators, none containing the separator |
| Text.SplitJoin | components/AddProjectForm.tsx:33 | joining the pieces with the separator gives the input back |
| StoreOps.WithSaved | context/DataContext.tsx:384-397 | saving puts the project in the list, changes no other membership, and leaves a list that already has it unchanged |
| StoreOps.DeletedUserGone | context/DataContext.tsx:1040-1049 | after deleting a user, no remaining user has that id or follows or is followed by it, and every other user remains with the id struck |
| StoreOps.DeletedUsersProjectsGone | context/DataContext.tsx:1051-1059 | none of the deleted user's projects remain, none lists them as collaborator or liker, and every other project remains cleaned |
| StoreOps.DeletedUsersPostsGone | context/DataContext.tsx:1061-1069 | none of their posts remain, no post keeps their like or comment, and every other post remains cleaned |
| StoreOps.GoalOf | context/DataContext.tsx:1136-1138 | `goals[projectId] \|\| null`: no goal exactly when it is missing or 0, otherwise the stored goal |
| StoreOps.PrefixedSumRemove | context/DataContext.tsx:1181-1185 | summing the prefixed entries does not depend on the order the keys are taken in |
| DataStore.DataProvider.constructor | context/DataContext.tsx:171-185 | the store starts with every collection empty and nobody signed in |
| DataStore.DataProvider.Login | context/DataContext.tsx:294-312 | login succeeds exactly when some user has the username, sets both the current user and the session to the first such user, and ignores the password; on failure it says "Login failed" and changes nothing |
| DataStore.DataProvider.Register | context/DataContext.tsx:314-350 | fails with "Registration failed", leaving the users alone, exactly when the username is taken; otherwise appends exactly one default user and signs them in |
| DataStore.DataProvider.Logout | context/DataContext.tsx:352-365 | clears the current user and the session |
| DataStore.DataProvider.UpdateUserProfile | context/DataContext.tsx:367-382 | patches every user with the id, and the current-user snapshot only when it is that user |
| DataStore.DataProvider.FollowUser | context/DataContext.tsx:438-471 | applies the follow to every user, refreshes the current user when they are the follower, and keeps the follow lists in step when the two ids differ |
| DataStore.DataProvider.UnfollowUser | context/DataContext.tsx:473-506 | applies the unfollow, refreshes the follower's snapshot and keeps the follow lists in step when the two ids differ |
| DataStore.DataProvider.GetAllUsers | context/DataContext.tsx:419-436 | `getAllUsers` and `getCreatedUsers` both return exactly the users |
| DataStore.DataProvider.GetSavedProjects | context/DataContext.tsx:399-407 | the user's stored list as it is, or no saved projects when there is none |
| DataStore.DataProvider.SaveProject | context/DataContext.tsx:384-397 | appends the project to the user's saved list unless it is there, so it is saved afterwards |
| DataStore.DataProvider.GetLikes | context/DataContext.tsx:519-527 | the project's stored like list as it is, or no likes when there is none |
| DataStore.DataProvider.ToggleLike | context/DataContext.tsx:508-517 | flips the user's membership of the project's stored like list |
| DataStore.DataProvider.UpdateProject | context/DataContext.tsx:409-418 | every project with the given project's id is replaced by it |
| DataStore.DataProvider.AddProject | context/DataContext.tsx:612-632 | appends the draft under the new id with no likes, and appends the id to the signed-in user's project list |
| DataStore.DataProvider.DeleteProject | context/DataContext.tsx:634-650 | removes every project with the id, and the id from the signed-in user's project list |
| DataStore.DataProvider.LikeProject | context/DataContext.tsx:652-663 | appends the user to the likes of the projects with that id |
| DataStore.DataProvider.UnlikeProject | context/DataContext.tsx:665-676 | removes every like of the user from the projects with that id |
| DataStore.DataProvider.GetLikedProjects | context/DataContext.tsx:678-680 | exactly the projects the user likes |
| DataStore.DataProvider.GetUserCreatedProjects | context/DataContext.tsx:682-694 | exactly the projects the user created |
| DataStore.DataProvider.GetProjectById | context/DataContext.tsx:696-704 | a project with that id, or none exactly when no project has it |
| DataStore.DataProvider.ToggleProjectParticipation | context/DataContext.tsx:706-743 | flips the user's participation in the project, then every user record with that id counts exactly the projects listing them as collaborator |
| DataStore.DataProvider.EditProject | context/DataContext.tsx:780-815 | fails with "Failed to edit project", changing nothing, exactly when no project has the id; otherwise only the first such project changes, its files are old followed by new, and the id joins the creator's project list when the creator is signed in |
| DataStore.DataProvider.CreateFolderView | context/DataContext.tsx:745-754 | appends the view |
| DataStore.DataProvider.DeleteFolderView | context/DataContext.tsx:756-765 | removes every view with the id |
| DataStore.DataProvider.UpdateFolderView | context/DataContext.tsx:767-778 | replaces every view with the same id |
| DataStore.DataProvider.AddPost | context/DataContext.tsx:529-556 | changes nothing when content and subject are both blank after trimming; otherwise appends the post and its id to the author's posts |
| DataStore.DataProvider.DeletePost | context/DataContext.tsx:558-576 | removes every post with the id and, when one existed, the id from its author's posts |
| DataStore.DataProvider.LikePost | context/DataContext.tsx:578-589 | appends the like to the posts with that id |
| DataStore.DataProvider.UnlikePost | context/DataContext.tsx:591-602 | removes every like of the user from the posts with that id |
| DataStore.DataProvider.GetUserPosts | context/DataContext.tsx:604-606 | exactly the user's posts |
| DataStore.DataProvider.GetProjectPosts | context/DataContext.tsx:608-610 | exactly the project's posts |
| DataStore.DataProvider.AddUserPostComment | context/DataContext.tsx:984-1012 | appends the flagged comment to the posts with that id |
| DataStore.DataProvider.DeleteUserPostComment | context/DataContext.tsx:1014-1032 | removes the comment with that id from the posts with that id |
| DataStore.DataProvider.AddChat | context/DataContext.tsx:817-833 | appends the chat message |
| DataStore.DataProvider.DeleteChat | context/DataContext.tsx:835-844 | removes every chat with the id |
| DataStore.DataProvider.GetProjectChats | context/DataContext.tsx:846-853 | exactly the project's chats |
| DataStore.DataProvider.GetForumPosts | context/DataContext.tsx:856-863 | exactly the project's forum threads |
| DataStore.DataProvider.AddForumPost | context/DataContext.tsx:865-890 | appends a thread with no comments |
| DataStore.DataProvider.UpdateForumPost | context/DataContext.tsx:892-901 | patches every thread with the id |
| DataStore.DataProvider.DeleteForumPost | context/DataContext.tsx:903-912 | removes every thread with the id |
| DataStore.DataProvider.AddForumComment | context/DataContext.tsx:914-952 | fails, changing nothing, exactly when no thread has the id; otherwise appends one comment flagged from the thread and the project |
| DataStore.DataProvider.UpdateForumComment | context/DataContext.tsx:954-968 | replaces the content of the comment with that id in every thread |
| DataStore.DataProvider.DeleteForumComment | context/DataContext.tsx:970-982 | removes the comment with that id from every thread |
| DataStore.DataProvider.DeleteUserProfile | context/DataContext.tsx:1034-1099 | fails, changing nothing, exactly when no user has the id; otherwise removes their users, projects and posts and their traces, drops their stored lists, signs them out if they are current, and keeps the follow lists in step |
| DataStore.DataProvider.ForgetUser | context/DataContext.tsx:1040-1092 | the users, projects and posts become exactly their cleaned-up versions, the user's stored lists are dropped, and the session is cleared only when it is that user |
| DataStore.DataProvider.SetProjectFundraisingGoal | context/DataContext.tsx:1122-1134 | records the goal and copies it onto the projects with that id |
| DataStore.DataProvider.GetProjectFundraisingGoal | context/DataContext.tsx:1136-1138 | no goal exactly when it is missing or 0, otherwise the stored goal |
| DataStore.DataProvider.GetUserTotalContribution | context/DataContext.tsx:1176-1179 | the running total for the pair, or 0 when there is none |
| DataStore.DataProvider.GetProjectCommitments | context/DataContext.tsx:1187-1189 | the project's ledger, or empty |
| DataStore.DataProvider.AddUserContribution | context/DataContext.tsx:1140-1174 | raises the pair's running total and the project's summed totals by the amount, appends exactly one commitment to the project's ledger and record, and keeps the pair's total and ledger sum in step |
| DataStore.DataProvider.GetProjectTotalContributions | context/DataContext.tsx:1181-1185 | the sum of the running totals whose key starts with the project id and "_" |
| StoreProperties.FollowKeepsMirrored | context/DataContext.tsx:438-454 | following someone else keeps every follow recorded on both sides |
| StoreProperties.UnfollowKeepsMirrored | context/DataContext.tsx:473-489 | unfollowing someone else keeps every follow recorded on both sides |
| StoreProperties.FollowLinks | context/DataContext.tsx:440-453 | the follower gains the followee, the followee gains the follower, and every other user is unchanged |
| StoreProperties.SelfFollowGrowsFollowingOnly | context/DataContext.tsx:440-453 | because the follower branch comes first, a self-follow adds the id to the user's `following` only, keeps their `followers` and leaves every other user unchanged |
| StoreProperties.SelfFollowBreaksMirror | context/DataContext.tsx:440-453 | so a self-follow by any user not already listed among their own followers leaves the follow lists out of step |
| StoreProperties.FollowThenUnfollow | context/DataContext.tsx:438-489 | unfollowing after following removes both links |
| StoreProperties.DeleteKeepsMirrored | context/DataContext.tsx:1040-1049 | deleting a user keeps the remaining follow lists in step |
| StoreProperties.LikeThenUnlikeProject | context/DataContext.tsx:652-676 | like then unlike on a project not yet liked restores every project |
| StoreProperties.LikeProjectTwice | context/DataContext.tsx:654-656 | liking twice records two likes |
| StoreProperties.LikeThenUnlikePost | context/DataContext.tsx:578-602 | like then unlike on a post not yet liked restores every post |
| StoreProperties.SaveIdempotent | context/DataContext.tsx:384-397 | saving twice is saving once, and a saved list never lists a project twice |
| StoreProperties.ParticipationTwice | context/DataContext.tsx:708-716 | toggling participation twice restores a project the user had not joined |
| StoreProperties.ParticipationTwiceReorders | context/DataContext.tsx:711-714 | a member toggled twice ends up last: `["u","v"]` becomes `["v","u"]` |
| StoreProperties.JoinedCountAfterToggle | context/DataContext.tsx:722-727 | with distinct ids, the user's joined count goes up by one when they join and down by one when they leave |
| StoreProperties.UntouchedCount | context/DataContext.tsx:708-718 | toggling an id no project has changes nothing |
| StoreProperties.EditWithNothing | context/DataContext.tsx:788-792 | an empty patch edits nothing |
| StoreProperties.EditTwice | context/DataContext.tsx:788-792 | editing twice only repeats the appended files |
| StoreProperties.EditWithoutFilesIdempotent | context/DataContext.tsx:788-792 | a patch without files is idempotent |
| StoreProperties.EditOverwrites | context/DataContext.tsx:788-792 | every field the patch supplies overwrites and every other field is kept, except the files, which are the old ones followed by the supplied ones |
| StoreProperties.UserPatchOverwrites | context/DataContext.tsx:367-382 | the profile patch overwrites exactly the fields it supplies and keeps the rest |
| StoreProperties.UpdateUserThenGet | context/DataContext.tsx:367-382 | with a patch that keeps the id, the users keep their number, users with other ids are untouched, and looking the user up finds their patched record |
| StoreProperties.ForumPostPatchOverwrites | context/DataContext.tsx:892-901 | the thread patch overwrites exactly the fields it supplies and keeps the rest |
| StoreProperties.UpdateForumPostThenGet | context/DataContext.tsx:892-901 | with a patch that keeps the id, the threads keep their number, other threads are untouched, and looking the thread up finds its patched version |
| StoreProperties.UpdateFolderViewThenGet | context/DataContext.tsx:767-778 | the views keep their number, views with other ids are untouched, and looking the id up finds the new view whenever one had it |
| StoreProperties.UpdateForumCommentThenGet | context/DataContext.tsx:954-968 | every thread keeps everything but its comments and their number, and looking the comment up finds it with the new content |
| StoreProperties.AddThenDeleteProject | context/DataContext.tsx:612-637 | adding then deleting a project with a fresh id restores the projects |
| StoreProperties.AddThenDeletePost | context/DataContext.tsx:529-576 | adding then deleting a post with a fresh id restores the posts and the author's post list |
| StoreProperties.AddThenDeleteChat | context/DataContext.tsx:817-844 | adding then deleting a chat with a fresh id restores the chats |
| StoreProperties.AddThenDeleteFolderView | context/DataContext.tsx:745-765 | adding then deleting a view with a fresh id restores the views |
| StoreProperties.AddThenDeleteForumPost | context/DataContext.tsx:865-912 | adding then deleting a thread with a fresh id restores the threads |
| StoreProperties.AddThenDeleteForumComment | context/DataContext.tsx:914-982 | adding then deleting a comment with a fresh id restores every thread |
| StoreProperties.AddThenDeletePostComment | context/DataContext.tsx:984-1032 | adding then deleting a feed comment with a fresh id restores every post |
| StoreProperties.BlankPostRefused | context/DataContext.tsx:541 | a post whose content and subject are both blank is refused |
| StoreProperties.CommentFlags | context/DataContext.tsx:938-939 | a forum comment is OP exactly when the commenter started the thread, and is marked project creator exactly when the project is known and they created it; a feed comment is never marked project creator |
| StoreProperties.RegisterThenLogin | context/DataContext.tsx:294-350 | a user who has just registered is the one login finds by name |
| StoreProperties.NewUserIsEmpty | context/DataContext.tsx:319-333 | a new user starts with no follows, no posts and no joined projects |
| StoreProperties.UpdateThenGet | context/DataContext.tsx:409-418 | after `updateProject`, looking the project up returns the new version |
| StoreProperties.SetThenGetGoal | context/DataContext.tsx:1122-1138 | a saved goal reads back, except that 0 reads as none |
| StoreProperties.PrefixedSumFrame | context/DataContext.tsx:1181-1185 | keys outside the summed set do not change the sum |
| StoreProperties.ContributionRaisesProjectTotal | context/DataContext.tsx:1140-1146 | a contribution raises a prefixed sum by its amount exactly when its key has that prefix |
| StoreProperties.KeyHasProjectPrefix | context/DataContext.tsx:1142 | a key starts with its project's prefix |
| StoreProperties.KeysCanCollide | context/DataContext.tsx:1142 | two different pairs can share a key |
| StoreProperties.OtherPairStaysInStep | context/DataContext.tsx:1140-1165 | a pair whose key is not shared keeps its running total equal to its ledger sum across another pair's contribution |
| Fundraising.Contributors | components/FundraisingComponent.tsx:25-29 | the grouping keys: each contributor exactly once |
| Fundraising.FirstCommitment | components/FundraisingComponent.tsx:32 | the position of a user's first commitment |
| Fundraising.UsernameOf | components/FundraisingComponent.tsx:32 | the username on the user's first commitment, or "Unknown User" when it is missing or empty |
| Fundraising.FirstIsFound | components/FundraisingComponent.tsx:32 | `find` lands on the user's first commitment |
| Fundraising.FirstIndexIsFirstCommitment | components/FundraisingComponent.tsx:32 | `findIndex` for a user is the position of their first commitment |
| Fundraising.CumulativeCommitments | components/FundraisingComponent.tsx:24-35 | one row per distinct contributor, in first-appearance order, with the sum of their amounts and their name; the rows add up to the sum of all commitments |
| Fundraising.GroupAmounts | components/FundraisingComponent.tsx:25-29 | the `forEach` loop builds exactly the one-commitment-at-a-time map, which holds each contributor once in first-appearance order with the sum of their amounts |
| Fundraising.TallyIsGrouped | components/FundraisingComponent.tsx:25-29 | the map built one commitment at a time has exactly the contributors as keys, in first-appearance order, each with the sum of their amounts |
| Fundraising.RowsFromTotals | components/FundraisingComponent.tsx:30-40 | rows built from the finished map carry each user's sum, and their total is the sum of all commitments |
| Fundraising.NotCommittedSumsToZero | components/FundraisingComponent.tsx:27 | a user with no commitment has committed 0 |
| Fundraising.RowsSum | components/FundraisingComponent.tsx:37-40 | `totalCommitted` over the rows is the sum of their users' committed amounts |
| Fundraising.SumCommittedAppend | components/FundraisingComponent.tsx:26-29 | a new commitment adds its amount to the sum over a duplicate-free user list exactly when its author is listed |
| Fundraising.GroupingKeepsTotal | components/FundraisingComponent.tsx:24-40 | grouping by user loses no money |
| Fundraising.ContributorsInFirstOrder | components/FundraisingComponent.tsx:30 | the rows come in the order of each user's first commitment |
| Fundraising.FirstOrderStep | components/FundraisingComponent.tsx:26-30 | one more commitment keeps the keys in order of first commitment |
| Fundraising.FirstCommitmentExtends | components/FundraisingComponent.tsx:30 | a later commitment does not change a user's first position |
| Fundraising.Remaining | components/FundraisingComponent.tsx:42-43 | the remaining amount is the larger of 0 and goal minus total, with a missing goal counting as 0 |
| Fundraising.Progress | components/FundraisingComponent.tsx:44 | progress is 0 unless the goal is positive, otherwise total over goal as a percentage |
| Fundraising.ReachedGoal | components/FundraisingComponent.tsx:42-44 | with a positive goal, nothing remains exactly when progress is at least 100 |
| Fundraising.CommitmentList | components/FundraisingComponent.tsx:62-82 | refused without a user or with an amount that is not a positive number; otherwise the old commitments with exactly one appended for the user, raising their sum and the total by the amount and nobody else's |
| Fundraising.ReplaceAfterEdit | components/FundraisingComponent.tsx:85-86 | after the edit, `updateProject` with the panel's copy leaves that copy in the store |
| Fundraising.FirstMatchIsFound | context/DataContext.tsx:782 | the first position with the id is the project `find` returns |
| Fundraising.HandleCommitment | components/FundraisingComponent.tsx:62-93 | changes nothing without a user, with a bad amount, or when the project is gone; otherwise the store holds the panel's copy with the new list |
| Fundraising.GoalFromInput | components/FundraisingComponent.tsx:49 | an unparseable goal becomes 0 |
| Fundraising.HandleSaveFundraisingGoal | components/FundraisingComponent.tsx:46-60 | changes nothing unless the signed-in user created the project and it is still stored; otherwise the store holds the panel's copy with the new goal |
| AddProjectForm.ToggleProjectType | components/AddProjectForm.tsx:22-24 | a selected type is dropped and an unselected one goes last, leaving every other type's membership alone |
| AddProjectForm.CountPositive | components/AddProjectForm.tsx:23 | an element occurs exactly when its count is positive |
| AddProjectForm.ToggleTwiceRestores | components/AddProjectForm.tsx:22-24 | toggling an unselected type twice restores the selection |
| AddProjectForm.ToggleKeepsNoDup | components/AddProjectForm.tsx:23 | toggling never selects a type twice |
| AddProjectForm.TrimmedPieceIsClean | components/AddProjectForm.tsx:33 | trimming a comma-free piece leaves no comma and no whitespace at either end |
| AddProjectForm.SplitTags | components/AddProjectForm.tsx:33 | each tag is the trimmed piece between commas, one more than there are commas, and no tag has a comma or surrounding whitespace |
| AddProjectForm.EmptyTagInput | components/AddProjectForm.tsx:33 | an empty tag field gives one empty tag |
| AddProjectForm.NewProjectDraft | components/AddProjectForm.tsx:26-39 | a record is built exactly when title, description, a type and a signed-in user are all present; the primary type and the additional types together are the selection, and the creator and an empty collaborator list come from the form |
| AddProjectForm.HandleSubmit | components/AddProjectForm.tsx:26-49 | a complete form adds exactly one project, with no likes, for the store's current user; an incomplete one changes nothing |

## Left out

- Device storage. The model leaves out reading and writing storage, JSON encoding and the `load*` functions. Only the in-memory state is modelled, and the per-key lists are `map` fields.
- React plumbing. The model leaves out the context, `useState`, `useEffect`, the loading flag, the provider and `useData`. The panel's and the form's input state are method parameters.
- Id and time generation. Ids, timestamps and ISO dates are parameters. `addPost`, `addChat`, `addForumPost` and the comment operations call `Date.now()` once for the id and again for the timestamp, so the two are independent parameters that may differ.
- Async interleaving. Each operation is one atomic step. Lost updates between `await` points are not modelled.
- Error messages. Wrapped messages and console logging are left out. A failure is an `Outcome` or `Result` carrying the outer message. Storage failures cannot happen in the model.
- Alerts. The panel's alerts and closing the form are left out. The handlers return which case they took.
- Floating point. The model leaves out `parseFloat`, `toFixed` and the percentage of each row. `Progress` is exact, not floating point.
- Storage reads. `DataStore.DataProvider.GetUserCreatedProjects` filters the in-memory projects, while the source reads storage. `setProjectFundraisingGoal` and `addUserContribution` do not write the projects to storage, so a storage read would miss their changes. The model does not capture that difference.
- `PROJECT_TYPES` in components/AddProjectForm.tsx is only used for rendering.
- JavaScript spread. In the model a `Partial<T>` field that is absent keeps the old value. A field present with the value `undefined` is not modelled.
- `DataStore.DataProvider.GetProjectTotalContributions`: `PrefixedSum` is the sum of the entries, in whatever order the keys are taken. The order-dependence of floating-point addition is left out.
