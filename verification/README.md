# BUTEX Debating Club LMS: access rules and record lifecycle

This project models the core of the club's learning site in Dafny:

- **The FastAPI server** (`backend/server.py`).
  - Sign-up and login, the one-time setup, and the three access guards: `get_current_user`, `require_admin` and `require_approved`.
  - Admin user management.
  - Course and module CRUD behind the approval and mentorship gates.
  - The progress upsert, the public content collections (leadership, announcements, success events, homepage sections, coach info) and the admin analytics.
  - Users, courses, modules, leadership members, announcements and success events are soft-deleted through an `archived` flag. Progress records are never deleted. The coach record and the setup flag are replaced outright (`delete_many`, then insert), and homepage sections are upserted. Setup is the exception: it replaces the homepage sections and the leadership members outright, together with the coach record. The user approve, mentorship and archive routes, and the update and archive routes of courses, modules, leadership members, announcements and success events, report "not found" when `modified_count` is 0. The login stamp, the progress update, both reorder loops and the homepage upsert never check it, so those writes never fail once the handler's own checks pass.
- **The React client's gating and list logic.**
  - The route table and its three wrappers (`App.js`).
  - The session state (`AuthContext.js`).
  - The student dashboard's approval gate and mentorship filter.
  - The admin users page's filter and buttons.
  - The module player's lookups, completion toggle and "next module" navigation.
  - The course page's load and its 403 redirect.

The store is one immutable `State` value. Each MongoDB collection is a sequence of documents in natural order, so `find_one` and `update_one` act on the first match, exactly as they do in the server. Every handler is a pure function from the store, the caller's token and the request to a `Result`: an `HTTPException` is a `Failure(HttpError(code, detail))` with the server's status code and detail text.

Files, in dependency order:

- `wrappers.dfy`: `Option`, `Result`.
- `lists.dfy`: filter, first index, the `to_list(n)` cap, subsequences, counting.
- `ordering.dfy`: the sort keys of `.sort(...)` and an insertion sort.
- `store.dfy`: documents and the store.
- `docs.dfy`: lookup by id, `update_one` with the 404 test, sorted capped listings, the reorder loop.
- `guards.dfy`: the three guards.
- `auth.dfy`, `user_admin.dfy`, `catalog.dfy`, `progress.dfy`, `content.dfy`, `analytics.dfy`: the routes.
- `invariants.dfy`: the store invariants and the proof that every write keeps them.
- `lifecycle.dfy`: how writes show through the read routes.
- `auth_context.dfy`, `routing.dfy`, `dashboard.dfy`, `users_page.dfy`, `module_player.dfy`, `course_detail.dfy`: the client.

Where the code and the written design disagree, the model follows the code:

- `GET /progress` needs only a valid token, not an approved account (server.py:733).
- Archiving a user sets a flag. Status stays "pending" or "approved". The guards never look at the flag, so an archived user keeps every access they had (`Lifecycle.ArchivedUserKeepsAccess`).
- Approval does not check the archived flag.
- An archived user's email stays taken for sign-up, because the email lookup does not filter on `archived`.
- `GET /courses` and `GET /courses/{id}` are public and return mentorship courses too. Only the module list is gated on mentorship, and the dashboard hides mentorship courses on the client side.
- `GET /courses/{id}/modules` looks the course up without the archived filter, so an archived course's modules stay readable (`Lifecycle.ArchivedCourseIsHidden`).

## Model

| member | source | states |
|---|---|---|
| Lists.Filter | backend/server.py:515 | a query keeps exactly the matching documents: each element's multiplicity is its multiplicity in the collection when it matches and 0 otherwise |
| Lists.FirstIndex | backend/server.py:218 | `find_one` picks the first match: no earlier element matches, and there is none only when nothing matches |
| Lists.Take | backend/server.py:515 | `to_list(n)` returns a prefix of length min(size, n) |
| Lists.FilterIsSubsequence | frontend/src/pages/StudentDashboard.js:32 | a filter keeps the relative order of what it keeps |
| Lists.CountSplit | backend/server.py:910-911 | two disjoint queries that together make up a third have counts that add up to the third's count |
| Lists.CountMonotone | backend/server.py:912-919 | a narrower query never counts more |
| Ordering.StrLeTotal | backend/server.py:773 | the code-point order on ISO timestamps is total |
| Ordering.StrLeTrans | backend/server.py:773 | the code-point order on ISO timestamps is transitive |
| Ordering.InsertKeepsSorted | backend/server.py:609 | inserting into a sorted list keeps it sorted |
| Ordering.Sort | backend/server.py:609 | `.sort(...)` returns a sorted permutation of its input |
| Docs.IndexOfId | backend/server.py:218 | `find_one({"id": ...})` returns the first document with the id, and none exactly when no document has it |
| Docs.IndexOfDistinct | backend/server.py:218 | with distinct ids, every document is the one its own id finds |
| Docs.IndexOfIdExtend | backend/server.py:261 | an insert (append) does not change which document an existing id finds |
| Docs.UpdateOne | backend/server.py:520-525 | the update fails exactly when no document has the id or the patch changes nothing; otherwise only the first document with the id changes |
| Docs.Listing | backend/server.py:609 | a list query returns min(matches, 1000) matching documents, sorted; all of them when they fit; anything cut off sorts no earlier than what is returned |
| Docs.Reorder | backend/server.py:721-728 | the reorder loop keeps every document's id, flag and creation time, and leaves documents no item names untouched |
| Docs.ReorderAppliesLast | backend/server.py:721-728 | with distinct ids, a named document ends with the order number of the last item naming it |
| Docs.LiveListing | backend/server.py:609 | a live listing returns only live documents of the collection, all of them with their multiplicities when they fit in the cap |
| Guards.CurrentUser | backend/server.py:207-220 | 401 "Invalid token" for an unknown token, 401 "User not found" when its user id is absent; otherwise the first user with the token's id, archived or not |
| Guards.RequireAdmin | backend/server.py:222-225 | passes exactly when the caller resolves and has the admin role; otherwise the caller's 401 or 403 "Admin access required" |
| Guards.RequireApproved | backend/server.py:227-230 | passes exactly when the caller resolves and is approved; otherwise the caller's 401 or 403 "Account approval required" |
| Guards.AdminStable | backend/server.py:222-225 | a write that keeps every user's id and role at its position does not change who passes the admin guard |
| Auth.View | backend/server.py:266-276 | the response carries the user's id, email and mentorship flag, and role and status as "admin", "approved" or "pending" exactly when the stored values are |
| Auth.IndexOfEmail | backend/server.py:241 | the email lookup finds the first user with the email, archived users included |
| Auth.Signup | backend/server.py:238-278 | fails with 400 exactly when some user has the email; otherwise appends a pending, non-admin, non-mentorship user with the request's name, email, batch and reason and the given password hash, whose `last_login` and `created_at` come from two separate clock reads, and adds exactly one token, which resolves to that user, so every earlier token keeps resolving; nothing else changes |
| Auth.Login | backend/server.py:281-309 | succeeds exactly when a user has the email and the password verifies against that user's hash, else 401 "Invalid credentials"; the first user with that user's id gets `last_login` from the first clock read and no other user changes; exactly one token is added, resolving to that user; the response shows that user with `last_login` from the second clock read, which need not equal the stored one |
| Auth.SignupThenLogin | backend/server.py:238-309 | right after sign-up, logging in with the same email and a password that verifies against the stored hash succeeds, and the new token resolves to the new user |
| Auth.RefreshLogin | backend/server.py:288-291 | the first user with the id, and no other, gets `last_login` = now; nothing changes when no user has the id; the id set is kept |
| Auth.GetMe | backend/server.py:311-313 | returns the caller's view exactly when the token resolves, otherwise the guard's error |
| Auth.Initialize | backend/server.py:324-375 | 400 once setup is complete; 400 when the email is taken; otherwise appends an approved admin with mentorship, with the request's name and email, the given password hash and no batch or reason, whose `last_login` and `created_at` come from two separate clock reads, and whose view is the response; adds exactly one token for it, replaces homepage, leadership and coach, appends the default courses and modules, and sets the setup flag |
| Auth.SetupStatus | backend/server.py:317-322 | setup is reported complete exactly when an initialize request would be refused with 400 "System already initialized" |
| Auth.InitializeOnlyOnce | backend/server.py:326-329 | after a successful setup every further setup request fails with 400, whatever its payload |
| UserAdmin.UserQuery | backend/server.py:509-513 | the query never selects an archived user; an empty status filter is ignored; "pending" and "approved" select the live users with that stored status, and any other status value selects no one; a mentorship filter keeps only users with that flag |
| UserAdmin.ListUsers | backend/server.py:503-516 | admins only; returns the first min(matches, 1000) non-archived users that match the optional status (ignored when empty) and mentorship filters, in store order |
| UserAdmin.ApproveUser | backend/server.py:518-526 | admins only; succeeds exactly when the user exists and is not yet approved, else 404; only that user's status changes |
| UserAdmin.SetMentorship | backend/server.py:528-536 | admins only; succeeds exactly when the user exists and the flag differs from `grant`, else 404; only that flag changes |
| UserAdmin.ArchiveUser | backend/server.py:538-546 | admins only; succeeds exactly when the user exists and is not archived, else 404; only the archived flag changes |
| UserAdmin.ApproveTwiceFails | backend/server.py:520-525 | approving the same user a second time returns 404 |
| UserAdmin.ArchiveTwiceFails | backend/server.py:540-545 | archiving the same user a second time returns 404, and archiving leaves every profile unchanged |
| Catalog.ListCourses | backend/server.py:607-610 | the public course list is the live courses, all of them when they fit in the cap, by ascending order number |
| Catalog.GetCourse | backend/server.py:612-617 | succeeds exactly when a live course has the id, returning one; else 404 "Course not found" |
| Catalog.CreateCourse | backend/server.py:619-632 | admins only; always succeeds for an admin and appends exactly the new live course |
| Catalog.UpdateCourse | backend/server.py:634-650 | admins only; 404 when the id is missing or the fields are unchanged; otherwise replaces exactly that course's fields |
| Catalog.ArchiveCourse | backend/server.py:652-660 | admins only; 404 when the id is missing or the course is already archived; otherwise sets exactly that course's flag |
| Catalog.ListModules | backend/server.py:664-675 | approved callers only; 404 for an unknown course id (archived courses included); 403 "Mentorship access required" exactly for a mentorship course and a caller without the flag; otherwise the course's live modules by ascending order number |
| Catalog.CourseModules | backend/server.py:674 | the module query returns the course's live modules, sorted, and all of them when they fit |
| Catalog.CreateModule | backend/server.py:677-691 | admins only; appends exactly the new live module, its course id unchecked |
| Catalog.UpdateModule | backend/server.py:693-709 | admins only; replaces every field but the course id; 404 when the id is missing or nothing changes |
| Catalog.ArchiveModule | backend/server.py:711-719 | admins only; 404 when missing or already archived; otherwise sets exactly that module's flag |
| Catalog.ReorderModules | backend/server.py:721-728 | admins only; never fails for an admin; unnamed modules are unchanged and, with distinct ids, each named module gets the order of the last item naming it |
| ProgressApi.IndexOfPair | backend/server.py:740-743 | the lookup finds the first record for the (user, module) pair |
| ProgressApi.GetProgress | backend/server.py:732-735 | needs only a resolving token; returns the first min(count, 1000) of the caller's records in store order, and when they fit, each of the caller's records with its multiplicity and nothing else |
| ProgressApi.OverwriteHitsFoundRecord | backend/server.py:739-754 | with distinct record ids, the `update_one` on the found record's id writes that record and no other, which is the record the upsert overwrites |
| ProgressApi.Upsert | backend/server.py:740-767 | overwrites the pair's record or appends a new one; the written record has the requested flag and a completion time exactly when completed; other pairs' records are unchanged |
| ProgressApi.UpsertKeepsInvariants | backend/server.py:740-767 | the upsert never creates a second record for a pair and keeps `completed_at` set exactly on completed records |
| ProgressApi.UpdateProgress | backend/server.py:737-767 | approved callers only; always succeeds for them; the stored record for (caller, module) is the returned one, and the invariants above are kept |
| Content.ListLeadership | backend/server.py:550-553 | the live members, all of them when they fit, by ascending order number |
| Content.CreateLeader | backend/server.py:555-567 | admins only; appends exactly the new live member |
| Content.UpdateLeader | backend/server.py:569-584 | admins only; 404 "Member not found" when missing or unchanged; otherwise replaces exactly that member's fields |
| Content.ArchiveLeader | backend/server.py:586-594 | admins only; 404 when missing or already archived; otherwise sets exactly that flag |
| Content.ReorderLeadership | backend/server.py:596-603 | admins only; never fails for an admin; with distinct ids each named member gets the last order given for it, and the others are unchanged |
| Content.ListAnnouncements | backend/server.py:771-774 | the live announcements, all of them when they fit, newest `created_at` first |
| Content.CreateAnnouncement | backend/server.py:776-787 | admins only; appends exactly the new live announcement |
| Content.UpdateAnnouncement | backend/server.py:789-803 | admins only; 404 "Announcement not found" when missing or unchanged; otherwise replaces exactly its fields |
| Content.ArchiveAnnouncement | backend/server.py:805-813 | admins only; 404 when missing or already archived; otherwise sets exactly that flag |
| Content.ListEvents | backend/server.py:817-820 | the live success events, all of them when they fit, latest `date` first |
| Content.CreateEvent | backend/server.py:822-834 | admins only; appends exactly the new live event |
| Content.UpdateEvent | backend/server.py:836-851 | admins only; 404 "Event not found" when missing or unchanged; otherwise replaces exactly its fields |
| Content.ArchiveEvent | backend/server.py:853-861 | admins only; 404 when missing or already archived; otherwise sets exactly that flag |
| Content.UpdateSection | backend/server.py:870-882 | admins only; an upsert that never fails for an admin: the section holds the new content and time, the other sections are unchanged, and the key set gains at most that section |
| Content.GetCoach | backend/server.py:886-891 | returns the stored coach record, or 404 "Coach info not found" exactly when there is none |
| Content.ReplaceCoach | backend/server.py:893-904 | admins only; the coach record becomes exactly the new one and nothing else changes |
| Content.ReplaceThenGetCoach | backend/server.py:886-904 | after an admin replaces the coach record, `GET /coach-info` returns the record sent, stamped with the write's time as `updated_at` |
| Analytics.LiveModules | backend/server.py:926 | the first min(count, 1000) of the course's live modules in store order, and every one of them when they fit |
| Analytics.LiveModulesDistinct | backend/server.py:926-927 | with distinct module ids the modules read for a course have distinct ids, so `total_modules` is the number of module ids queried |
| Analytics.StatOf | backend/server.py:925-948 | a course has an entry exactly when it has live modules; `enrolled` counts distinct users with a record on those modules, and `completed` (never above `enrolled`) counts those whose completed records number as many as the modules |
| Analytics.CourseStats | backend/server.py:923-948 | no more entries than courses, each with completed <= enrolled |
| Analytics.CourseStatsComplete | backend/server.py:923-948 | an entry is in the list exactly when some listed course produces it |
| Analytics.GetAnalytics | backend/server.py:908-959 | admins only; the total, approved, pending, mentorship and active counts are the numbers of non-archived users overall, with each status, with mentorship access, and logged in since the cutoff; approved + pending = total; `course_stats` holds exactly the entries of the first 1000 live courses |
| Analytics.DoneModules | backend/server.py:935-940 | the set of modules the user holds a completed record for, a subset of the course's modules |
| Analytics.CountIsDoneModules | backend/server.py:935-940 | with one record per (user, module) pair, the completed-record count is the number of distinct completed modules |
| Analytics.FinisherMeansAllDone | backend/server.py:933-941 | with one record per pair and distinct module ids, a user counts as completed exactly when they hold a completed record for every module of the course |
| Analytics.StatCountsFullCompletions | backend/server.py:926-944 | with one record per pair and distinct module ids, a course's `completed` figure is the number of enrolled users holding a completed record for every module the course query returned |
| Invariants.Step | backend/server.py:238-904 | the dispatcher over every write route; the setup flag changes only through a successful setup request |
| Invariants.SignupKeepsValid | backend/server.py:238-261 | sign-up keeps ids and emails unique and every token resolving |
| Invariants.LoginKeepsValid | backend/server.py:281-297 | login keeps the store invariants |
| Invariants.InitializeKeepsValid | backend/server.py:324-358 | setup keeps the store invariants when its default content has fresh ids |
| Invariants.UserAdminKeepsValid | backend/server.py:518-546 | approve, mentorship and archive keep the store invariants |
| Invariants.CoursesKeepValid | backend/server.py:619-660 | course writes keep course ids distinct |
| Invariants.ModulesKeepValid | backend/server.py:677-728 | module writes and the reorder keep module ids distinct |
| Invariants.LeadershipKeepsValid | backend/server.py:555-603 | leadership writes keep member ids distinct |
| Invariants.AnnouncementsKeepValid | backend/server.py:776-813 | announcement writes keep ids distinct |
| Invariants.EventsKeepValid | backend/server.py:822-861 | success-event writes keep ids distinct |
| Invariants.SingletonsKeepValid | backend/server.py:737-767 | the progress upsert, homepage and coach writes keep the store invariants |
| Invariants.StepKeepsValid | backend/server.py:238-904 | every successful write request keeps the store invariants: unique ids per collection, unique emails, resolving tokens, one progress record per pair, completion times exactly on completed records |
| Lifecycle.CreatedCourseIsListed | backend/server.py:607-632 | an admin's course creation succeeds; the new course is then found by id and, when fewer than 1000 live courses existed, appears in the public list |
| Lifecycle.ArchivedCourseIsHidden | backend/server.py:607-675 | after archiving, the course is in no list and `GET /courses/{id}` answers 404, while its id is still stored for the module route |
| Lifecycle.ArchivedUserKeepsAccess | backend/server.py:538-546 | archiving a user changes no token's result under any of the three guards |
| Lifecycle.SignupKeepsAdmins | backend/server.py:238-261 | a sign-up does not take the admin guard away from an admin token |
| Lifecycle.ApproveMakesApproved | backend/server.py:518-526 | after approval, the user's token passes the approval guard |
| Lifecycle.SignedUpIsPending | backend/server.py:238-263 | a fresh sign-up is stored after every earlier user, pending, and its token resolves to it, so the approval guard refuses it with 403 |
| Lifecycle.ApprovedReadsOpenCourse | backend/server.py:664-675 | an approved caller reads the modules of any stored course that is not a mentorship course |
| Lifecycle.ApprovalOpensModules | backend/server.py:664-675 | a fresh sign-up gets 403 "Account approval required" from the module route; an admin can approve them; the same token then reads the modules of any non-mentorship course |
| AuthContext.Mount | frontend/src/contexts/AuthContext.js:18-25 | with a non-empty stored token the provider waits for the fetch; otherwise loading ends with no user |
| AuthContext.FetchDone | frontend/src/contexts/AuthContext.js:27-37 | loading always ends; success stores the user; failure removes the token and leaves the user as it was |
| AuthContext.LoginUser | frontend/src/contexts/AuthContext.js:39-42 | stores the token and the user |
| AuthContext.LogoutUser | frontend/src/contexts/AuthContext.js:44-47 | removes the token and the user |
| AuthContext.IsAdmin | frontend/src/contexts/AuthContext.js:49 | false while signed out; on a user the server sent, true exactly when the stored role is admin |
| AuthContext.IsApproved | frontend/src/contexts/AuthContext.js:50 | false while signed out; on a user the server sent, true exactly when the stored status is approved |
| AuthContext.HasMentorship | frontend/src/contexts/AuthContext.js:51 | false while signed out; on a user the server sent, exactly the stored mentorship flag |
| AuthContext.SessionFor | frontend/src/contexts/AuthContext.js:18-51 | once the mount fetch settles, a user is present and the token kept exactly when the server resolves the token; `isAdmin` and `isApproved` hold exactly when the server's admin and approval guards pass; the mentorship flag matches the stored one |
| Routing.SetupResponse | frontend/src/App.js:32-41 | checking ends; on success `needsSetup` is the negation of the reported flag; on failure it is unchanged |
| Routing.SetupCheckView | frontend/src/App.js:43-55 | spinner while checking, redirect to /setup exactly when setup is needed, else the page |
| Routing.SetupOutcome | frontend/src/App.js:24-56 | a public page is shown exactly when the status request fails or reports setup complete |
| Routing.SetupRedirectIffIncomplete | frontend/src/App.js:24-56 | fed the server's setup status, a public page redirects to /setup exactly while setup is incomplete and renders once it is complete |
| Routing.ProtectedView | frontend/src/App.js:59-75 | spinner while loading; /login exactly when there is no user; any user passes, whatever their status |
| Routing.AdminView | frontend/src/App.js:78-94 | spinner while loading; everyone who is not an admin goes to /dashboard, signed in or not; never to /login |
| Routing.GuardOf | frontend/src/App.js:100-123 | /setup alone is unguarded; exactly the paths under /admin take the admin wrapper; exactly /dashboard, /coach and the /course paths take the signed-in wrapper |
| Routing.ViewOf | frontend/src/App.js:100-123 | each route shows what its wrapper decides; /setup is unwrapped |
| Routing.Resolve | frontend/src/App.js:100-123 | the route a path matches, literal segments compared ignoring case as React Router does by default; a path of valid segments gives a well-formed route |
| Routing.Page | frontend/src/App.js:102-119 | a one-segment route is matched by its own name in any letter case |
| Routing.ResolvePathOf | frontend/src/App.js:100-123 | every well-formed route is matched by its own path |
| Routing.PathOfResolve | frontend/src/App.js:100-123 | a path matches only a route whose path it is, up to the case of its letters |
| Routing.ResolveIgnoresCase | frontend/src/App.js:100-123 | paths that differ only in letter case reach routes under the same wrapper, so /Dashboard is as protected as /dashboard |
| Routing.PendingUserPassesRouter | frontend/src/App.js:115-119 | a signed-in pending user reaches every student page; approval is checked by the pages and the server |
| StudentDashboard.VisibleCourses | frontend/src/pages/StudentDashboard.js:30-33 | with mentorship access, the fetched list; without it, exactly the non-mentorship courses with their multiplicities, in order |
| StudentDashboard.LoadEffect | frontend/src/pages/StudentDashboard.js:17-40 | data changes only for an approved user whose load succeeds, and then holds the visible courses and the fetched progress |
| StudentDashboard.DashboardShowsServedCourses | frontend/src/pages/StudentDashboard.js:17-40 | fed what the server serves, an approved student sees only live stored courses, no mentorship course without the flag, and, when every live course fits in one response, every course they may open |
| StudentDashboard.Cards | frontend/src/pages/StudentDashboard.js:78-83 | one card per shown course, in order |
| StudentDashboard.Screen | frontend/src/pages/StudentDashboard.js:47-83 | the pending card exactly when the user is not approved; otherwise a card per course linking to its page |
| StudentDashboard.ProgressNeverShown | frontend/src/pages/StudentDashboard.js:78-80 | every card shows 0 percent, so the screen does not depend on the progress records |
| UsersManagement.Keeps | frontend/src/pages/admin/UsersManagement.js:56-60 | on a live user as the server sends it, "pending" and "approved" keep exactly the users the server's status query selects; any other value keeps everyone |
| UsersManagement.FilterUsers | frontend/src/pages/admin/UsersManagement.js:56-60 | "pending" and "approved" keep exactly the users with that status, in order; any other filter keeps everyone |
| UsersManagement.StatusFilterMatchesServer | frontend/src/pages/admin/UsersManagement.js:16-60 | when every live user fits in one response, filtering the page's unfiltered list for "pending" or "approved" gives exactly the list the server returns for that `filter_status` |
| UsersManagement.ShowsApprove | frontend/src/pages/admin/UsersManagement.js:95 | on a user as the server sends it, the Approve button is shown exactly when the stored status is pending |
| UsersManagement.ToggleGrant | frontend/src/pages/admin/UsersManagement.js:36-38 | the button asks for the opposite of the shown flag |
| UsersManagement.ApproveShownIffAccepted | frontend/src/pages/admin/UsersManagement.js:95-99 | on an up-to-date row, Approve is shown exactly when the server would accept it |
| UsersManagement.ToggleAlwaysFlips | frontend/src/pages/admin/UsersManagement.js:100 | on an up-to-date row, the mentorship request always succeeds and flips the stored flag |
| ModulePlayer.FindModule | frontend/src/pages/ModulePlayerPage.js:29-30 | the first module with the id, present exactly when some module has it |
| ModulePlayer.FindIndex | frontend/src/pages/ModulePlayerPage.js:50 | the first position with the id, -1 exactly when absent |
| ModulePlayer.IsCompleted | frontend/src/pages/ModulePlayerPage.js:32-33 | the completion flag of the first record for the module; false when there is none |
| ModulePlayer.NextTarget | frontend/src/pages/ModulePlayerPage.js:49-57 | the next module while there is one; an unknown id in a non-empty list leads to the first module; otherwise the course page |
| ModulePlayer.NextFollowsList | frontend/src/pages/ModulePlayerPage.js:49-57 | with distinct ids, "next" from module i goes to module i+1, and from the last to the course page |
| ModulePlayer.ToggleRequestOf | frontend/src/pages/ModulePlayerPage.js:41 | the request asks for the opposite of the shown state |
| ModulePlayer.ToggleSettled | frontend/src/pages/ModulePlayerPage.js:39-47 | the shown state flips only when the request succeeds |
| ModulePlayer.ToggleMatchesServer | frontend/src/pages/ModulePlayerPage.js:39-47 | after a successful toggle, the page shows what the server stored for the caller and the module |
| CourseDetail.IsModuleCompleted | frontend/src/pages/CourseDetailPage.js:42-44 | true exactly when some record for the module is completed |
| CourseDetail.CompletionLookupsAgree | frontend/src/pages/CourseDetailPage.js:42-44 | with one record per module, the course page and the module player report the same completion |
| CourseDetail.PageMarksMatchStore | frontend/src/pages/CourseDetailPage.js:24-32 | once the course page has loaded, with one record per pair and all of the caller's records served, the page's progress marks a module completed exactly when the caller holds a completed record for it in the store |
| CourseDetail.ServedProgressMatchesStore | backend/server.py:732-735 | with one record per pair and all of the caller's records served, both pages mark a module completed exactly when the caller holds a completed record for it in the store |
| CourseDetail.CompletionLookupsCanDiffer | frontend/src/pages/CourseDetailPage.js:42-44 | with two records for one module, the two lookups disagree |
| CourseDetail.OnLoadError | frontend/src/pages/CourseDetailPage.js:33-39 | a failed load goes to /dashboard exactly when its status is 403 |
| CourseDetail.LoadCourseDetail | frontend/src/pages/CourseDetailPage.js:22-40 | the page loads exactly when the course lookup and the module list both succeed; it then holds the course `GET /courses/{id}` returns, the served module list and the caller's served progress; otherwise the failure is the first failing request's |
| CourseDetail.CoachLinkOnlyForMentees | frontend/src/pages/CourseDetailPage.js:68-76 | when the page loads and shows the coach link, the caller is approved and holds mentorship access |
| CourseDetail.RedirectIffModulesRefused | frontend/src/pages/CourseDetailPage.js:22-40 | for a live course and a resolving token, the page returns to the dashboard exactly when the caller is not approved, or the course is a mentorship course and the caller lacks the flag |

## Left out

- JWT signing, expiry and decoding are left out. An issued token is an entry of `State.tokens` naming its user, and a token never issued or no longer valid is simply absent.
- bcrypt is left out. The hash of a new password is a parameter, and password checking is the `verify` parameter of `Auth.Login`.
- uuid4 and the clock are parameters (`newId`, `now`). Where a handler reads the clock twice for one document, as in sign-up, login and setup, the second read is a separate parameter `later`. Every other handler reads the clock once per document. The setup flag's own `created_at` is not modelled, and the default content carries its times in `Seed`. Fresh ids and tokens are assumed never to collide (`Invariants.Fresh`).
- MongoDB I/O, the async driver and concurrent requests are left out. Each handler is one atomic step, so the model cannot show two concurrent progress posts creating duplicate records.
- A request without an `Authorization` header, which `HTTPBearer` rejects with 403, is left out. Handlers always receive a token.
- Pydantic validation (422 responses) and `EmailStr` normalisation are left out. Emails are compared as given.
- Catalog.ReorderModules: the body is a list of untyped dicts. An item without `id` or `order_number` raises `KeyError`, which gives a 500 after the earlier items were already written. `order_number` may be any JSON value. The model's items always carry an id and an integer, so neither case is modelled. A failing handler in the model returns no store, so a partial write cannot be expressed.
- Content.ReorderLeadership: the same untyped-dict gaps as `Catalog.ReorderModules`. A missing key gives a 500 after partial writes, and a non-integer `order_number` is stored as given. Neither is modelled.
- The fixed default content that setup writes is the `Seed` parameter of `Auth.Initialize` rather than its literal text.
- Analytics.GetAnalytics: `completion_rate` is a rounded float and is not modelled. The 30-day window of `active_users` is the `since` parameter instead of the clock minus 30 days.
- Analytics.CourseStats: its own contract states only the bounds. Which entries the list holds is stated by `Analytics.CourseStatsComplete`. The list's order is not stated.
- Docs.Listing: MongoDB's order among equal sort keys is unspecified. The model fixes one order, and its contract states only what holds for any order.
- `/admin/upload-image`, `GET /homepage-content` (a plain read of the section map), CORS, logging and the server's startup and shutdown hooks are left out.
- The client's API wrapper (`lib/api.js`), toasts, styling and the presentation-only pages are left out. Page functions take the response they receive as a parameter. `StudentDashboard.DashboardShowsServedCourses`, `Routing.SetupRedirectIffIncomplete`, `CourseDetail.LoadCourseDetail` and `UsersManagement.StatusFilterMatchesServer` then apply them to the server functions' answers for a store.
- AuthContext: `refreshUser` is the same `fetchUser` as on mount (`AuthContext.FetchDone`), so it is not modelled separately.
- CourseDetail.LoadCourseDetail: `Promise.all` rejects with whichever request fails first in time. The model reports the first failure in request order.
- StudentDashboard.LoadEffect: the effect re-runs on changes of `isApproved` only. A change of the mentorship flag while approved does not re-filter, and the model does not track that.
