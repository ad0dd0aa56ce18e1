# Team-management front end: verified model of its decision and update rules

This project models the logic inside the React components of a role-based
team-management dashboard:

- **Team list** (`TeamManagement`): the fetched members, the filter criteria
  (broker, segment, specialization), the visible list that a chain of
  order-preserving `.filter` passes derives from them, the tab state and the
  "Team Members" count. Adding a member prepends it and returns to the list tab.
- **Filter panel** (`MemberFilters`): editing one criterion, removing a chip,
  "clear all", the "active filters" test, the specialization chip label, and
  the resync from the parent's prop.
- **Add-member form** (`AddMember`): routing of dotted input names into the
  top-level record, `memberDetails` or `memberDetails.address`; the segment
  check-box toggle; and the submit sequence over `loading`, `error`,
  `success` and the form data.
- **Dashboard page** (`DashboardPage`): the role-dependent section list, the
  content dispatch on the active section, and the role caption.
- **Route guard** (`ProtectedRoute`): what the guard renders and where it
  redirects, given `loading`, the user and the current path.

The JavaScript objects the form edits with spreads (`{ ...prev, [key]: value }`)
are maps from field name to value, so a spread is exactly a map update.
Component state that handlers replace step by step is a class: `TeamManagementPanel`,
`MemberFiltersPanel`, `AddMemberForm` and `DashboardPageState`. The rules that
are pure expressions are functions. Callbacks to the parent (`onFilterChange`,
`onMemberAdded`) are values returned by the methods. Two methods,
`TeamManagementPanel.EditFilter` and `TeamManagementPanel.SubmitFromForm`,
connect a child to its parent.

The filter chain `ApplyFilters` is related to an independent one-pass
definition, `KeepMatching`, which keeps a member iff every non-empty criterion
holds of it. Identity, membership, subsequence and idempotence are proved
through that equivalence.

Two behaviours of the code are easy to misread; the model follows the code in both:

- The guard compares `router.pathname`, which the router it imports does not
  have, so the path it sees is always absent (see Findings).
- A newly added member heads the *visible* list only when it passes the current
  filters. With no filters it always does.

## Model

| member | source | states |
|---|---|---|
| `MemberFilters.WithFilter` | components/tl/Memberfilters.js:38-42 | the named criterion takes the new value; the other two keep theirs |
| `MemberFilters.HasActiveFilters` | components/tl/Memberfilters.js:57 | true iff at least one criterion is non-empty, i.e. iff the criteria differ from the all-empty value |
| `MemberFilters.SpecializationLabel` | components/tl/Memberfilters.js:168 | same length, no underscore left, each underscore becomes a space and every other character is kept |
| `MemberFilters.RemovingChipClearsOnlyIt` | components/tl/Memberfilters.js:142-176 | removing a chip empties that criterion only; filters stay active iff another criterion is set |
| `MemberFilters.SettingMakesActive` | components/tl/Memberfilters.js:38-57 | setting any criterion to a non-empty value makes the filters active |
| `MemberFilters.MemberFiltersPanel.constructor` | components/tl/Memberfilters.js:9 | the local criteria start as the `currentFilters` prop |
| `MemberFilters.MemberFiltersPanel.ShowsActiveFilters` | components/tl/Memberfilters.js:57-71 | the clear button and chips show iff some criterion is set |
| `MemberFilters.MemberFiltersPanel.HandleFilterChange` | components/tl/Memberfilters.js:38-45 | the same updated criteria are stored locally and emitted to the parent |
| `MemberFilters.MemberFiltersPanel.RemoveChip` | components/tl/Memberfilters.js:146-170 | a chip's "×" clears that criterion, keeps the others, and emits the stored value |
| `MemberFilters.MemberFiltersPanel.ClearFilters` | components/tl/Memberfilters.js:47-55 | all three criteria are empty, stored and emitted, and no filter is active |
| `MemberFilters.MemberFiltersPanel.SyncWithProps` | components/tl/Memberfilters.js:16-18 | the local criteria become equal to the prop |
| `AddMember.FieldAfter` | components/tl/AddMemberForm.js:63-75 | the second dot-separated segment: what follows the prefix up to the next dot or the end of the name, with no dot in it |
| `AddMember.Route` | components/tl/AddMemberForm.js:62-88 | `address.` names go to the address, other `memberDetails.` names to the details, each under the segment after its prefix; all others to the top level under the whole name |
| `AddMember.InputChanged` | components/tl/AddMemberForm.js:59-89 | the routed field takes the value; every other field and the segment list are unchanged |
| `AddMember.AddressInputTouchesOnlyAddress` | components/tl/AddMemberForm.js:62-73 | an `address.` name updates one address key; top level and other details are untouched |
| `AddMember.DetailInputLeavesAddress` | components/tl/AddMemberForm.js:74-82 | a `memberDetails.` name updates one detail key; top level and address are untouched |
| `AddMember.RemoveAll` | components/tl/AddMemberForm.js:95 | every occurrence removed, other elements and their order kept, duplicate-freedom preserved |
| `AddMember.ToggleSegment` | components/tl/AddMemberForm.js:91-98 | membership of the id flips: absent ids are appended, present ids removed entirely; no duplicate is introduced |
| `AddMember.ToggleTwiceFromUnselected` | components/tl/AddMemberForm.js:94-96 | toggling an absent id twice restores the list exactly |
| `AddMember.ToggleTwiceSameSelection` | components/tl/AddMemberForm.js:94-96 | on a duplicate-free list, toggling twice restores the selection; a present id moves to the end |
| `AddMember.ToggleTwiceReorders` | components/tl/AddMemberForm.js:94-96 | `["a","b"]` toggled twice on `"a"` gives `["b","a"]`: the list order is not restored |
| `AddMember.ErrorMessage` | components/tl/AddMemberForm.js:139 | the server message when it is non-empty, otherwise `Error adding member`; never empty |
| `AddMember.AddMemberForm.constructor` | components/tl/AddMemberForm.js:9-33 | not loading, no messages, the empty initial form |
| `AddMember.AddMemberForm.HandleInputChange` | components/tl/AddMemberForm.js:59-89 | the form takes the routed update; loading and messages unchanged |
| `AddMember.AddMemberForm.HandleSegmentChange` | components/tl/AddMemberForm.js:91-98 | only the segment list changes, by the toggle |
| `AddMember.AddMemberForm.BeginSubmit` | components/tl/AddMemberForm.js:100-107 | loading, error and success cleared before the request; the form is posted unchanged |
| `AddMember.AddMemberForm.FinishSubmit` | components/tl/AddMemberForm.js:109-142 | success: form reset to the initial value, success set, callback given the member once if present. Failure: error set, form kept. Loading ends false |
| `AddMember.AddMemberForm.HandleSubmit` | components/tl/AddMemberForm.js:100-143 | the whole submit: posted payload is the old form; outcome-dependent final state as above with messages cleared first |
| `AddMember.AddMemberForm.ClearSuccess` | components/tl/AddMemberForm.js:137 | the delayed callback empties the success message and nothing else |
| `TeamManagement.ApplyFilters` | components/tl/TeamManagement.js:39-59 | the visible list is no longer than the fetched one and holds exactly the fetched members that match every set criterion |
| `TeamManagement.MatchesIsEverySetCriterion` | components/tl/TeamManagement.js:42-56 | a member matches iff it satisfies the `.filter` predicate of each criterion that is set: broker id, some segment id, `memberDetails?.specialization` |
| `TeamManagement.Select` | components/tl/TeamManagement.js:42-56 | one `.filter` pass keeps exactly the members satisfying its criterion and never grows the list |
| `TeamManagement.ApplyFiltersAppend` | components/tl/TeamManagement.js:39-58 | filtering distributes over concatenation |
| `TeamManagement.ApplyFiltersCons` | components/tl/TeamManagement.js:39-62 | filtering a list with a new head keeps the head iff it matches and filters the rest as before |
| `TeamManagement.ApplyFiltersIsConjunction` | components/tl/TeamManagement.js:39-58 | the chain of passes equals one pass keeping members for which every non-empty criterion holds |
| `TeamManagement.FilterMembership` | components/tl/TeamManagement.js:42-56 | a member is visible iff it was fetched and broker, segment and specialization criteria (when set) hold |
| `TeamManagement.FilterIsSubsequence` | components/tl/TeamManagement.js:40-58 | the visible list is a subsequence of the fetched list: nothing added, order kept |
| `TeamManagement.FilterIdentity` | components/tl/TeamManagement.js:39-58 | filtering returns the list unchanged iff all members match; with all criteria empty it always does |
| `TeamManagement.FilterIdempotent` | components/tl/TeamManagement.js:39-59 | re-applying the same criteria to the visible list changes nothing |
| `TeamManagement.NoDetailsHiddenBySpecialization` | components/tl/TeamManagement.js:52-55 | a member without `memberDetails` is hidden whenever a specialization is chosen |
| `TeamManagement.BrokerFilterExample` | components/tl/TeamManagement.js:42-44 | members with brokers A and B filtered on A leave exactly the first |
| `TeamManagement.TeamManagementPanel.constructor` | components/tl/TeamManagement.js:10-18 | list tab, no members, loading, all criteria empty, visible list consistent |
| `TeamManagement.TeamManagementPanel.MemberCount` | components/tl/TeamManagement.js:70-73 | the tab count is the number of fetched members, at least the number visible, equal with no criteria |
| `TeamManagement.TeamManagementPanel.FetchTeamMembers` | components/tl/TeamManagement.js:28-37 | members replaced on success, kept on failure; loading ends false; visible list recomputed |
| `TeamManagement.TeamManagementPanel.HandleMemberAdded` | components/tl/TeamManagement.js:61-64 | the new member is prepended (length + 1, old order kept), the list tab shown, and it heads the visible list iff it matches |
| `TeamManagement.TeamManagementPanel.HandleFilterChange` | components/tl/TeamManagement.js:66-68 | the criteria are replaced wholesale; members and tab unchanged |
| `TeamManagement.TeamManagementPanel.SelectTab` | components/tl/TeamManagement.js:80-83 | only the active tab changes |
| `TeamManagement.TeamManagementPanel.EditFilter` | components/tl/TeamManagement.js:104-107 | after a panel edit, the parent's criteria and the panel's local copy are the same updated value; members, tab and loading unchanged |
| `TeamManagement.TeamManagementPanel.SubmitFromForm` | components/tl/TeamManagement.js:116-120 | criteria and loading unchanged and the form no longer loading; a created member heads the list once, heads the visible list iff it matches, and the form is empty with the success message and no error; a rejected submit leaves the lists, the tab and the form data unchanged, sets the form's error and clears its success message |
| `DashboardPage.GetSections` | app/dashboard/page.js:13-31 | overview first, ids distinct, an id appears iff the role is entitled to it; "Team Management" iff team lead, "Admin Panel" iff admin |
| `DashboardPage.SectionsByRole` | app/dashboard/page.js:13-31 | `tl` gets exactly [overview, team]; `admin`/`super_admin` exactly [overview, admin]; anyone else [overview]; at most two, never team and admin together |
| `DashboardPage.RenderContent` | app/dashboard/page.js:33-42 | `team` shows team management, `admin` the admin panel, every other value the dashboard |
| `DashboardPage.OfferedSectionsShowDistinctViews` | app/dashboard/page.js:33-42 | two different sections a user is offered show different content |
| `DashboardPage.RoleLabel` | app/dashboard/page.js:56 | same length; the first underscore becomes a space, every other character is upper-cased, later underscores stay |
| `DashboardPage.DashboardPageState.constructor` | app/dashboard/page.js:11 | the page opens on `overview`, which shows the dashboard |
| `DashboardPage.DashboardPageState.SelectSection` | app/dashboard/page.js:73 | the clicked section becomes active and its content is shown |
| `ProtectedRoute.Redirects` | components/common/ProtectedRoute.js:10-22 | at most one redirect; none while loading; login without a user; change-password when required and not on that path |
| `ProtectedRoute.Render` | components/common/ProtectedRoute.js:24-40 | placeholder iff loading; children iff settled with a user who changed the password or is on the change-password path |
| `ProtectedRoute.RenderAgreesWithRedirect` | components/common/ProtectedRoute.js:10-40 | children iff settled and no redirect; nothing rendered iff exactly one redirect |
| `ProtectedRoute.AbsentPathAlwaysRedirects` | components/common/ProtectedRoute.js:17-38 | with no path, a user with an unchanged password is redirected and never sees the children |
| `ProtectedRoute.GuardAsWritten` | components/common/ProtectedRoute.js:3-40 | as written, children show iff the password was changed, whatever page is open |
| `ProtectedRoute.Guard` | components/common/ProtectedRoute.js:10-40 | with the live path, children show iff settled with a user who changed the password or is on the change-password page |
| `ProtectedRoute.ChangePasswordPageUnreachableAsWritten` | app/auth/change-password/page.js:4-9 | as written, on the change-password page a user who must change it gets nothing and a redirect to the same page |
| `ProtectedRoute.ChangePasswordPageReachable` | app/auth/change-password/page.js:4-9 | with the live path, the change-password page renders its form without redirect |
| `ProtectedRoute.OtherPagesForceChange` | components/common/ProtectedRoute.js:17-20 | with the live path, every other page still redirects a user who must change the password |

## Findings

| source | as written | input that shows it | evidently intended | confidence | as-written member | corrected member |
|---|---|---|---|---|---|---|
| components/common/ProtectedRoute.js:17 | the exemption compares `router.pathname`, but the router from `next/navigation` (line 3) has no `pathname`, so the comparison is always "not the change-password page" | `loading = false`, a user with `isPasswordChanged = false`, on `/auth/change-password` (which wraps its form in the guard) | compare the live path (e.g. from `usePathname()`), so the change-password page renders its form | high, not executed | `ProtectedRoute.ChangePasswordPageUnreachableAsWritten` | `ProtectedRoute.ChangePasswordPageReachable` |

## Left out

- HTTP calls are external I/O: `GET /brokers`, `GET /segments`, `GET /users/my-team` and `POST /users/members`. The fetch and submit outcomes are method inputs instead.
- The broker and segment option lists that the filter panel and the form fetch are left out. They only feed select options and chip names (`brokers.find(...)?.name`).
- The `useAuth` hook and the session store are left out. `user` and `loading` are inputs, and the form's unused `user` is dropped.
- `router.push` is not performed. The guard returns its redirect targets instead.
- React effect scheduling is not modelled. The filter effect runs inside the method that changes `members` or `filters`, so `Valid()` always holds between handlers.
- The 3-second timer is not modelled. Only its callback is, as `ClearSuccess`.
- JSX markup, CSS classes, section icons, select option lists and browser-side validation (`required`, `min`, `type="email"`) are not part of this model.
- The submit button's `disabled={loading}` is not modelled. `HandleSubmit` may be called while loading.
- Member fields that no rule reads are not modelled (experience, target amount, phone, address of fetched members). A member without a `broker` object or without a `segments` array is not modelled either (every `Member` here has both); the source would throw when the broker criterion, respectively the segment criterion, is set. A response without `members` is not modelled: it would leave `members` undefined and the tab count `members.length` would throw; the fetch input is either a list or a failure.
- A successful submit whose response lacks `member` is not modelled: the source would pass `undefined` to `onMemberAdded` and prepend it to the list; here `Created` always carries a `Member`.
- `MemberFilters.HasActiveFilters`: the source's value is the first truthy string. The model gives the truth value the markup tests.
- `AddMember.InputChanged`: requires a name that does not replace a nested record with a string (`segments`, `memberDetails`, `memberDetails.address`). The form renders none of those names.
- `AddMember.ErrorMessage`: a non-string `message` in the error response is not modelled.
- `DashboardPage.RoleLabel`: only ASCII letters are upper-cased; JavaScript's full Unicode case mapping can change the length. A user without a role (`user?.role?`) gives no caption and is not modelled.
- components/dashboard/Dashboard.js is not part of this model; its role caption is the same rule as `DashboardPage.RoleLabel`.
- components/providers/AuthProvider.js, `MemberList` and `ChangePasswordForm` are not part of this model.
- app/auth/change-password/page.js only wraps the form in the guard. Its effect is stated by the two change-password-page lemmas.
