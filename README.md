# Haramain Volunteers — a verified model of the client-side logic

Haramain Volunteers is a bilingual (Arabic/English) Next.js web application
for volunteer opportunities at the two holy mosques. All of its data is
mocked in the browser. This project models the deterministic core of that
application in Dafny and proves what the code promises about it:

- the mock query engines: the user directory (`getMockUsers`:
  status/role filters, search, sort, 0-based paging), the user actions
  (`simulateUserAction`) and the opportunity search (`useOpportunities`:
  text, category, location and date filters, page count and 1-based paging);
- the two translation providers: the nested dictionary walker with its
  narrow English fallback and `{param}` substitution
  (`src/contexts/LanguageContext.tsx`), and the flat lookup of the provider
  the application mounts (`src/context/language-context.tsx`);
- the page selector (`getPageNumbers`) and its previous/next buttons;
- the admin user-management page: tab parsing, the tab-to-query mapping,
  the sort toggle, the dialog type and the list update after an action;
  and the eligibility rules of the details modal and the user table;
- the small state machines: the apply button, the simulated auth session,
  the admin access gate and mobile menu, the opportunities filter form, the
  dashboard fetch and the opportunity-detail fetch;
- the pure helpers: thousands separators, initials, relative-time buckets,
  the case-insensitive admin e-mail check and the id-to-fields mapping of
  the mock opportunity detail.

Time, storage, the router and fetched data are parameters or fields; each
asynchronous step (a timer callback, a resolved fetch) is one atomic
transition. JavaScript semantics the code relies on are written out:
`parseInt` (whitespace, sign, `0x`, leading digits, NaN; the value is an
exact integer, not a double), the truncating
`%`, `Math.round` of a quotient as round-half-up integer division,
`split`/`join`, `slice` with clamped bounds, and a `sort` comparator that
returns 0 for missing values. React's state setters are modelled with
their bail-out: setting a state to its current value re-renders nothing,
so no effect runs again.

Modules: `Wrappers` (Option), `Seqs` (filter, subsequence, slice), `Text`
(case mapping, substring search, split/join, decimal strings, `parseInt`,
string order), `Languages`, `FlatTranslation`, `NestedTranslation`,
`UserManagement`, `UserTable`, `UserDetailsModal`, `AdminUsersPage`,
`DetailActions`, `AuthTypes`, `AuthContext`, `AdminLayout`, `AdminTypes`,
`Dashboard`, `RecentApplications`, `Opportunities`, `OpportunityExamples`,
`OpportunitiesPage`, `OpportunityDetail`, `Pagination`.

## Model

| member | source | states |
|---|---|---|
| UserManagement.KeyCmp | src/types/user-management.ts:194-208 | the comparator is 0 exactly when a value is missing or both are equal, otherwise -1 or 1 |
| UserManagement.KeyCmpAntisymmetric | src/types/user-management.ts:194-208 | swapping the operands negates the comparison |
| UserManagement.KeyCmpTransitive | src/types/user-management.ts:194-208 | on present values the comparator is transitive, in both directions |
| UserManagement.InsertPermutes | src/types/user-management.ts:194 | inserting one user adds exactly that user to the multiset |
| UserManagement.SortSeqPermutes | src/types/user-management.ts:194 | sorting is a permutation |
| UserManagement.InsertOrdered | src/types/user-management.ts:194-208 | inserting into an ordered list keeps it ordered |
| UserManagement.SortSeqOrdered | src/types/user-management.ts:193-209 | when every user has the sort key, the sorted list is ordered ascending, or descending when asked |
| UserManagement.InsertFilter | src/types/user-management.ts:194-208 | insertion passes only users whose sort value differs from the inserted one's, so the users with any one value keep their order, the inserted one last |
| UserManagement.SortSeqStable | src/types/user-management.ts:193-209 | the sort is stable: for every value, the users carrying it appear in input order, ascending or descending (desc swaps the operands and does not reverse ties) |
| UserManagement.InsertInPlace | src/types/user-management.ts:194 | the in-place shift puts element i where the sorted insertion puts it and leaves the rest of the array alone |
| UserManagement.OpenGap | src/types/user-management.ts:194 | the shifting loop moves right, by one place, exactly the elements of the sorted prefix from the gap on, all of which compare greater than the element being placed, while the one before the gap does not |
| UserManagement.InsertAt | src/types/user-management.ts:194 | the insertion point is after the last user that does not compare greater |
| UserManagement.SortSeqStep | src/types/user-management.ts:194 | sorting one more element is one more insertion |
| UserManagement.SortInPlace | src/types/user-management.ts:194 | the in-place sort of the array leaves it equal to the sorted sequence of its old contents |
| UserManagement.GetMockUsers | src/types/user-management.ts:171-218 | the step-by-step filtering, in-place sort and paging compute the query over the table |
| UserManagement.FilterUsers | src/types/user-management.ts:171-190 | applying the status, role and search filters one after another keeps exactly the users that pass all three |
| UserManagement.SelectedMembership | src/types/user-management.ts:171-190 | a user survives the filters iff it is in the table, has the requested status and role, and hits the search |
| UserManagement.SelectedIsSubsequence | src/types/user-management.ts:171-190 | before sorting, the result is an order-preserving subsequence of the table |
| UserManagement.QueryRespectsFilters | src/types/user-management.ts:172-190 | every returned user has the requested status and role and matches a non-empty search |
| UserManagement.SortStagePermutes | src/types/user-management.ts:193-209 | the sort stage only reorders |
| UserManagement.PageStageSubset | src/types/user-management.ts:212-216 | paging only drops users |
| UserManagement.QueryIsPermutation | src/types/user-management.ts:171-218 | without paging the result is a permutation of the filtered users |
| UserManagement.QueryNoParams | src/types/user-management.ts:171-218 | an empty query returns the table unchanged |
| UserManagement.QueryOrdered | src/types/user-management.ts:193-209 | with a sort field every result carries, the result is ordered by it in the requested direction |
| UserManagement.SortStageStable | src/types/user-management.ts:193-209 | the sort stage keeps the filtered order among users with equal values of the sort field |
| UserManagement.QueryStable | src/types/user-management.ts:171-218 | without paging, users with equal sort values are returned in table order |
| UserManagement.MandatoryFieldsPresent | src/types/user-management.ts:4-44 | id, name, email, phone, status, role and joinedAt are present on every user |
| UserManagement.QueryPage | src/types/user-management.ts:212-216 | paging applies only with both page and pageSize; for non-negative values it is exactly the slice from page*pageSize to (page+1)*pageSize of the sorted list, cut at its end |
| UserManagement.FindUser | src/types/user-management.ts:223 | a found user is in the table with that id; nothing is found iff no user has the id |
| UserManagement.FindUserUnique | src/types/user-management.ts:223 | with unique ids, looking up a user's id finds that user |
| UserManagement.GetMockUserByIdSpec | src/types/user-management.ts:222-224 | the built-in table yields the user with the id, or none when no user has it |
| UserManagement.SimulateUserAction | src/types/user-management.ts:227-279 | an unknown id gives "User not found" and, for a found user, an unknown action "Invalid action"; a success returns the found record with the action applied (Applied) and the message "User <past tense> successfully" (SuccessMessage) |
| UserManagement.Applied | src/types/user-management.ts:243-265 | the copy keeps every field except status, role, nationalIdVerified and lastActive; only promote changes the role (to admin); admit, revoke and block set the status to active, inactive and blocked; only admit sets nationalIdVerified to true and lastActive to the given time; delete returns the record unchanged |
| UserManagement.AppliedIdempotent | src/types/user-management.ts:243-265 | applying the same action twice at the same time gives the record applying it once gives |
| UserManagement.MockIdsUnique | src/types/user-management.ts:46-168 | the built-in users have distinct ids |
| UserManagement.AdminRoleQueryExcludesSuperAdmin | src/types/user-management.ts:177-179 | querying role admin returns the two admins and not the super admin |
| UserManagement.Query | src/types/user-management.ts:46-218 | the reference definition of getMockUsers: select, sort a copy when sortBy is given, then page (QueryRespectsFilters, QueryIsPermutation, QueryOrdered, QueryStable and QueryPage state its properties) |
| UserManagement.GetMockUserById | src/types/user-management.ts:222-224 | the first user with the id in the unfiltered built-in table (GetMockUserByIdSpec states the result) |
| AdminUsersPage.GetTabFromUrl | src/app/admin/users/page.tsx:29-33 | 'active' and 'admin' are taken from the URL; anything else gives the pending tab |
| AdminUsersPage.TabQueryFilters | src/app/admin/users/page.tsx:72-78 | users listed on the pending or active tab have that status; users on the admin tab have role admin, never super_admin |
| AdminUsersPage.TabQueryComplete | src/app/admin/users/page.tsx:66-84 | every table user that the tab's query keeps is listed |
| AdminUsersPage.SortAfter | src/app/admin/users/page.tsx:110-119 | clicking the current field flips the direction; a new field is selected ascending |
| AdminUsersPage.SortToggleTwice | src/app/admin/users/page.tsx:110-119 | clicking the same field twice restores the direction |
| AdminUsersPage.DialogTypeOf | src/app/admin/users/page.tsx:354 | the dialog is 'success' iff the pending action is admit or promote |
| AdminUsersPage.ConfirmationMessage | src/app/admin/users/page.tsx:148-187 | with no pending action the title and message are empty |
| AdminUsersPage.ConfirmationIgnoresUser | src/app/admin/users/page.tsx:153-180 | the flat translator drops the name parameter, so the message does not depend on the user |
| AdminUsersPage.ReplaceById | src/app/admin/users/page.tsx:219-221 | entries with another id stay; the entry with the id becomes the response's user when there is one |
| AdminUsersPage.UpdatedListRemoves | src/app/admin/users/page.tsx:210-215 | when the action moves the user off the tab, the list loses exactly the users with that id, keeping order |
| AdminUsersPage.UpdatedListReplaces | src/app/admin/users/page.tsx:217-222 | otherwise the list keeps its length and order, replacing only the entries with that id |
| AdminUsersPage.UserManagementPage.constructor | src/app/admin/users/page.tsx:36-58 | the initial state: tab from the URL, sort by joinedAt descending, loading, nothing pending |
| AdminUsersPage.UserManagementPage.FetchUsers | src/app/admin/users/page.tsx:61-90 | the list becomes the query result for the current tab, search and sort |
| AdminUsersPage.UserManagementPage.HandleTabChange | src/app/admin/users/page.tsx:100-102 | only the tab changes |
| AdminUsersPage.UserManagementPage.HandleSearch | src/app/admin/users/page.tsx:105-107 | only the search text changes |
| AdminUsersPage.UserManagementPage.HandleSort | src/app/admin/users/page.tsx:110-119 | the sort state follows the toggle rule; nothing else changes |
| AdminUsersPage.UserManagementPage.HandleViewDetails | src/app/admin/users/page.tsx:122-125 | the user is selected and the modal opens |
| AdminUsersPage.UserManagementPage.HandleAction | src/app/admin/users/page.tsx:142-145 | the action becomes pending and the confirmation dialog opens |
| AdminUsersPage.UserManagementPage.FinishAction | src/app/admin/users/page.tsx:200-241 | loading ends, the dialog closes and nothing is pending; success closes the modal and updates the list; failure keeps the list |
| AdminUsersPage.UserManagementPage.ExecutePendingAction | src/app/admin/users/page.tsx:190-241 | without a pending action nothing changes; otherwise loading ends, the dialog closes, and a success toasts the action's message and removes the user or replaces them by the table's record with the action applied, while a failure toasts "User not found" or "Invalid action" and keeps the list |
| AdminUsersPage.QueryFor | src/app/admin/users/page.tsx:66-78 | the query for a tab: sort and search as given, status pending or active, or role admin (TabQueryFilters and TabQueryComplete state what is listed) |
| AdminUsersPage.UpdatedList | src/app/admin/users/page.tsx:209-222 | after a success the user is removed when the action moves them off the tab, otherwise replaced by the response record (UpdatedListRemoves and UpdatedListReplaces) |
| UserDetailsModal.OfferedActions | src/components/admin/users/UserDetailsModal.tsx:84-93 | admit iff pending, revoke iff active, promote iff active with role user, block iff not blocked, each only with a handler; delete never |
| UserDetailsModal.OfferedOnPage | src/components/admin/users/UserDetailsModal.tsx:84-93 | admit and revoke never show together; a blocked user gets no action, an inactive one only block; promote implies revoke |
| UserDetailsModal.DocumentsPanelNeverEmpty | src/components/admin/users/UserDetailsModal.tsx:307 | the documents panel shows iff a national id or a selfie would show in it |
| UserDetailsModal.Renders | src/components/admin/users/UserDetailsModal.tsx:52 | the modal renders nothing unless it is open and holds a user |
| UserDetailsModal.BackdropCloses | src/components/admin/users/UserDetailsModal.tsx:67-71 | a click closes the modal only when it lands on the backdrop itself and no action is running |
| UserDetailsModal.CanAdmit | src/components/admin/users/UserDetailsModal.tsx:84 | admit is offered to a pending user when the admit handler is passed (the buttons as a whole are stated by OfferedActions) |
| UserDetailsModal.CanRevoke | src/components/admin/users/UserDetailsModal.tsx:87 | revoke is offered to an active user when the revoke handler is passed |
| UserDetailsModal.CanPromote | src/components/admin/users/UserDetailsModal.tsx:90 | promote is offered to an active user whose role is exactly user, when the promote handler is passed |
| UserDetailsModal.CanBlock | src/components/admin/users/UserDetailsModal.tsx:93 | block is offered to any user who is not already blocked, when the block handler is passed |
| UserDetailsModal.ShowsDocuments | src/components/admin/users/UserDetailsModal.tsx:307 | the documents panel shows when the user has documents with a non-empty id image or selfie (DocumentsPanelNeverEmpty relates it to the two images) |
| UserTable.SortIndicator | src/components/admin/users/UserTable.tsx:57-65 | an arrow shows only on the current sort field, up iff ascending |
| UserTable.OneIndicator | src/components/admin/users/UserTable.tsx:57-65 | at most one column carries an arrow |
| UserTable.Columns | src/components/admin/users/UserTable.tsx:159-221 | the role column only on the admin tab, last active on every tab but pending; name first, actions last |
| UserTable.LastActiveCellOf | src/components/admin/users/UserTable.tsx:251-259 | a missing or empty last-active value shows as a dash |
| UserTable.RowButtons | src/components/admin/users/UserTable.tsx:269-313 | view always; admit only on the pending tab, revoke only on the active tab, promote only on the active tab for role user, each with a handler |
| UserTable.RowButtonsOnPage | src/app/admin/users/page.tsx:300-330 | with the handlers the page passes, the admin tab shows only the view button even though it passes a revoke handler |
| UserTable.BodyRows | src/components/admin/users/UserTable.tsx:224-226 | while loading exactly five skeleton rows show |
| UserTable.ShowsEmptyState | src/components/admin/users/UserTable.tsx:108 | the empty state replaces the table when no user is listed and nothing is loading |
| UserTable.EmptyMessageKey | src/components/admin/users/UserTable.tsx:118-123 | the empty state says noPendingUsers, noAdminUsers or noActiveUsers according to the tab |
| UserTable.ShowsClearSearch | src/components/admin/users/UserTable.tsx:125-132 | the clear-search button shows only for a non-empty search |
| Languages.Code | src/contexts/LanguageContext.tsx:8 | a language's code is 'ar' or 'en' |
| Languages.Dir | src/context/language-context.tsx:85 | the direction is 'rtl' iff Arabic, 'ltr' iff English |
| Languages.ParseLanguage | src/context/language-context.tsx:57-60 | a stored value is accepted iff it is 'ar' or 'en', and then names that language |
| Languages.ParseCode | src/context/language-context.tsx:57-60 | storing a language and reading it back gives the language |
| FlatTranslation.Lookup | src/context/language-context.tsx:81-83 | the key comes back iff its entry is missing, empty or the key itself; otherwise the entry |
| FlatTranslation.LookupOnlyReadsKey | src/context/language-context.tsx:81-83 | the lookup is flat: only the entry under the whole key matters |
| FlatTranslation.EmptyEntryIsMissing | src/context/language-context.tsx:82 | an empty entry behaves as a missing one |
| FlatTranslation.DefaultContextIdentity | src/context/language-context.tsx:19-26 | outside a provider `t` is the identity and the direction is rtl |
| FlatTranslation.LanguageProvider.constructor | src/context/language-context.tsx:31-34 | a provider starts in Arabic, loading, with no table and not mounted |
| FlatTranslation.LanguageProvider.Direction | src/context/language-context.tsx:85 | the provider's direction is rtl iff its language is Arabic |
| FlatTranslation.LanguageProvider.Mount | src/context/language-context.tsx:55-65 | a valid stored language is adopted, anything else keeps the current one; the document follows once mounted |
| FlatTranslation.LanguageProvider.BeginLoad | src/context/language-context.tsx:37-41 | loading starts with the old table kept |
| FlatTranslation.LanguageProvider.CompleteLoad | src/context/language-context.tsx:42-48 | a fetched table replaces the old one, a failure keeps it; loading ends either way |
| FlatTranslation.LanguageProvider.SetLanguage | src/context/language-context.tsx:67-79 | the language is recorded and stored, and the document's lang and dir follow it |
| FlatTranslation.MountFresh | src/context/language-context.tsx:31-65 | a fresh provider ends in the stored language when valid, otherwise Arabic |
| NestedTranslation.Get | src/contexts/LanguageContext.tsx:72 | an object gives its own member or undefined; an array gives the element at an in-range index name; a string gives the one-character string at an in-range index name; any other read gives undefined |
| NestedTranslation.WalkAppend | src/contexts/LanguageContext.tsx:68-73 | walking a + b is walking a, then b from where it stopped |
| NestedTranslation.WalkThrowsIff | src/contexts/LanguageContext.tsx:68-73 | the walk throws iff some proper prefix of the path leads to undefined |
| NestedTranslation.Placeholder | src/contexts/LanguageContext.tsx:83 | a placeholder is the name in braces |
| NestedTranslation.SubstituteAbsent | src/contexts/LanguageContext.tsx:81-86 | a text with none of the parameters' placeholders is unchanged |
| NestedTranslation.SubstituteOne | src/contexts/LanguageContext.tsx:81-86 | the one placeholder is replaced by the value's string form |
| NestedTranslation.UnmatchedPlaceholderKept | src/contexts/LanguageContext.tsx:81-86 | for every text and parameter list with brace-free names, an occurrence of {m} for a name m no parameter has survives substitution, whatever the values |
| NestedTranslation.UnmatchedPlaceholderExample | src/contexts/LanguageContext.tsx:81-86 | substituting name in "{name} {year}" gives "Ali {year}" |
| NestedTranslation.SubstituteOnlyOne | src/contexts/LanguageContext.tsx:81-86 | a text holding the parameter's placeholder once, after brace-free text, becomes that text, the value and the rest unchanged |
| NestedTranslation.ReplaceKeepsPlaceholder | src/contexts/LanguageContext.tsx:83-84 | one replace of {n} keeps every occurrence of {m} for a different brace-free name |
| NestedTranslation.PlaceholdersDisjoint | src/contexts/LanguageContext.tsx:83 | placeholders of two brace-free names overlap in a text only when the names are equal |
| NestedTranslation.FlatSkip | src/contexts/LanguageContext.tsx:83-84 | brace-free text does not change whether a text has nested braces |
| NestedTranslation.FlatAfterPlaceholder | src/contexts/LanguageContext.tsx:83 | no brace is open after a whole placeholder |
| NestedTranslation.ReplaceKeepsFlat | src/contexts/LanguageContext.tsx:83-84 | replacing a placeholder by brace-free text keeps a text without nested braces so |
| NestedTranslation.OpenPrefixKept | src/contexts/LanguageContext.tsx:83-84 | inside an open brace the text up to its closing brace is not changed by a replace |
| NestedTranslation.PlaceholderAtFront | src/contexts/LanguageContext.tsx:83-84 | a placeholder at the front of a replace's result, where nothing was replaced at the front, was at the front of the text |
| NestedTranslation.ReplaceCreatesNoPlaceholder | src/contexts/LanguageContext.tsx:83-84 | in a text without nested braces, one replace of {m} by brace-free text creates no placeholder: a {n} afterwards was there before and n is not m (so no {m} is left) |
| NestedTranslation.SubstituteKeepsAbsent | src/contexts/LanguageContext.tsx:81-86 | with brace-free names and values, substitution into a text without nested braces creates no placeholder that was not there |
| NestedTranslation.SubstituteReplacesAll | src/contexts/LanguageContext.tsx:81-86 | with brace-free names and values, in a text without nested braces, no placeholder of any supplied parameter is left after substitution |
| NestedTranslation.NestedPlaceholderReappears | src/contexts/LanguageContext.tsx:81-86 | with nested braces a placeholder can be left: substituting n = "n" in "{{n}}" gives "{n}" |
| NestedTranslation.SubstituteParams | src/contexts/LanguageContext.tsx:81-86 | the forEach over the parameters computes the substitution |
| NestedTranslation.TranslateFound | src/contexts/LanguageContext.tsx:75-88 | a walk ending on a string gives that string with placeholders substituted |
| NestedTranslation.TranslateNotStringNoFallback | src/contexts/LanguageContext.tsx:75-78 | a walk ending on a non-string gives back the key, without trying English |
| NestedTranslation.TranslateFallback | src/contexts/LanguageContext.tsx:89-112 | a missing intermediate segment in Arabic gives the English walk's string, or the key |
| NestedTranslation.TranslateEnglishNoFallback | src/contexts/LanguageContext.tsx:89-112 | in English a missing intermediate segment gives back the key |
| NestedTranslation.TranslateResultSource | src/contexts/LanguageContext.tsx:63-114 | the result is always the key or a substituted dictionary string; `t` never throws |
| NestedTranslation.TwoSegments | src/contexts/LanguageContext.tsx:64 | a key `section.field` whose parts hold no dot splits into exactly those two segments |
| NestedTranslation.MissingLastSegmentReturnsKey | src/contexts/LanguageContext.tsx:75-78 | for any key `section.field`: when Arabic has the section but not the field, the Arabic lookup returns the key even though English has the text, which the English lookup returns |
| NestedTranslation.MissingSectionFallsBack | src/contexts/LanguageContext.tsx:69-71 | for any key `section.field`: when Arabic lacks the whole section, the Arabic lookup falls back to the English text |
| NestedTranslation.InitialLanguage | src/contexts/LanguageContext.tsx:34-39 | the stored language is English iff the stored value is 'en'; anything else gives Arabic |
| NestedTranslation.LanguageProvider.constructor | src/contexts/LanguageContext.tsx:29-30 | the provider starts in Arabic and not loaded |
| NestedTranslation.LanguageProvider.Load | src/contexts/LanguageContext.tsx:32-59 | loading adopts the validated stored language and sets the document's lang and dir |
| NestedTranslation.LanguageProvider.SetLanguage | src/contexts/LanguageContext.tsx:43-51 | the language is recorded and stored; the direction is rtl iff Arabic |
| NestedTranslation.LanguageProvider.T | src/contexts/LanguageContext.tsx:63-114 | the try/catch loop computes the translation of the key |
| NestedTranslation.WalkLoop | src/contexts/LanguageContext.tsx:64-73 | the loop that rebinds the result per segment computes the walk, throwing where it does |
| NestedTranslation.Translate | src/contexts/LanguageContext.tsx:63-113 | the reference definition of t: walk the active dictionary, substitute on a string, fall back to English only when the walk throws, else the key (its cases are the Translate* lemmas) |
| NestedTranslation.Substitute | src/contexts/LanguageContext.tsx:81-86 | each parameter in turn replaces every occurrence of its placeholder (SubstituteReplacesAll states that no supplied parameter's placeholder is left, UnmatchedPlaceholderKept that every other one stays, SubstituteAbsent and SubstituteOne the simple cases) |
| Pagination.Previous | src/components/ui/Pagination.tsx:25-29 | previous fires iff the page is above 1, and asks for the page before |
| Pagination.Next | src/components/ui/Pagination.tsx:31-35 | next fires iff the page is below the last, and asks for the page after |
| Pagination.PageButton | src/components/ui/Pagination.tsx:95-109 | an ellipsis entry is plain text; a page-number button asks for its own page |
| Pagination.PageButtonsInRange | src/components/ui/Pagination.tsx:95-109 | every page-number button of the control asks for a page between 1 and the total, and the current page in range has a button |
| Pagination.StepsStayInRange | src/components/ui/Pagination.tsx:25-35 | from a page in range both buttons ask only for pages in range |
| Pagination.Window | src/components/ui/Pagination.tsx:45-55 | the middle window lies strictly between first and last page, spans at most three pages and holds a middle current page |
| Pagination.WindowAroundCurrent | src/components/ui/Pagination.tsx:45-46 | far from both ends the window is the current page and its neighbours |
| Pagination.WindowFull | src/components/ui/Pagination.tsx:48-55 | with five pages or more the window always holds three pages |
| Pagination.Range | src/components/ui/Pagination.tsx:63-65 | the range holds the consecutive pages from start to end |
| Pagination.LayoutContents | src/components/ui/Pagination.tsx:42-75 | the list starts at 1, ends at the last page, holds exactly the window's pages besides those, and an ellipsis for each gap |
| Pagination.LayoutIncreasing | src/components/ui/Pagination.tsx:42-75 | the page numbers increase strictly from left to right |
| Pagination.PageNumbersProperties | src/components/ui/Pagination.tsx:38-78 | the list is bounded by 1 and the last page, at most 7 long, increasing, holds the current page, with each ellipsis iff its gap exists |
| Pagination.GetPageNumbers | src/components/ui/Pagination.tsx:38-78 | the list the method builds with its loop is exactly the layout of the window around the current page, so `PageNumbersProperties` applies to it |
| Pagination.Renders | src/components/ui/Pagination.tsx:23 | the selector renders nothing with one page or none |
| DetailActions.GetButtonState | src/components/ui/opportunity/detail/DetailActions.tsx:50-81 | closed or filled overrides everything; then applied; then signed out asks for the tooltip; else enabled, loading iff applying |
| DetailActions.EnabledIff | src/components/ui/opportunity/detail/DetailActions.tsx:50-81 | the button is enabled iff the opportunity is open, not yet applied and the user signed in |
| DetailActions.TooltipIff | src/components/ui/opportunity/detail/DetailActions.tsx:67-74 | the tooltip is asked for iff the opportunity is open, not applied and the user signed out |
| DetailActions.ApplyButton.constructor | src/components/ui/opportunity/detail/DetailActions.tsx:14-22 | the button starts not applying, not applied, no tooltip |
| DetailActions.ApplyButton.HandleApply | src/components/ui/opportunity/detail/DetailActions.tsx:38-41 | signed out nothing happens; signed in applying starts |
| DetailActions.ApplyButton.CompleteApply | src/components/ui/opportunity/detail/DetailActions.tsx:44-47 | applying ends and the opportunity is applied |
| DetailActions.ApplyButton.MouseEnter | src/components/ui/opportunity/detail/DetailActions.tsx:97 | the tooltip turns on only when the state asks for it |
| DetailActions.ApplyButton.MouseLeave | src/components/ui/opportunity/detail/DetailActions.tsx:98 | the tooltip turns off |
| DetailActions.ApplyScenario | src/components/ui/opportunity/detail/DetailActions.tsx:38-81 | apply now, then applying, then applied |
| DetailActions.SignedOutScenario | src/components/ui/opportunity/detail/DetailActions.tsx:67-74 | signed out the button is disabled and hovering shows the tooltip |
| AuthTypes.IsAdmin | src/types/auth.ts:23-26 | true iff the e-mail is given, non-empty and its lower-case form is listed |
| AuthTypes.IsAdminExact | src/types/auth.ts:16-25 | exactly the two listed addresses, in any letter case, are admins |
| AuthTypes.IsAdminIgnoresCase | src/types/auth.ts:25 | the check ignores letter case |
| AuthTypes.UnlistedSameDomainRefused | src/types/auth.ts:16-25 | an unlisted address on the same domain is refused |
| AuthContext.SessionOf | src/context/auth-context.tsx:143-146 | a session exists iff a user does, and expires 86 400 000 ms after now |
| AuthContext.Persisted | src/context/auth-context.tsx:54-68 | a record is stored iff a user exists |
| AuthContext.AuthProvider.constructor | src/context/auth-context.tsx:34-36 | no user, not admin, unauthenticated |
| AuthContext.AuthProvider.Mount | src/context/auth-context.tsx:39-51 | a stored record restores its user and admin flag as authenticated; no record changes nothing |
| AuthContext.AuthProvider.BeginSignIn | src/context/auth-context.tsx:72 | sign-in passes through loading |
| AuthContext.AuthProvider.CompleteSignIn | src/context/auth-context.tsx:78-96 | the mock admin user signs in, admin, authenticated, sent to the dashboard and stored |
| AuthContext.AuthProvider.BeginSignOut | src/context/auth-context.tsx:105 | sign-out passes through loading |
| AuthContext.AuthProvider.CompleteSignOut | src/context/auth-context.tsx:110-114 | the user is gone, unauthenticated, sent home, the record removed, the admin flag kept |
| AuthContext.AuthProvider.ToggleAdminStatus | src/context/auth-context.tsx:121-140 | without a user nothing changes; otherwise the flag flips and the role follows it |
| AuthContext.SessionScenario | src/context/auth-context.tsx:70-146 | sign-in gives a day-long session; toggling twice restores admin; sign-out clears session and storage |
| AdminLayout.Gate | src/app/admin/layout.tsx:47-58 | the spinner iff loading; the admin shell iff authenticated and admin; nothing otherwise |
| AdminLayout.Redirect | src/app/admin/layout.tsx:36-44 | the only redirect is to /unauthorized |
| AdminLayout.GateAndRedirectAgree | src/app/admin/layout.tsx:36-58 | a redirect is issued exactly when nothing is rendered |
| AdminLayout.GateScenario | src/app/admin/layout.tsx:36-58 | after sign-in the shell shows; after sign-out nothing shows and the user is redirected |
| AdminLayout.AvatarInitial | src/app/admin/layout.tsx:115 | the first letter of the user's name, or 'A' |
| AdminLayout.TitlesBeforeLoad | src/app/admin/layout.tsx:27-33 | before translations load the title is built from the keys |
| AdminLayout.AdminTitleEndsWithSiteName | src/app/admin/layout.tsx:27-33 | the admin title ends with the title restored on leaving |
| AdminLayout.MobileMenu.constructor | src/app/admin/layout.tsx:24 | the menu starts closed |
| AdminLayout.MobileMenu.Toggle | src/app/admin/layout.tsx:71 | the button flips the menu |
| AdminLayout.MobileMenu.BackdropClick | src/app/admin/layout.tsx:127 | a backdrop click closes the menu |
| AdminTypes.MockSummaryData | src/types/admin.ts:50-112 | five pending applications, all before now |
| Dashboard.GroupsShape | src/app/admin/dashboard/page.tsx:57 | the groups rebuild the digits; the first has 1 to 3 digits, the others exactly 3 |
| Dashboard.GroupDigitsJoin | src/app/admin/dashboard/page.tsx:57 | the regex replacement joins the three-digit groups with commas |
| Dashboard.GroupDigitsStrip | src/app/admin/dashboard/page.tsx:57 | removing the commas gives the digits back |
| Dashboard.GroupDigitsHasComma | src/app/admin/dashboard/page.tsx:57 | a comma is inserted iff there are more than three digits |
| Dashboard.NatToStringLength | src/app/admin/dashboard/page.tsx:57 | a number has more than k digits iff it is at least 10^k |
| Dashboard.FormatNumberProperties | src/app/admin/dashboard/page.tsx:56-58 | removing the commas gives the decimal string; splitting at commas gives groups of 3 after a first of 1 to 3; a comma iff n >= 1000 |
| Dashboard.FormatNumberExamples | src/app/admin/dashboard/page.tsx:56-58 | 5238 shows as 5,238 and 261 as 261 |
| Dashboard.TotalUsers | src/app/admin/dashboard/page.tsx:166 | the total is at least each of its parts and the admin count |
| Dashboard.TotalIsSumOfCards | src/app/admin/dashboard/page.tsx:166 | the total card shows active + pending + 3, formatted |
| Dashboard.ViewOf | src/app/admin/dashboard/page.tsx:60-97 | spinner while loading, else the error card with the message or its fallback, else nothing without data, else the content |
| Dashboard.DashboardPage.constructor | src/app/admin/dashboard/page.tsx:28-30 | no data, loading, no error |
| Dashboard.DashboardPage.BeginFetch | src/app/admin/dashboard/page.tsx:36 | loading starts, the rest kept |
| Dashboard.DashboardPage.CompleteFetch | src/app/admin/dashboard/page.tsx:41-48 | the data is stored, the error cleared, loading ends |
| Dashboard.DashboardPage.FailFetch | src/app/admin/dashboard/page.tsx:44-48 | the error is stored, the data kept, loading ends |
| Dashboard.MockCards | src/app/admin/dashboard/page.tsx:135-172 | with the built-in data the total users card reads 261 and the hours card 5,238 |
| Dashboard.LoadScenario | src/app/admin/dashboard/page.tsx:28-97 | the page shows the spinner, then the content with those cards |
| Dashboard.FormatNumber | src/app/admin/dashboard/page.tsx:56-58 | the decimal numeral with a comma before every group of three digits from the right (FormatNumberProperties states the round trip and the group shape) |
| RecentApplications.FirstChars | src/components/admin/RecentApplications.tsx:46-47 | at most one character per piece |
| RecentApplications.GetInitials | src/components/admin/RecentApplications.tsx:43-50 | at most two characters |
| RecentApplications.FirstCharsOfNonEmpty | src/components/admin/RecentApplications.tsx:46-47 | empty pieces contribute nothing: the result is the first characters of the non-empty pieces |
| RecentApplications.InitialsOfWords | src/components/admin/RecentApplications.tsx:43-50 | the initials are the upper-cased first letters of the first two words, in order |
| RecentApplications.WordsHaveNoSpace | src/components/admin/RecentApplications.tsx:45 | the words contain no space |
| RecentApplications.TwoWordInitials | src/components/admin/RecentApplications.tsx:43-50 | two space-free words joined by one space give the capitals of their first letters |
| RecentApplications.MockApplicantInitials | src/types/admin.ts:62 | the first built-in applicant, "Ahmed Mohammed", is shown as AM |
| RecentApplications.DoubledSpaceInitials | src/components/admin/RecentApplications.tsx:43-50 | two words joined by a doubled space give the same initials as with one space: the empty piece between them is skipped |
| RecentApplications.RoundDiv | src/components/admin/RecentApplications.tsx:29-31 | the result is the quotient rounded half up |
| RecentApplications.Bucket | src/components/admin/RecentApplications.tsx:28-39 | minutes iff rounded minutes < 60; hours iff not and rounded hours < 24; otherwise days; hours lie in 1..23, days are at least 1 |
| RecentApplications.MockRelativeTimes | src/components/admin/RecentApplications.tsx:28-39 | the built-in applications read 2, 5, 12 and 18 hours ago and 1 day ago |
| RecentApplications.Body | src/components/admin/RecentApplications.tsx:62-111 | the empty text iff there are no applications; otherwise one row per application in order |
| RecentApplications.EmptyTextOrViewAll | src/components/admin/RecentApplications.tsx:62-115 | exactly one of the empty text and the view-all link shows |
| Opportunities.DefaultsArePageOneOfTen | src/hooks/api/useOpportunities.ts:22-30 | omitted parameters default to empty filters, page 1 and page size 10 |
| Opportunities.DateValue | src/hooks/api/useOpportunities.ts:136 | a date has a value iff it is a well-formed ISO calendar date |
| Opportunities.DateValueChronological | src/hooks/api/useOpportunities.ts:135-141 | date values compare as year, month, day in order |
| Opportunities.SearchStageIsFilter | src/hooks/api/useOpportunities.ts:116-122 | the search stage is the filter on the search condition |
| Opportunities.FilteredIsFilter | src/hooks/api/useOpportunities.ts:113-141 | the chain of stages is one filter on the conjunction of the conditions |
| Opportunities.FilteredMembership | src/hooks/api/useOpportunities.ts:116-141 | an opportunity survives iff it is in the data and matches search, category, location and both inclusive date bounds |
| Opportunities.FilteredKeepsOrder | src/hooks/api/useOpportunities.ts:113-141 | filtering keeps the original order |
| Opportunities.NoFiltersKeepAll | src/hooks/api/useOpportunities.ts:113-141 | with no filters all data is kept |
| Opportunities.InvalidDateBoundEmptiesResult | src/hooks/api/useOpportunities.ts:135-141 | an unparsable date bound removes every record |
| Opportunities.TotalPages | src/hooks/api/useOpportunities.ts:144-145 | the page count is the ceiling of count / pageSize, 0 iff nothing matches |
| Opportunities.PageBounds | src/hooks/api/useOpportunities.ts:148-149 | a page holds at most pageSize items, taken from position (page-1)*pageSize on |
| Opportunities.PagesUpToPrefix | src/hooks/api/useOpportunities.ts:148-149 | the first k pages together are the prefix of k*pageSize items |
| Opportunities.PagesCoverAll | src/hooks/api/useOpportunities.ts:144-149 | pages 1..totalPages concatenated give back the filtered list |
| Opportunities.PagePastEndEmpty | src/hooks/api/useOpportunities.ts:144-149 | a page past the last is empty |
| Opportunities.OpportunitiesHook.constructor | src/hooks/api/useOpportunities.ts:31-34 | no opportunities, loading, no error, one page |
| Opportunities.OpportunitiesHook.BeginFetch | src/hooks/api/useOpportunities.ts:39 | loading starts |
| Opportunities.OpportunitiesHook.CompleteFetch | src/hooks/api/useOpportunities.ts:113-153 | the hook holds the requested page of the filtered data and its page count; loading ends |
| Opportunities.MockUnfilteredIsOnePage | src/hooks/api/useOpportunities.ts:44-145 | the six built-in records with page size 6 make one page |
| Opportunities.Filtered | src/hooks/api/useOpportunities.ts:114-141 | the five successive filters of the hook (FilteredIsFilter and FilteredMembership state what they keep) |
| Opportunities.PageOf | src/hooks/api/useOpportunities.ts:148-149 | the slice of pageSize records from (page-1)*pageSize (PageBounds, PagesCoverAll and PagePastEndEmpty state its properties) |
| Opportunities.WithDefaults | src/hooks/api/useOpportunities.ts:20-29 | a missing parameter takes its default: empty filters, page 1, ten per page |
| OpportunityExamples.FirstTitleHasTranslation | src/hooks/api/useOpportunities.ts:47 | the lower-cased title of record 1 contains "translation" |
| OpportunityExamples.OthersLackTranslation | src/hooks/api/useOpportunities.ts:57-109 | no other record mentions "translation" in its lower-cased title or description |
| OpportunityExamples.SearchTranslationFindsOnlyFirst | src/hooks/api/useOpportunities.ts:44-122 | searching "Translation" among the built-in records finds only record 1 |
| OpportunitiesPage.OpportunitiesPage.Query | src/app/opportunities/page.tsx:43-51 | the query always asks for page size 6 at the current page |
| OpportunitiesPage.OpportunitiesPage.constructor | src/app/opportunities/page.tsx:20-25 | all filters empty, page 1, nothing fetched yet |
| OpportunitiesPage.OpportunitiesPage.SetFilter | src/app/opportunities/page.tsx:54-56 | the filter takes the value, the others stay, and the page goes back to 1 iff the value changed |
| OpportunitiesPage.OpportunitiesPage.HandleReset | src/app/opportunities/page.tsx:59-66 | all five filters are cleared and the page is 1 |
| OpportunitiesPage.OpportunitiesPage.HandlePageChange | src/app/opportunities/page.tsx:69-73 | only the page changes |
| OpportunitiesPage.OpportunitiesPage.HandleRetry | src/app/opportunities/page.tsx:76-79 | re-setting the same page leaves the query as it was |
| OpportunitiesPage.OpportunitiesPage.CommitEffects | src/app/opportunities/page.tsx:43-56 | a fetch runs iff the query differs from the last one fetched |
| OpportunitiesPage.RetryScenario | src/app/opportunities/page.tsx:76-79 | after a fetch, retry fetches nothing |
| OpportunitiesPage.BodyOf | src/app/opportunities/page.tsx:125-161 | six skeletons while loading, else the error state, else the empty state iff no results, else the cards |
| OpportunitiesPage.Summary | src/app/opportunities/page.tsx:113-122 | the summary shows with the cards and reports totalPages * 6 as the total |
| OpportunitiesPage.PaginationAgrees | src/app/opportunities/page.tsx:164 | the selector shows iff not loading, no error and it renders itself |
| OpportunitiesPage.SummaryTotalRoundsUp | src/app/opportunities/page.tsx:116 | the reported total lies in [matches, matches + 6) and equals matches iff it is a multiple of 6 |
| OpportunitiesPage.MockValuesOffered | src/app/opportunities/page.tsx:28-40 | every built-in record's category and location is offered by the filters |
| OpportunitiesPage.FirstVisit | src/app/opportunities/page.tsx:43-56 | with no filters on page 1, the first fetch shows all six built-in records as cards and no page selector |
| OpportunitiesPage.SearchTranslation | src/app/opportunities/page.tsx:54-56 | typing "Translation" into the search box, with the other filters empty, fetches page 1 again and shows record 1 alone |
| OpportunitiesPage.BrowseScenario | src/app/opportunities/page.tsx:43-164 | the first load shows all six records without a selector; searching "Translation" shows only record 1 |
| OpportunityDetail.Title | src/hooks/api/useOpportunityDetail.ts:23-26 | ids 1, 2 and 3 have their own titles; any other id gets "Volunteer Opportunity" |
| OpportunityDetail.JsRem | src/hooks/api/useOpportunityDetail.ts:35 | the truncating remainder agrees with the modulus on non-negatives and is never positive for negatives |
| OpportunityDetail.ImageNumber | src/hooks/api/useOpportunityDetail.ts:35 | an image number exists iff parseInt succeeds; it is 1..3 for non-negative ids |
| OpportunityDetail.ImageForNumericId | src/hooks/api/useOpportunityDetail.ts:35 | for a decimal id the image number is (id mod 3) + 1 |
| OpportunityDetail.ImagePathForNumericId | src/hooks/api/useOpportunityDetail.ts:35 | a decimal id gets one of the three opportunity images |
| OpportunityDetail.ImageCycles | src/hooks/api/useOpportunityDetail.ts:35 | consecutive ids cycle through the three images |
| OpportunityDetail.Location | src/hooks/api/useOpportunityDetail.ts:36 | Makkah iff 1, 3 or 4; Madinah iff 2 or 5; Jeddah otherwise |
| OpportunityDetail.Featured | src/hooks/api/useOpportunityDetail.ts:39 | featured iff 1, 3 or 5 |
| OpportunityDetail.Category | src/hooks/api/useOpportunityDetail.ts:40-43 | Translation iff 1, Guidance iff 2, Assistance iff 3, Services iff 4 or 6, Education otherwise |
| OpportunityDetail.MockDetail | src/hooks/api/useOpportunityDetail.ts:21-67 | the record keeps the id, is always open with deadline 2025-04-30, and its fields follow the rules above |
| OpportunityDetail.OrdinaryIdsLookAlike | src/hooks/api/useOpportunityDetail.ts:21-67 | ids outside 1..6 give the same record apart from id and image |
| OpportunityDetail.FetchedOpportunityOpen | src/hooks/api/useOpportunityDetail.ts:65 | a signed-in visitor can always apply to a fetched opportunity |
| OpportunityDetail.OpportunityDetailHook.constructor | src/hooks/api/useOpportunityDetail.ts:6-8 | no record, loading, no error |
| OpportunityDetail.OpportunityDetailHook.BeginFetch | src/hooks/api/useOpportunityDetail.ts:12-16 | an empty id starts nothing; otherwise loading starts and the error is cleared |
| OpportunityDetail.OpportunityDetailHook.CompleteFetch | src/hooks/api/useOpportunityDetail.ts:69-70 | the record for the id is stored and loading ends |
| OpportunityDetail.EmptyIdScenario | src/hooks/api/useOpportunityDetail.ts:12 | with an empty id the hook stays loading with no record |
| OpportunityDetail.SecondOpportunity | src/hooks/api/useOpportunityDetail.ts:21-43 | id 2 is the Madinah guidance opportunity, not featured |
| OpportunityDetail.FetchScenario | src/hooks/api/useOpportunityDetail.ts:10-79 | fetching id 2 ends with its record and not loading |

## Left out

- Timers and latency (`setTimeout` in the mock query, the auth calls, the apply button, the detail and list hooks, the toast) are not modelled: each asynchronous step is one atomic transition, so timing and interleaving are not captured. The toast is not hidden again after 3 seconds.
- Browser and framework I/O (`localStorage`, `document.documentElement`, `document.title`, `fetch` of the locale file, the Next.js router, `useEffect` dependency tracking) are fields or outputs; the scroll to top on a page change is left out.
- `AuthContext.AuthProvider.Mount`: a stored record that is not valid JSON is not modelled (the code logs and changes nothing); the record is taken as already parsed.
- `UserManagement.KeyCmp`: `localeCompare` is modelled as plain code-unit order, without locale collation.
- `UserManagement.SortInPlace`: modelled as a stable insertion sort. `Array.prototype.sort` is stable too, but `KeyCmp` returns 0 whenever either value is missing, which makes the comparator inconsistent (a missing value is "equal" to values that differ from each other); for such inputs the order the engine produces is not defined and may differ from the model's.
- `NestedTranslation.Get`: inherited and built-in properties are read as `undefined`: `length` of a string or array, and `Object.prototype` members such as `constructor` or `toString` (in JavaScript `t("constructor.name")` reaches the string "Object"); the translation files never use such names.
- `FlatTranslation.Lookup`: a key naming an inherited `Object.prototype` member such as `constructor` reads a function in JavaScript, which is truthy and returned; the model treats it as missing and returns the key.
- `UserManagement.SortKey`: sort keys that are not fields of a user (prototype properties such as `constructor`) are treated as missing.
- `Text.LowerStr` and `Text.UpperStr` map ASCII letters only; Unicode case mapping is not modelled.
- `Text.ParseInt` treats only ASCII spaces, tabs and line breaks as leading white space.
- `Text.ParseInt`: the result is an exact integer. JavaScript's `parseInt` returns a double, which rounds above 2^53 and overflows to `Infinity` beyond about 309 digits.
- `OpportunityDetail.ImageNumber`: computed on the exact integer, so for an id above 2^53 the source's image can differ (for "9007199254740993" the source picks image 3 and the model image 1), and for an id of about 310 or more digits the source computes NaN.
- `OpportunityDetail.ImageForNumericId`: (id mod 3) + 1 holds in the source only for ids below 2^53.
- `OpportunityDetail.ImagePathForNumericId`: a decimal id of about 310 or more digits gives `/images/opportunityNaN.jpg` in the source, not one of the three images.
- `OpportunityDetail.ImageCycles`: the source follows the cycle only for ids below 2^53.
- The `console.error` and `console.warn` logging in the providers, the hooks and the auth context (src/context/auth-context.tsx:45-117) is left out: it has no effect on state.
- `NestedTranslation.SubstituteParams`: parameter names with regular-expression metacharacters and `$` patterns in values are not modelled; names and values are plain.
- `Opportunities.DateValue` checks the `YYYY-MM-DD` shape and month range but not the day's validity for the month, and ignores the other formats `new Date` accepts; a malformed bound is an invalid date that removes every record.
- `Opportunities.TotalPages` and `Opportunities.PageBounds` require a positive page size (the code only ever passes 6 or 10); a zero or negative size is not modelled.
- The unreachable `catch` blocks of the list and detail hooks are left out: an error inside the timer callback never reaches them.
- `UserManagement.SimulateUserAction`: the admitted user's `lastActive` is the `now` parameter rather than a clock read.
- `RecentApplications.Bucket`: `Math.round` of a float quotient is modelled as round-half-up integer division; the date strings are taken as millisecond integers.
- The dashboard's welcome date, every `toLocaleDateString`, `Intl.DateTimeFormat` and date-fns formatting, and all markup-only components (cards, skeletons, dialogs, navigation, filter widgets, language switchers) are left out.
- `OpportunitiesPage.OpportunitiesPage.SetFilter` changes the filter and resets the page in one step; the intermediate render that would fetch the new filter on the old page before the reset is not modelled.
- The details modal's document preview and spinner labels are left out beyond the documents-panel condition.
- `OpportunityDetail.MockDetail`: the long description and the map coordinates (floats) are left out; the record type is not declared anywhere in the repository, so its fields follow the object literal.
- `src/types/admin.ts` is modelled only as the constant data the dashboard and the recent-applications list show.

## Behaviour of the code worth knowing

Each of these follows from the source as written, sometimes against its own comments or call sites; the model keeps the behaviour and the named member states it.

- `NestedTranslation.TranslateNotStringNoFallback`, `NestedTranslation.MissingLastSegmentReturnsKey`: the comment at src/contexts/LanguageContext.tsx:91 promises an English fallback when a translation is missing, but the `catch` at lines 89-112 is reached only when the walk throws: an intermediate segment is undefined (lines 69-70) or null. A missing last segment leaves `undefined`, fails the string test at line 75 and returns the key (line 77).
- `Opportunities.InvalidDateBoundEmptiesResult`: src/hooks/api/useOpportunities.ts:135-141 compares with `new Date(dateFrom)` and `new Date(dateTo)`. An unparsable bound is an invalid date, every comparison with it is false, and every opportunity is removed.
- `AdminUsersPage.ConfirmationIgnoresUser`: src/app/admin/users/page.tsx:159-179 passes `{ name: user.name }`, but the mounted translator at src/context/language-context.tsx:81-83 takes only the key. The `{name}` placeholder is therefore shown as written.
- `AuthContext.AuthProvider.CompleteSignOut`: `signOutUser` at src/context/auth-context.tsx:103-118 clears the user and the status but never resets `isAdmin`.
- `NestedTranslation.NestedPlaceholderReappears`: src/contexts/LanguageContext.tsx:83-84 replaces each placeholder once, left to right, so a placeholder nested in braces can form again from the replaced text: substituting n = "n" in "{{n}}" leaves "{n}". `NestedTranslation.SubstituteReplacesAll` shows that this needs nested braces.
- `OpportunitiesPage.RetryScenario`: `handleRetry` at src/app/opportunities/page.tsx:76-79 sets the page to its current value. React then re-renders nothing and the hook's effect, keyed on its parameters, does not run again, so nothing is fetched although the comment at line 77 says the hook retries.
