/**
  The decisions of the user table, `src/components/admin/users/UserTable.tsx`:
  the sort arrow on column headers, the empty state, which columns each tab
  shows, which buttons each row carries, and the skeleton rows while loading.
 */
module UserTable {
  import opened Wrappers
  import opened UserManagement

  /** The three tabs of the user-management page, also the table's `userType`. */
  datatype Tab = PendingTab | ActiveTab | AdminTab

  /** `getSortIndicator(field)`: an arrow on the current sort column only. */
  function SortIndicator(sortField: Option<string>, sortDirection: Option<SortOrder>, field: string): (r: Option<char>)
    ensures r.Some? <==> sortField == Some(field)
    ensures r.Some? ==> (r.value == '↑' <==> sortDirection == Some(Asc))
    ensures r.Some? ==> (r.value == '↓' <==> sortDirection != Some(Asc))
  {
    if sortField != Some(field) then None
    else if sortDirection == Some(Asc) then Some('↑')
    else Some('↓')
  }

  /** At most one column header carries an arrow. */
  lemma OneIndicator(sortField: Option<string>, sortDirection: Option<SortOrder>, f1: string, f2: string)
    requires SortIndicator(sortField, sortDirection, f1).Some? && SortIndicator(sortField, sortDirection, f2).Some?
    ensures f1 == f2
  {
  }

  /** The empty state replaces the table when nothing is listed and nothing is loading. */
  predicate ShowsEmptyState(users: seq<ManagedUser>, isLoading: bool) {
    |users| == 0 && !isLoading
  }

  /** The empty state's message key for each tab. */
  function EmptyMessageKey(userType: Tab): string {
    match userType
    case PendingTab => "noPendingUsers"
    case AdminTab => "noAdminUsers"
    case ActiveTab => "noActiveUsers"
  }

  /** The "clear search" button of the empty state shows for a non-empty search. */
  predicate ShowsClearSearch(searchQuery: string) {
    searchQuery != ""
  }

  datatype Column = NameColumn | EmailColumn | RoleColumn | LastActiveColumn | JoinedAtColumn | StatusColumn | ActionsColumn

  /** The header columns, left to right. */
  function Columns(userType: Tab): (r: seq<Column>)
    ensures RoleColumn in r <==> userType == AdminTab
    ensures LastActiveColumn in r <==> userType != PendingTab
    ensures |r| == 5 + (if userType == AdminTab then 1 else 0) + (if userType != PendingTab then 1 else 0)
    ensures r[0] == NameColumn && r[1] == EmailColumn && r[|r| - 1] == ActionsColumn
  {
    [NameColumn, EmailColumn]
    + (if userType == AdminTab then [RoleColumn] else [])
    + (if userType != PendingTab then [LastActiveColumn] else [])
    + [JoinedAtColumn, StatusColumn, ActionsColumn]
  }

  /** What the last-active cell holds: the (formatted) date when there is one, else a dash. */
  datatype LastActiveCell = Dash | ActiveOn(date: string)

  function LastActiveCellOf(u: ManagedUser): (r: LastActiveCell)
    ensures r == Dash <==> u.lastActive.None? || u.lastActive.value == ""
  {
    if u.lastActive.Some? && u.lastActive.value != "" then ActiveOn(u.lastActive.value) else Dash
  }

  datatype RowButton = ViewButton | AdmitButton | RevokeButton | PromoteButton

  /** The buttons of a row, in order; the callbacks are modelled by whether they were passed. */
  function RowButtons(userType: Tab, onAdmit: bool, onRevoke: bool, onPromote: bool, u: ManagedUser): (r: seq<RowButton>)
    ensures |r| >= 1 && r[0] == ViewButton
    ensures AdmitButton in r <==> userType == PendingTab && onAdmit
    ensures RevokeButton in r <==> userType == ActiveTab && onRevoke
    ensures PromoteButton in r <==> userType == ActiveTab && onPromote && u.role == User
  {
    [ViewButton]
    + (if userType == PendingTab && onAdmit then [AdmitButton] else [])
    + (if userType == ActiveTab && onRevoke then [RevokeButton] else [])
    + (if userType == ActiveTab && onPromote && u.role == User then [PromoteButton] else [])
  }

  /**
    With the callbacks the user-management page passes to each tab — admit on
    pending; revoke and promote on active; revoke on admin — the admin tab
    still shows no revoke button, and promote appears only for plain users.
   */
  lemma RowButtonsOnPage(u: ManagedUser)
    ensures RowButtons(PendingTab, true, false, false, u) == [ViewButton, AdmitButton]
    ensures RowButtons(AdminTab, false, true, false, u) == [ViewButton]
    ensures RowButtons(ActiveTab, false, true, true, u)
      == if u.role == User then [ViewButton, RevokeButton, PromoteButton] else [ViewButton, RevokeButton]
  {
  }

  /** The number of body rows: five skeleton rows while loading, else one per user. */
  function BodyRows(users: seq<ManagedUser>, isLoading: bool): (r: nat)
    ensures isLoading ==> r == 5
  {
    if isLoading then 5 else |users|
  }
}
