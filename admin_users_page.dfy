/**
  The user-management page of `src/app/admin/users/page.tsx`: the tab read
  from the URL, the query each tab sends, the sort toggle, the confirmation
  dialog, and how the list is updated once an action has run.
 */
module AdminUsersPage {
  import opened Wrappers
  import opened Seqs
  import opened UserManagement
  import FlatTranslation
  import opened UserTable

  /** `getTabFromUrl`: `active` and `admin` are taken as they are, anything else (or nothing) is `pending`. */
  function GetTabFromUrl(tab: Option<string>): (r: Tab)
    ensures r == ActiveTab <==> tab == Some("active")
    ensures r == AdminTab <==> tab == Some("admin")
  {
    if tab == Some("active") then ActiveTab
    else if tab == Some("admin") then AdminTab
    else PendingTab
  }

  /** The query the list effect sends for a tab, the current sort and the search text. */
  function QueryFor(tab: Tab, sortField: string, sortDirection: SortOrder, search: string): UserQuery {
    var base := UserQuery(None, None, Some(search), Some(sortField), Some(sortDirection), None, None);
    match tab
    case PendingTab => base.(status := Some(Pending))
    case ActiveTab => base.(status := Some(Active))
    case AdminTab => base.(role := Some(Admin))
  }

  /**
    What each tab lists: the pending tab only pending users, the active tab
    only active users, the admin tab only users whose role is exactly admin,
    so never a super admin. No tab asks for a page.
   */
  lemma TabQueryFilters(table: seq<ManagedUser>, tab: Tab, sortField: string, sortDirection: SortOrder, search: string, u: ManagedUser)
    requires u in Query(table, QueryFor(tab, sortField, sortDirection, search))
    ensures u in table
    ensures tab == PendingTab ==> u.status == Pending
    ensures tab == ActiveTab ==> u.status == Active
    ensures tab == AdminTab ==> u.role == Admin
  {
    QueryRespectsFilters(table, QueryFor(tab, sortField, sortDirection, search), u);
  }

  /** Every user of the table that passes the tab's test and the search is listed. */
  lemma TabQueryComplete(table: seq<ManagedUser>, tab: Tab, sortField: string, sortDirection: SortOrder, search: string, u: ManagedUser)
    requires u in table
    requires Keeps(QueryFor(tab, sortField, sortDirection, search), u)
    ensures u in Query(table, QueryFor(tab, sortField, sortDirection, search))
  {
    var q := QueryFor(tab, sortField, sortDirection, search);
    SelectedMembership(table, q, u);
    QueryIsPermutation(table, q);
    assert u in multiset(Selected(table, q));
  }

  /**
    `handleSort`: the current field flips the direction, another field is
    selected in ascending order.
   */
  function SortAfter(sortField: string, sortDirection: SortOrder, clicked: string): (r: (string, SortOrder))
    ensures r.0 == clicked
    ensures clicked == sortField ==> r.1 != sortDirection
    ensures clicked != sortField ==> r.1 == Asc
  {
    if sortField == clicked then (sortField, if sortDirection == Asc then Desc else Asc)
    else (clicked, Asc)
  }

  /** Clicking the same column twice restores the sort. */
  lemma SortToggleTwice(sortField: string, sortDirection: SortOrder)
    ensures var once := SortAfter(sortField, sortDirection, sortField);
      SortAfter(once.0, once.1, sortField) == (sortField, sortDirection)
  {
  }

  /** The confirmation dialog is styled as a success for admit and promote, as a warning otherwise. */
  datatype DialogType = Success | Warning

  datatype PendingAction = PendingAction(action: UserAction, user: ManagedUser)

  function DialogTypeOf(pending: Option<PendingAction>): (r: DialogType)
    ensures r == Success <==> pending.Some? && (pending.value.action == Admit || pending.value.action == Promote)
  {
    if pending.Some? && (pending.value.action == Admit || pending.value.action == Promote) then Success else Warning
  }

  /** The translation keys of the dialog's title and message for an action. */
  function ConfirmationKeys(action: UserAction): (string, string) {
    match action
    case Admit => ("confirmAdmit", "confirmAdmitMessage")
    case Revoke => ("confirmRevoke", "confirmRevokeMessage")
    case Promote => ("confirmPromote", "confirmPromoteMessage")
    case Block => ("confirmBlock", "confirmBlockMessage")
    case Delete => ("confirmDelete", "confirmDeleteMessage")
    case Unknown(_) => ("confirmAction", "confirmActionMessage")
  }

  /**
    `getConfirmationMessage` under the mounted translator, whose `t` takes the
    key alone: the `{ name }` argument passed with the message is dropped.
   */
  function ConfirmationMessage(translations: map<string, string>, pending: Option<PendingAction>): (r: (string, string))
    ensures pending.None? ==> r == ("", "")
  {
    if pending.None? then ("", "")
    else
      var (title, message) := ConfirmationKeys(pending.value.action);
      (FlatTranslation.Lookup(translations, title), FlatTranslation.Lookup(translations, message))
  }

  /** The dialog text does not depend on which user the action is for. */
  lemma ConfirmationIgnoresUser(translations: map<string, string>, action: UserAction, u1: ManagedUser, u2: ManagedUser)
    ensures ConfirmationMessage(translations, Some(PendingAction(action, u1)))
      == ConfirmationMessage(translations, Some(PendingAction(action, u2)))
  {
  }

  /** The actions after which the user no longer belongs on the tab they were acted on from. */
  predicate LeavesTab(tab: Tab, action: UserAction) {
    (tab == PendingTab && action == Admit) || (tab == ActiveTab && (action == Revoke || action == Promote))
  }

  /** `users.map(u => u.id === id && replacement ? replacement : u)` */
  function ReplaceById(users: seq<ManagedUser>, id: string, replacement: Option<ManagedUser>): (r: seq<ManagedUser>)
    ensures |r| == |users|
    ensures forall i :: 0 <= i < |users| && users[i].id != id ==> r[i] == users[i]
    ensures forall i :: 0 <= i < |users| && users[i].id == id ==> r[i] == if replacement.Some? then replacement.value else users[i]
  {
    seq(|users|, i requires 0 <= i < |users| => if users[i].id == id && replacement.Some? then replacement.value else users[i])
  }

  /** The list after a successful action on user `id`. */
  function UpdatedList(users: seq<ManagedUser>, tab: Tab, action: UserAction, id: string, replacement: Option<ManagedUser>): seq<ManagedUser> {
    if LeavesTab(tab, action) then Filter(users, (u: ManagedUser) => u.id != id)
    else ReplaceById(users, id, replacement)
  }

  /** An action that moves the user off the tab removes exactly the entries with that id, keeping the order of the rest. */
  lemma UpdatedListRemoves(users: seq<ManagedUser>, tab: Tab, action: UserAction, id: string, replacement: Option<ManagedUser>, u: ManagedUser)
    requires LeavesTab(tab, action)
    ensures u in UpdatedList(users, tab, action, id, replacement) <==> u in users && u.id != id
    ensures IsSubsequence(UpdatedList(users, tab, action, id, replacement), users)
  {
    FilterMembership(users, (u: ManagedUser) => u.id != id, u);
    FilterIsSubsequence(users, (u: ManagedUser) => u.id != id);
  }

  /**
    Any other successful action replaces the entry by the returned record in
    place; since that record keeps its id, the ids and their order are unchanged.
   */
  lemma UpdatedListReplaces(users: seq<ManagedUser>, tab: Tab, action: UserAction, id: string, updated: ManagedUser)
    requires !LeavesTab(tab, action) && updated.id == id
    ensures var r := UpdatedList(users, tab, action, id, Some(updated));
      |r| == |users|
      && (forall i :: 0 <= i < |r| ==> r[i].id == users[i].id)
      && (forall i :: 0 <= i < |r| ==> r[i] == if users[i].id == id then updated else users[i])
  {
  }

  /** The transient notice shown after an action. */
  datatype ToastKind = ToastSuccess | ToastError
  datatype Toast = Toast(visible: bool, message: string, kind: ToastKind)

  class UserManagementPage {
    var activeTab: Tab
    var searchQuery: string
    var sortField: string
    var sortDirection: SortOrder
    var users: seq<ManagedUser>
    var isLoading: bool
    var selectedUser: Option<ManagedUser>
    var isModalOpen: bool
    var isConfirmDialogOpen: bool
    var pendingAction: Option<PendingAction>
    var isActionLoading: bool
    var toast: Toast

    /** The initial state for the page opened with `?tab=<urlTab>`. */
    constructor(urlTab: Option<string>)
      ensures activeTab == GetTabFromUrl(urlTab) && searchQuery == ""
      ensures sortField == "joinedAt" && sortDirection == Desc
      ensures users == [] && isLoading && selectedUser.None? && !isModalOpen
      ensures !isConfirmDialogOpen && pendingAction.None? && !isActionLoading
      ensures toast == Toast(false, "", ToastSuccess)
    {
      activeTab := GetTabFromUrl(urlTab);
      searchQuery := "";
      sortField := "joinedAt";
      sortDirection := Desc;
      users := [];
      isLoading := true;
      selectedUser := None;
      isModalOpen := false;
      isConfirmDialogOpen := false;
      pendingAction := None;
      isActionLoading := false;
      toast := Toast(false, "", ToastSuccess);
    }

    function CurrentQuery(): UserQuery
      reads this
    {
      QueryFor(activeTab, sortField, sortDirection, searchQuery)
    }

    /** The list effect, with the delay collapsed: fetch the users the current query selects from `table`. */
    method FetchUsers(table: seq<ManagedUser>)
      modifies this
      ensures users == Query(table, old(CurrentQuery())) && !isLoading
      ensures activeTab == old(activeTab) && searchQuery == old(searchQuery)
      ensures sortField == old(sortField) && sortDirection == old(sortDirection)
      ensures selectedUser == old(selectedUser) && isModalOpen == old(isModalOpen)
      ensures isConfirmDialogOpen == old(isConfirmDialogOpen) && pendingAction == old(pendingAction)
      ensures isActionLoading == old(isActionLoading) && toast == old(toast)
    {
      isLoading := true;
      var fetched := GetMockUsers(table, CurrentQuery());
      users := fetched;
      isLoading := false;
    }

    method HandleTabChange(tab: Tab)
      modifies this
      ensures activeTab == tab
      ensures searchQuery == old(searchQuery) && sortField == old(sortField) && sortDirection == old(sortDirection)
      ensures users == old(users) && isLoading == old(isLoading) && pendingAction == old(pendingAction)
      ensures selectedUser == old(selectedUser) && isModalOpen == old(isModalOpen)
      ensures isConfirmDialogOpen == old(isConfirmDialogOpen) && isActionLoading == old(isActionLoading) && toast == old(toast)
    {
      activeTab := tab;
    }

    method HandleSearch(query: string)
      modifies this
      ensures searchQuery == query
      ensures activeTab == old(activeTab) && sortField == old(sortField) && sortDirection == old(sortDirection)
      ensures users == old(users) && isLoading == old(isLoading) && pendingAction == old(pendingAction)
      ensures selectedUser == old(selectedUser) && isModalOpen == old(isModalOpen)
      ensures isConfirmDialogOpen == old(isConfirmDialogOpen) && isActionLoading == old(isActionLoading) && toast == old(toast)
    {
      searchQuery := query;
    }

    /** `handleSort` */
    method HandleSort(field: string)
      modifies this
      ensures (sortField, sortDirection) == SortAfter(old(sortField), old(sortDirection), field)
      ensures activeTab == old(activeTab) && searchQuery == old(searchQuery)
      ensures users == old(users) && isLoading == old(isLoading) && pendingAction == old(pendingAction)
      ensures selectedUser == old(selectedUser) && isModalOpen == old(isModalOpen)
      ensures isConfirmDialogOpen == old(isConfirmDialogOpen) && isActionLoading == old(isActionLoading) && toast == old(toast)
    {
      if sortField == field {
        sortDirection := if sortDirection == Asc then Desc else Asc;
      } else {
        sortField := field;
        sortDirection := Asc;
      }
    }

    /** `handleViewDetails` */
    method HandleViewDetails(u: ManagedUser)
      modifies this
      ensures selectedUser == Some(u) && isModalOpen
      ensures activeTab == old(activeTab) && searchQuery == old(searchQuery)
      ensures sortField == old(sortField) && sortDirection == old(sortDirection)
      ensures users == old(users) && isLoading == old(isLoading) && pendingAction == old(pendingAction)
      ensures isConfirmDialogOpen == old(isConfirmDialogOpen) && isActionLoading == old(isActionLoading) && toast == old(toast)
    {
      selectedUser := Some(u);
      isModalOpen := true;
    }

    /** `handleAction`: remember the action and ask for confirmation. */
    method HandleAction(u: ManagedUser, action: UserAction)
      modifies this
      ensures pendingAction == Some(PendingAction(action, u)) && isConfirmDialogOpen
      ensures activeTab == old(activeTab) && searchQuery == old(searchQuery)
      ensures sortField == old(sortField) && sortDirection == old(sortDirection)
      ensures users == old(users) && isLoading == old(isLoading)
      ensures selectedUser == old(selectedUser) && isModalOpen == old(isModalOpen)
      ensures isActionLoading == old(isActionLoading) && toast == old(toast)
    {
      pendingAction := Some(PendingAction(action, u));
      isConfirmDialogOpen := true;
    }

    /**
      The outcome of an action call: a success shows a success toast, closes the
      details modal and updates the list; a failure shows an error toast. Either
      way loading ends, the dialog closes and the pending action is cleared.
     */
    method FinishAction(action: UserAction, id: string, response: ActionResponse)
      modifies this
      ensures !isActionLoading && !isConfirmDialogOpen && pendingAction.None?
      ensures toast == Toast(true, response.message, if response.success then ToastSuccess else ToastError)
      ensures response.success ==> !isModalOpen && users == UpdatedList(old(users), activeTab, action, id, response.user)
      ensures !response.success ==> isModalOpen == old(isModalOpen) && users == old(users)
      ensures activeTab == old(activeTab) && searchQuery == old(searchQuery)
      ensures sortField == old(sortField) && sortDirection == old(sortDirection)
      ensures isLoading == old(isLoading) && selectedUser == old(selectedUser)
    {
      if response.success {
        toast := Toast(true, response.message, ToastSuccess);
        if isModalOpen {
          isModalOpen := false;
        }
        users := UpdatedList(users, activeTab, action, id, response.user);
      } else {
        toast := Toast(true, response.message, ToastError);
      }
      isActionLoading := false;
      isConfirmDialogOpen := false;
      pendingAction := None;
    }

    /**
      `executePendingAction`, with the simulated call run against `table` at
      time `now`. Without a pending action nothing changes. Otherwise the call
      succeeds exactly when the user exists and the action is known. A success
      toasts the action's message and replaces the entry by the table's record
      with the action applied, or removes it when the action moves the user off
      the current tab; a failure toasts "User not found" or "Invalid action".
     */
    method ExecutePendingAction(table: seq<ManagedUser>, now: string)
      modifies this
      ensures old(pendingAction).None? ==>
        users == old(users) && isConfirmDialogOpen == old(isConfirmDialogOpen)
        && isActionLoading == old(isActionLoading) && toast == old(toast) && isModalOpen == old(isModalOpen)
        && pendingAction.None?
      ensures old(pendingAction).Some? ==>
        !isActionLoading && !isConfirmDialogOpen && pendingAction.None? && toast.visible
      ensures old(pendingAction).Some? ==>
        var p := old(pendingAction).value;
        if FindUser(table, p.user.id).Some? && !p.action.Unknown? then
          toast == Toast(true, SuccessMessage(p.action), ToastSuccess) && !isModalOpen
          && users == UpdatedList(old(users), activeTab, p.action, p.user.id,
                                  Some(Applied(FindUser(table, p.user.id).value, p.action, now)))
        else
          toast == Toast(true, if FindUser(table, p.user.id).None? then "User not found" else "Invalid action", ToastError)
          && users == old(users) && isModalOpen == old(isModalOpen)
      ensures activeTab == old(activeTab) && searchQuery == old(searchQuery)
      ensures sortField == old(sortField) && sortDirection == old(sortDirection)
      ensures isLoading == old(isLoading) && selectedUser == old(selectedUser)
    {
      if pendingAction.None? {
        return;
      }
      var PendingAction(action, u) := pendingAction.value;
      isActionLoading := true;
      var response := SimulateUserAction(table, u.id, action, now);
      FinishAction(action, u.id, response);
    }
  }
}
