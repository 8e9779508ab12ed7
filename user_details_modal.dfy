/**
  The decisions of the user-details modal, `src/components/admin/users/UserDetailsModal.tsx`:
  whether it renders, which action buttons it offers, when a click on the
  backdrop closes it, and whether the documents panel shows. A callback prop
  is modelled by whether it was passed.
 */
module UserDetailsModal {
  import opened Wrappers
  import opened UserManagement

  /** Nothing renders unless the modal is open and has a user. */
  predicate Renders(isOpen: bool, user: Option<ManagedUser>) {
    isOpen && user.Some?
  }

  predicate CanAdmit(u: ManagedUser, onAdmit: bool) { u.status == Pending && onAdmit }
  predicate CanRevoke(u: ManagedUser, onRevoke: bool) { u.status == Active && onRevoke }
  predicate CanPromote(u: ManagedUser, onPromote: bool) { u.status == Active && u.role == User && onPromote }
  predicate CanBlock(u: ManagedUser, onBlock: bool) { u.status != Blocked && onBlock }

  /** The action buttons shown, in their order on screen. */
  function OfferedActions(u: ManagedUser, onAdmit: bool, onRevoke: bool, onPromote: bool, onBlock: bool): (r: seq<UserAction>)
    ensures Admit in r <==> u.status == Pending && onAdmit
    ensures Revoke in r <==> u.status == Active && onRevoke
    ensures Promote in r <==> u.status == Active && u.role == User && onPromote
    ensures Block in r <==> u.status != Blocked && onBlock
    ensures Delete !in r
  {
    (if CanAdmit(u, onAdmit) then [Admit] else [])
    + (if CanRevoke(u, onRevoke) then [Revoke] else [])
    + (if CanPromote(u, onPromote) then [Promote] else [])
    + (if CanBlock(u, onBlock) then [Block] else [])
  }

  /**
    With every callback passed, as the user-management page does: admit and
    revoke are never offered together, a blocked user is offered nothing, and
    an inactive user can only be blocked.
   */
  lemma OfferedOnPage(u: ManagedUser)
    ensures !(Admit in OfferedActions(u, true, true, true, true) && Revoke in OfferedActions(u, true, true, true, true))
    ensures u.status == Blocked ==> OfferedActions(u, true, true, true, true) == []
    ensures u.status == Inactive ==> OfferedActions(u, true, true, true, true) == [Block]
    ensures Promote in OfferedActions(u, true, true, true, true) ==> Revoke in OfferedActions(u, true, true, true, true)
  {
  }

  /** A backdrop click closes only when it lands on the backdrop itself and no action is running. */
  predicate BackdropCloses(targetIsBackdrop: bool, isActionLoading: bool) {
    targetIsBackdrop && !isActionLoading
  }

  /** A JavaScript string is truthy when it is present and not empty. */
  predicate Truthy(s: Option<string>) {
    s.Some? && s.value != ""
  }

  predicate ShowsNationalId(u: ManagedUser) { u.documents.Some? && Truthy(u.documents.value.nationalId) }
  predicate ShowsSelfie(u: ManagedUser) { u.documents.Some? && Truthy(u.documents.value.selfie) }

  /** `user.documents && (user.documents.nationalId || user.documents.selfie)` */
  predicate ShowsDocuments(u: ManagedUser) {
    u.documents.Some? && (Truthy(u.documents.value.nationalId) || Truthy(u.documents.value.selfie))
  }

  /** The documents panel shows exactly when it has at least one image to show. */
  lemma DocumentsPanelNeverEmpty(u: ManagedUser)
    ensures ShowsDocuments(u) <==> ShowsNationalId(u) || ShowsSelfie(u)
  {
  }

  /** The full-size preview shows for a selected, non-empty document address. */
  predicate ShowsPreview(selectedDocument: Option<string>) {
    Truthy(selectedDocument)
  }
}
