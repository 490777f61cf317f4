/**
 * Board access control: who may open, edit, delete and share a board. The
 * stored document is an input (absent when the board has no file).
 */
module BoardAuth {
  import opened Wrappers
  import opened BoardTypes

  datatype AccessResult = AccessResult(authorized: bool, isOwner: bool, board: Option<BoardData>)

  /** Legacy documents: a missing `ownerId` becomes `null`, missing `editors` become `[]`. */
  function Backfill(b: BoardData): (r: BoardData)
    ensures r.ownerId == (if b.ownerId == Missing then Public else b.ownerId)
    ensures r.editors == (if b.editors.None? then Some([]) else b.editors)
    ensures r == b.(ownerId := r.ownerId, editors := r.editors)
  {
    b.(ownerId := if b.ownerId == Missing then Public else b.ownerId,
       editors := if b.editors.None? then Some([]) else b.editors)
  }

  /**
   * `checkBoardAccess`: no document means no access; a public board is open
   * to every user, who is never its owner; an owned board is open to its
   * owner and its editors, and only the owner is the owner.
   */
  function CheckBoardAccess(stored: Option<BoardData>, userId: UserId): (r: AccessResult)
    ensures stored.None? ==> r == AccessResult(false, false, None)
    ensures stored.Some? ==> r.board == Some(Backfill(stored.value))
    ensures stored.Some? && Backfill(stored.value).ownerId == Public ==> r.authorized && !r.isOwner
    ensures stored.Some? && stored.value.ownerId.OwnedBy? ==>
      var owner := stored.value.ownerId.user;
      var editors := Backfill(stored.value).editors.value;
      && (r.isOwner <==> owner == userId)
      && (r.authorized <==> owner == userId || userId in editors)
  {
    if stored.None? then AccessResult(false, false, None)
    else
      var board := Backfill(stored.value);
      if board.ownerId == Public then AccessResult(true, false, Some(board))
      else
        var isOwner := board.ownerId == OwnedBy(userId);
        var isEditor := userId in board.editors.value;
        AccessResult(isOwner || isEditor, isOwner, Some(board))
  }

  /** `canManageSharing`: only the owner of an owned board. */
  function CanManageSharing(board: BoardData, userId: UserId): (r: bool)
    ensures r <==> board.ownerId == OwnedBy(userId)
  {
    board.ownerId != Public && board.ownerId == OwnedBy(userId)
  }

  /** `canDeleteBoard`: anyone for a public board, only the owner otherwise. */
  function CanDeleteBoard(board: BoardData, userId: UserId): (r: bool)
    ensures board.ownerId == Public ==> r
    ensures board.ownerId != Public ==> (r <==> board.ownerId == OwnedBy(userId))
  {
    if board.ownerId == Public then true else board.ownerId == OwnedBy(userId)
  }

  /** The owner of a board always has access to it. */
  lemma OwnerIsAuthorized(stored: Option<BoardData>, userId: UserId)
    ensures CheckBoardAccess(stored, userId).isOwner ==> CheckBoardAccess(stored, userId).authorized
  {
  }

  /** Whoever may manage sharing may delete the board; on a public board nobody manages sharing. */
  lemma SharingImpliesDelete(board: BoardData, userId: UserId)
    ensures CanManageSharing(board, userId) ==> CanDeleteBoard(board, userId)
    ensures board.ownerId == Public ==> !CanManageSharing(board, userId)
  {
  }

  /**
   * On the document `checkBoardAccess` returns, managing sharing is exactly
   * being the owner, and whoever may delete the board has access to it.
   */
  lemma AccessAgreesWithPermissions(stored: BoardData, userId: UserId)
    ensures var r := CheckBoardAccess(Some(stored), userId);
      && (CanManageSharing(r.board.value, userId) <==> r.isOwner)
      && (CanDeleteBoard(r.board.value, userId) ==> r.authorized)
  {
  }

  /**
   * A legacy document whose `ownerId` was never written is public once
   * backfilled; passed to the permission checks without the backfill it can
   * be deleted by nobody.
   */
  lemma LegacyBoardPermissions(stored: BoardData, userId: UserId)
    requires stored.ownerId == Missing
    ensures CheckBoardAccess(Some(stored), userId).authorized
    ensures CanDeleteBoard(Backfill(stored), userId)
    ensures !CanDeleteBoard(stored, userId) && !CanManageSharing(stored, userId)
  {
  }
}
