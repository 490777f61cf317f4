/**
 * The account tables behind sign-up, e-mail verification, password reset
 * and board ownership: users with unique lower-cased e-mail addresses,
 * single-use e-mail tokens with at most one live token per user and kind,
 * and (board, user) ownership rows.
 *
 * The SQLite tables are fields of `Store`: users and tokens as sequences
 * in insertion order, ownership rows as a set (its primary key is the whole
 * row). Each statement's effect is written out, including the constraint
 * failures that make it throw. Ids, token values and times are parameters;
 * times are milliseconds since the epoch.
 */
module AuthStore {
  import opened Wrappers
  import opened Text

  type UserId = string

  datatype TokenKind = Verify | Reset

  /** A row of `users`. */
  datatype User = User(id: UserId, email: string, passwordHash: string, name: string, emailVerified: bool, createdAt: string)

  /** What `createUser` returns. */
  datatype AuthUser = AuthUser(id: UserId, email: string, name: string, emailVerified: bool, createdAt: string)

  /** A row of `email_tokens`. */
  datatype EmailToken = EmailToken(id: string, userId: UserId, kind: TokenKind, token: string, expiresAt: int, used: bool)

  /** A row of `board_ownership`; the role is always "owner". */
  datatype Ownership = Ownership(boardId: string, userId: UserId)

  /** Why a statement throws: a UNIQUE or PRIMARY KEY clash, or a missing referenced user. */
  datatype DbError = UniqueViolation | ForeignKeyViolation

  /** How long a token lives: 24 hours to verify an address, 1 hour to reset a password. */
  function Lifetime(kind: TokenKind): (ms: int)
    ensures ms > 0
    ensures kind == Verify ==> ms == 86400000
    ensures kind == Reset ==> ms == 3600000
  {
    (if kind == Verify then 24 else 1) * 60 * 60 * 1000
  }

  /** A token that may still be consumed. */
  predicate Live(t: EmailToken, userId: UserId, kind: TokenKind) {
    t.userId == userId && t.kind == kind && !t.used
  }

  /** `UPDATE email_tokens SET used = 1 WHERE user_id = ? AND type = ? AND used = 0` */
  function Invalidate(tokens: seq<EmailToken>, userId: UserId, kind: TokenKind): (r: seq<EmailToken>)
    ensures |r| == |tokens|
    ensures forall i | 0 <= i < |r| :: !Live(r[i], userId, kind)
    ensures forall i | 0 <= i < |r| :: r[i].(used := tokens[i].used) == tokens[i]
    ensures forall i | 0 <= i < |r| :: r[i].used != tokens[i].used ==> Live(tokens[i], userId, kind)
  {
    seq(|tokens|, i requires 0 <= i < |tokens| =>
      if Live(tokens[i], userId, kind) then tokens[i].(used := true) else tokens[i])
  }

  /** `UPDATE email_tokens SET used = 1 WHERE id = ?` */
  function UseById(tokens: seq<EmailToken>, id: string): (r: seq<EmailToken>)
    ensures |r| == |tokens|
    ensures forall i | 0 <= i < |r| :: r[i].(used := tokens[i].used) == tokens[i]
    ensures forall i | 0 <= i < |r| :: r[i].used == (tokens[i].used || tokens[i].id == id)
  {
    seq(|tokens|, i requires 0 <= i < |tokens| =>
      if tokens[i].id == id then tokens[i].(used := true) else tokens[i])
  }

  /** With unique token ids, marking by id changes the flag of at most one row. */
  lemma UseByIdChangesOneRow(tokens: seq<EmailToken>, id: string, i: nat, j: nat)
    requires TokensDistinct(tokens)
    requires i < |tokens| && j < |tokens|
    requires UseById(tokens, id)[i] != tokens[i] && UseById(tokens, id)[j] != tokens[j]
    ensures i == j && tokens[i].id == id && !tokens[i].used
  {
  }

  /** The first row a `SELECT ... WHERE token = ? AND type = ? AND used = 0` finds, if any. */
  function FindLive(tokens: seq<EmailToken>, token: string, kind: TokenKind): (r: Option<nat>)
    ensures r.Some? ==> r.value < |tokens| && tokens[r.value].token == token && Live(tokens[r.value], tokens[r.value].userId, kind)
    ensures r.None? ==> forall i | 0 <= i < |tokens| :: !(tokens[i].token == token && tokens[i].kind == kind && !tokens[i].used)
  {
    if tokens == [] then None
    else if tokens[0].token == token && tokens[0].kind == kind && !tokens[0].used then Some(0)
    else
      match FindLive(tokens[1..], token, kind)
      case None => None
      case Some(i) => Some(i + 1)
  }

  /** Token ids and token values are unique. */
  ghost predicate TokensDistinct(tokens: seq<EmailToken>) {
    forall i, j | 0 <= i < j < |tokens| :: tokens[i].id != tokens[j].id && tokens[i].token != tokens[j].token
  }

  /** No two unused tokens share a user and a kind. */
  ghost predicate OneLive(tokens: seq<EmailToken>) {
    forall i, j | 0 <= i < j < |tokens| && !tokens[i].used && !tokens[j].used ::
      tokens[i].userId != tokens[j].userId || tokens[i].kind != tokens[j].kind
  }

  /**
   * Invalidating a user's tokens of one kind and then adding a live one
   * leaves at most one live token per user and kind, and keeps ids and
   * values unique when the new token's are fresh.
   */
  lemma InvalidateThenInsert(tokens: seq<EmailToken>, t: EmailToken)
    requires OneLive(tokens) && TokensDistinct(tokens)
    requires forall i | 0 <= i < |tokens| :: tokens[i].id != t.id && tokens[i].token != t.token
    ensures var r := Invalidate(tokens, t.userId, t.kind) + [t];
      OneLive(r) && TokensDistinct(r)
  {
    var inv := Invalidate(tokens, t.userId, t.kind);
    var r := inv + [t];
    assert forall i | 0 <= i < |inv| :: inv[i].id == tokens[i].id && inv[i].token == tokens[i].token;
    forall i, j | 0 <= i < j < |r| && !r[i].used && !r[j].used
      ensures r[i].userId != r[j].userId || r[i].kind != r[j].kind
    {
      if j == |inv| {
        assert !Live(inv[i], t.userId, t.kind);
      } else {
        assert !tokens[i].used && !tokens[j].used;
      }
    }
  }

  /** Invalidation alone keeps both properties. */
  lemma InvalidateKeeps(tokens: seq<EmailToken>, userId: UserId, kind: TokenKind)
    requires OneLive(tokens) && TokensDistinct(tokens)
    ensures OneLive(Invalidate(tokens, userId, kind)) && TokensDistinct(Invalidate(tokens, userId, kind))
  {
    var inv := Invalidate(tokens, userId, kind);
    assert forall i | 0 <= i < |inv| :: inv[i].id == tokens[i].id && inv[i].token == tokens[i].token;
    assert forall i | 0 <= i < |inv| :: !inv[i].used ==> !tokens[i].used;
  }

  /** `files.filter((f) => f.endsWith(".json"))` */
  function JsonFiles(files: seq<string>): (r: seq<string>)
    ensures forall f :: f in r <==> f in files && EndsWith(f, ".json")
  {
    if files == [] then []
    else (if EndsWith(files[0], ".json") then [files[0]] else []) + JsonFiles(files[1..])
  }

  /** `file.replace(".json", "")`: the board id a board file stands for. */
  function BoardIdOf(file: string): (r: string)
    ensures IndexOf(file, ".json") == -1 ==> r == file
    ensures EndsWith(file, ".json") ==> |r| == |file| - 5
  {
    assert EndsWith(file, ".json") ==> OccursAt(file, ".json", |file| - 5);
    ReplaceFirst(file, ".json", "")
  }

  /** The board ids of the JSON files in a listing; an absent directory means no boards. */
  function ListedBoardIds(listing: Option<seq<string>>): (r: seq<string>)
    ensures listing.None? ==> r == []
    ensures listing.Some? ==> |r| == |JsonFiles(listing.value)|
    ensures listing.Some? ==> forall i | 0 <= i < |r| :: r[i] == BoardIdOf(JsonFiles(listing.value)[i])
  {
    match listing
    case None => []
    case Some(files) =>
      var json := JsonFiles(files);
      seq(|json|, i requires 0 <= i < |json| => BoardIdOf(json[i]))
  }

  /** The file a board is saved in, `<id>.json`, gives back the id when the id holds no ".json". */
  lemma BoardIdOfFileName(id: string)
    requires IndexOf(id, ".json") == -1
    ensures BoardIdOf(id + ".json") == id
  {
    var ext: string := ".json";
    var f := id + ext;
    assert OccursAt(f, ext, |id|) by { assert f[|id|..|id| + 5] == ext; }
    forall j | 0 <= j < |id|
      ensures !OccursAt(f, ext, j)
    {
      if j + 5 <= |id| {
        assert f[j..j + 5] == id[j..j + 5];
        assert !OccursAt(id, ext, j);
      } else {
        assert f[|id|] == '.';
        assert 1 <= |id| - j <= 4;
        assert forall m | 1 <= m <= 4 :: ext[m] != '.';
        assert f[j..j + 5][|id| - j] == f[|id|];
      }
    }
    var k := IndexOf(f, ext);
    assert k == |id|;
    assert f[..k] == id;
  }

  /** A listing made only of JSON files passes the filter whole. */
  lemma {:induction false} JsonFilesKeepsJson(files: seq<string>)
    requires forall i | 0 <= i < |files| :: EndsWith(files[i], ".json")
    ensures JsonFiles(files) == files
  {
    if files != [] {
      JsonFilesKeepsJson(files[1..]);
    }
  }

  /**
   * A boards directory holding `<id>.json` for each id, none of which holds
   * ".json" itself, lists exactly those ids, in directory order.
   */
  lemma ListingOfBoardFiles(ids: seq<string>)
    requires forall i | 0 <= i < |ids| :: IndexOf(ids[i], ".json") == -1
    ensures ListedBoardIds(Some(seq(|ids|, i requires 0 <= i < |ids| => ids[i] + ".json"))) == ids
  {
    var files := seq(|ids|, i requires 0 <= i < |ids| => ids[i] + ".json");
    forall i | 0 <= i < |files|
      ensures EndsWith(files[i], ".json")
    {
      assert files[i][|files[i]| - 5..] == ".json";
    }
    JsonFilesKeepsJson(files);
    forall i | 0 <= i < |ids|
      ensures BoardIdOf(files[i]) == ids[i]
    {
      BoardIdOfFileName(ids[i]);
    }
  }

  class Store {
    var users: seq<User>
    var tokens: seq<EmailToken>
    var ownership: set<Ownership>

    predicate HasUser(id: UserId)
      reads this
    {
      exists i | 0 <= i < |users| :: users[i].id == id
    }

    predicate EmailTaken(email: string)
      reads this
    {
      exists i | 0 <= i < |users| :: users[i].email == email
    }

    /**
     * The schema's constraints: unique user ids and e-mails, unique token
     * ids and values, and every token and ownership row names a user.
     * E-mails are stored lower-cased.
     */
    ghost predicate Valid()
      reads this
    {
      && (forall i, j | 0 <= i < j < |users| :: users[i].id != users[j].id && users[i].email != users[j].email)
      && (forall i | 0 <= i < |users| :: users[i].email == ToLower(users[i].email))
      && TokensDistinct(tokens)
      && (forall i | 0 <= i < |tokens| :: HasUser(tokens[i].userId))
      && (forall r | r in ownership :: HasUser(r.userId))
    }

    /** At most one live token per user and kind. */
    ghost predicate OneLiveToken()
      reads this
    {
      OneLive(tokens)
    }

    constructor ()
      ensures Valid() && OneLiveToken()
      ensures users == [] && tokens == [] && ownership == {}
    {
      users := [];
      tokens := [];
      ownership := {};
    }

    /** `getUserByEmail`: the user whose stored e-mail equals the lower-cased argument. */
    function GetUserByEmail(email: string): (r: Option<User>)
      reads this
      ensures r.Some? ==> r.value in users && r.value.email == ToLower(email)
      ensures r.None? ==> !EmailTaken(ToLower(email))
    {
      FirstWithEmail(users, ToLower(email))
    }

    /** `getUserBoards`: the boards with an ownership row for the user. */
    function GetUserBoards(userId: UserId): (r: set<string>)
      reads this
      ensures forall b :: b in r <==> Ownership(b, userId) in ownership
    {
      set o | o in ownership && o.userId == userId :: o.boardId
    }

    /** `isBoardOwner` */
    predicate IsBoardOwner(boardId: string, userId: UserId)
      reads this
      ensures Valid() && IsBoardOwner(boardId, userId) ==> HasUser(userId)
    {
      Ownership(boardId, userId) in ownership
    }

    /**
     * `createUser`: insert the user with the lower-cased e-mail, unverified.
     * A clash on the id or the e-mail throws and changes nothing. When the
     * new user is the only user, it becomes owner of every board in
     * `listing`, the contents of the boards directory (None when absent).
     */
    method CreateUser(id: UserId, email: string, passwordHash: string, name: string, now: string, listing: Option<seq<string>>)
      returns (r: Result<AuthUser, DbError>)
      requires Valid()
      modifies this
      ensures Valid()
      ensures tokens == old(tokens)
      ensures r.Failure? <==> old(HasUser(id)) || old(EmailTaken(ToLower(email)))
      ensures r.Failure? ==> r.error == UniqueViolation && users == old(users) && ownership == old(ownership)
      ensures r.Success? ==>
        && r.value == AuthUser(id, ToLower(email), name, false, now)
        && users == old(users) + [User(id, ToLower(email), passwordHash, name, false, now)]
        && ownership == old(ownership) + (if old(users) == [] then (set b | b in ListedBoardIds(listing) :: Ownership(b, id)) else {})
    {
      var lower := ToLower(email);
      if HasUser(id) || EmailTaken(lower) {
        return Failure(UniqueViolation);
      }
      ToLowerIdempotent(email);
      users := users + [User(id, lower, passwordHash, name, false, now)];
      assert HasUser(id) by { assert users[|users| - 1].id == id; }
      forall u | old(HasUser(u))
        ensures HasUser(u)
      {
        var k :| 0 <= k < |old(users)| && old(users)[k].id == u;
        assert users[k].id == u;
      }
      if |users| == 1 {
        InheritExistingBoards(id, listing);
      }
      r := Success(AuthUser(id, lower, name, false, now));
    }

    /**
     * `createEmailToken`: mark every live token of the user and kind used,
     * then insert a live token expiring `Lifetime(kind)` after `now`. The
     * update stays even when the insert throws.
     */
    method CreateEmailToken(userId: UserId, kind: TokenKind, id: string, token: string, now: int)
      returns (r: Result<string, DbError>)
      requires Valid() && OneLiveToken()
      modifies this
      ensures Valid() && OneLiveToken()
      ensures users == old(users) && ownership == old(ownership)
      ensures var clash := exists i | 0 <= i < |old(tokens)| :: old(tokens)[i].id == id || old(tokens)[i].token == token;
        && (clash ==> r == Failure(UniqueViolation))
        && (!clash && !HasUser(userId) ==> r == Failure(ForeignKeyViolation))
        && (r.Success? <==> !clash && HasUser(userId))
      ensures r.Success? ==>
        && r.value == token
        && tokens == Invalidate(old(tokens), userId, kind) + [EmailToken(id, userId, kind, token, now + Lifetime(kind), false)]
      ensures r.Failure? ==> tokens == Invalidate(old(tokens), userId, kind)
    {
      var row := EmailToken(id, userId, kind, token, now + Lifetime(kind), false);
      InvalidateKeeps(tokens, userId, kind);
      if exists i | 0 <= i < |tokens| :: tokens[i].id == id || tokens[i].token == token {
        tokens := Invalidate(tokens, userId, kind);
        return Failure(UniqueViolation);
      }
      InvalidateThenInsert(tokens, row);
      tokens := Invalidate(tokens, userId, kind);
      if !HasUser(userId) {
        return Failure(ForeignKeyViolation);
      }
      tokens := tokens + [row];
      r := Success(token);
    }

    /**
     * `consumeEmailToken`: the user of the live token with this value and
     * kind, which is then marked used; None when there is no such token or
     * it expired before `now`, and an expired token stays live.
     */
    method ConsumeEmailToken(token: string, kind: TokenKind, now: int) returns (r: Option<UserId>)
      requires Valid() && OneLiveToken()
      modifies this
      ensures Valid() && OneLiveToken()
      ensures users == old(users) && ownership == old(ownership)
      ensures r.None? ==> tokens == old(tokens)
      ensures r.Some? <==> exists i | 0 <= i < |old(tokens)| ::
        old(tokens)[i].token == token && Live(old(tokens)[i], old(tokens)[i].userId, kind) && now <= old(tokens)[i].expiresAt
      ensures r.Some? ==> exists i | 0 <= i < |old(tokens)| ::
        && old(tokens)[i].token == token && old(tokens)[i].userId == r.value
        && tokens == old(tokens)[i := old(tokens)[i].(used := true)]
      ensures r.Some? ==> forall i | 0 <= i < |tokens| && tokens[i].token == token :: tokens[i].used
    {
      match FindLive(tokens, token, kind)
      case None =>
        return None;
      case Some(i) =>
        var row := tokens[i];
        if row.expiresAt < now {
          return None;
        }
        tokens := UseById(tokens, row.id);
        assert tokens == old(tokens)[i := row.(used := true)];
        r := Some(row.userId);
    }

    /**
     * `addBoardOwnership`: INSERT OR IGNORE of the (board, user) row, so a
     * repeat changes nothing; the foreign key still throws for an unknown user.
     */
    method AddBoardOwnership(boardId: string, userId: UserId) returns (r: Result<bool, DbError>)
      requires Valid()
      modifies this
      ensures Valid()
      ensures users == old(users) && tokens == old(tokens)
      ensures HasUser(userId) ==> r == Success(true) && ownership == old(ownership) + {Ownership(boardId, userId)}
      ensures HasUser(userId) ==> IsBoardOwner(boardId, userId) && boardId in GetUserBoards(userId)
      ensures !HasUser(userId) ==> r == Failure(ForeignKeyViolation) && ownership == old(ownership)
    {
      if !HasUser(userId) {
        return Failure(ForeignKeyViolation);
      }
      ownership := ownership + {Ownership(boardId, userId)};
      r := Success(true);
    }

    /**
     * `inheritExistingBoards`: one INSERT OR IGNORE per JSON file of the
     * boards directory, naming the user owner of that board.
     */
    method InheritExistingBoards(userId: UserId, listing: Option<seq<string>>)
      requires Valid() && HasUser(userId)
      modifies this
      ensures Valid()
      ensures users == old(users) && tokens == old(tokens)
      ensures ownership == old(ownership) + (set b | b in ListedBoardIds(listing) :: Ownership(b, userId))
    {
      var ids := ListedBoardIds(listing);
      var i := 0;
      while i < |ids|
        invariant 0 <= i <= |ids|
        invariant Valid() && HasUser(userId)
        invariant users == old(users) && tokens == old(tokens)
        invariant ownership == old(ownership) + (set b | b in ids[..i] :: Ownership(b, userId))
      {
        var _ := AddBoardOwnership(ids[i], userId);
        assert ids[..i + 1] == ids[..i] + [ids[i]];
        i := i + 1;
      }
      assert ids[..i] == ids;
    }
  }

  /** The first user, in insertion order, stored with this e-mail. */
  function FirstWithEmail(users: seq<User>, email: string): (r: Option<User>)
    ensures r.Some? ==> exists k | 0 <= k < |users| ::
      users[k] == r.value && r.value.email == email && forall j | 0 <= j < k :: users[j].email != email
    ensures r.None? ==> forall i | 0 <= i < |users| :: users[i].email != email
  {
    if users == [] then None
    else if users[0].email == email then Some(users[0])
    else
      var r := FirstWithEmail(users[1..], email);
      if r.Some? then FirstInTail(users, email, r.value); r else r
  }

  /** A first match in the tail is a first match in the whole when the head does not match. */
  lemma FirstInTail(users: seq<User>, email: string, u: User)
    requires users != [] && users[0].email != email
    requires exists k | 0 <= k < |users[1..]| ::
      users[1..][k] == u && u.email == email && forall j | 0 <= j < k :: users[1..][j].email != email
    ensures exists k | 0 <= k < |users| ::
      users[k] == u && u.email == email && forall j | 0 <= j < k :: users[j].email != email
  {
  }

  /** Lookup ignores the case of the address it is given. */
  lemma LookupIgnoresCase(s: Store, a: string, b: string)
    requires ToLower(a) == ToLower(b)
    ensures s.GetUserByEmail(a) == s.GetUserByEmail(b)
  {
  }

  /** An ownership row for a user is exactly a board listed for that user. */
  lemma OwnerIffListed(s: Store, boardId: string, userId: UserId)
    ensures s.IsBoardOwner(boardId, userId) <==> boardId in s.GetUserBoards(userId)
  {
  }
}
