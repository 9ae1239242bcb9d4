/**
 * The users table and the repository of internal/repo/userrepo.go. The table is a map
 * from id to row; a query that reads or writes the struct by its column list copies
 * exactly the fields whose column is in that list.
 */
module UserRepos {
  import opened Wrappers
  import opened Int64
  import opened Model
  import opened Repos

  /** Copies the column `col` of `src` into `target`; a name that is no column of `User` copies nothing. */
  function AssignColumn(target: User, col: string, src: User): User {
    if col == "id" then target.(id := src.id)
    else if col == "username" then target.(username := src.username)
    else if col == "email" then target.(email := src.email)
    else if col == "password_hash" then target.(passwordHash := src.passwordHash)
    else if col == "created_at" then target.(createdAt := src.createdAt)
    else if col == "user_role" then target.(role := src.role)
    else if col == "email_confirmed" then target.(emailConfirmed := src.emailConfirmed)
    else if col == "email_confirm_token" then target.(emailConfirmToken := src.emailConfirmToken)
    else if col == "email_confirm_issuedat" then target.(emailConfirmIssuedAt := src.emailConfirmIssuedAt)
    else target
  }

  /** Copies every column of `cols`, in order. */
  function AssignColumns(target: User, cols: seq<string>, src: User): User
    decreases cols
  {
    if cols == [] then target else AssignColumns(AssignColumn(target, cols[0], src), cols[1..], src)
  }

  /** `r` has `src`'s value in every field whose column is in `cols` and `target`'s in every other. */
  predicate CopiedColumns(r: User, target: User, cols: seq<string>, src: User) {
    && r.id == (if "id" in cols then src.id else target.id)
    && r.username == (if "username" in cols then src.username else target.username)
    && r.email == (if "email" in cols then src.email else target.email)
    && r.passwordHash == (if "password_hash" in cols then src.passwordHash else target.passwordHash)
    && r.createdAt == (if "created_at" in cols then src.createdAt else target.createdAt)
    && r.role == (if "user_role" in cols then src.role else target.role)
    && r.emailConfirmed == (if "email_confirmed" in cols then src.emailConfirmed else target.emailConfirmed)
    && r.emailConfirmToken == (if "email_confirm_token" in cols then src.emailConfirmToken else target.emailConfirmToken)
    && r.emailConfirmIssuedAt ==
         (if "email_confirm_issuedat" in cols then src.emailConfirmIssuedAt else target.emailConfirmIssuedAt)
    && r.passwordResetToken == target.passwordResetToken
    && r.passwordResetIssuedAt == target.passwordResetIssuedAt
    && r.jwtSessionId == target.jwtSessionId
  }

  /** Copying one column copies that column only. */
  lemma AssignColumnCopies(target: User, col: string, src: User)
    ensures CopiedColumns(AssignColumn(target, col, src), target, [col], src)
  {
    var r := AssignColumn(target, col, src);
    if col == "id" {
      assert r == target.(id := src.id);
    } else if col == "username" {
      assert r == target.(username := src.username);
    } else if col == "email" {
      assert r == target.(email := src.email);
    } else if col == "password_hash" {
      assert r == target.(passwordHash := src.passwordHash);
    } else if col == "created_at" {
      assert r == target.(createdAt := src.createdAt);
    } else if col == "user_role" {
      assert r == target.(role := src.role);
    } else if col == "email_confirmed" {
      assert r == target.(emailConfirmed := src.emailConfirmed);
    } else if col == "email_confirm_token" {
      assert r == target.(emailConfirmToken := src.emailConfirmToken);
    } else if col == "email_confirm_issuedat" {
      assert r == target.(emailConfirmIssuedAt := src.emailConfirmIssuedAt);
    } else {
      assert r == target;
    }
  }

  /** Copying `col` and then `rest` copies what `[col] + rest` names. */
  lemma CopiedColumnsCompose(r: User, mid: User, target: User, col: string, rest: seq<string>, src: User)
    requires CopiedColumns(mid, target, [col], src)
    requires CopiedColumns(r, mid, rest, src)
    ensures CopiedColumns(r, target, [col] + rest, src)
  {
    assert forall c :: c in [col] + rest <==> c == col || c in rest;
  }

  /** Copying a column list copies exactly the listed columns, whatever their order or repetitions. */
  lemma {:induction false} AssignColumnsCopies(target: User, cols: seq<string>, src: User)
    ensures CopiedColumns(AssignColumns(target, cols, src), target, cols, src)
    decreases cols
  {
    if cols != [] {
      var mid := AssignColumn(target, cols[0], src);
      AssignColumnCopies(target, cols[0], src);
      AssignColumnsCopies(mid, cols[1..], src);
      CopiedColumnsCompose(AssignColumns(mid, cols[1..], src), mid, target, cols[0], cols[1..], src);
      assert [cols[0]] + cols[1..] == cols;
    }
  }

  /** The row an `INSERT` of the full column list stores: the undeclared fields keep their zero values. */
  lemma InsertedRow(u: User)
    ensures AssignColumns(ZeroUser, AllColumnNames(UserStruct.fields), u)
         == u.(passwordResetToken := "", passwordResetIssuedAt := 0, jwtSessionId := 0)
  {
    UserAllColumnsInOrder();
    AssignColumnsCopies(ZeroUser, UserAllColumns, u);
  }

  /** The row `CreateUser` stores with the columns of `User`: the user, with the columns it does not declare zeroed. */
  lemma StoredUserRow(c: Columns, u: User)
    requires c == ColumnsOf(UserStruct.fields)
    ensures AssignColumns(ZeroUser, c.allColumns, u)
         == u.(passwordResetToken := "", passwordResetIssuedAt := 0, jwtSessionId := 0)
  {
    InsertedRow(u);
  }

  /** The id is one of the columns an `INSERT` writes. */
  lemma IdIsAColumn()
    ensures "id" in AllColumnNames(UserStruct.fields)
  {
    UserAllColumnsInOrder();
    assert UserAllColumns[0] == "id";
  }

  /**
   * What the safe query reads of a row: id, username, email, created_at and role; the
   * password hash, the confirmation state and the undeclared fields stay at their zero values.
   */
  lemma SafeRow(u: User)
    ensures AssignColumns(ZeroUser, SafeColumnNames(UserStruct.fields), u)
         == ZeroUser.(id := u.id, username := u.username, email := u.email, createdAt := u.createdAt, role := u.role)
  {
    var cols := SafeColumnNames(UserStruct.fields);
    AssignColumnsCopies(ZeroUser, cols, u);
    UserSafeColumn("id");
    UserSafeColumn("username");
    UserSafeColumn("email");
    UserSafeColumn("password_hash");
    UserSafeColumn("created_at");
    UserSafeColumn("user_role");
    UserSafeColumn("email_confirmed");
    UserSafeColumn("email_confirm_token");
    UserSafeColumn("email_confirm_issuedat");
  }

  /** The safe columns with "id" taken out, in order: what `UpdateUser` puts in its SET clause. */
  function ExceptId(cols: seq<string>): (r: seq<string>)
    ensures forall c :: c in r <==> c in cols && c != "id"
    ensures IsSubsequence(r, cols)
  {
    if cols == [] then []
    else
      var init := cols[..|cols| - 1];
      var last := cols[|cols| - 1];
      assert cols == init + [last];
      SubsequenceSnoc(ExceptId(init), init, last);
      if last == "id" then
        assert ExceptId(init) + [] == ExceptId(init);
        ExceptId(init) + []
      else ExceptId(init) + [last]
  }

  /** The SET clause never writes the id. */
  lemma SetClauseKeepsId(row: User, cols: seq<string>, u: User)
    ensures AssignColumns(row, ExceptId(cols), u).id == row.id
  {
    AssignColumnsCopies(row, ExceptId(cols), u);
    assert "id" !in ExceptId(cols);
  }

  /** One assignment of the SET clause. */
  function SetItem(col: string): string {
    col + " = :" + col
  }

  /** The items of the SET clause for a column list. */
  function SetItems(cols: seq<string>): (r: seq<string>)
    ensures |r| == |ExceptId(cols)|
    ensures forall i :: 0 <= i < |r| ==> r[i] == SetItem(ExceptId(cols)[i])
  {
    if cols == [] then []
    else SetItems(cols[..|cols| - 1]) + (if cols[|cols| - 1] == "id" then [] else [SetItem(cols[|cols| - 1])])
  }

  /** The statement `UpdateUser` runs. */
  function UpdateQuery(sets: seq<string>): string {
    "UPDATE users SET " + Join(sets, ", ") + " WHERE id = :id"
  }

  /**
   * The loop of `UpdateUser`: one `col = :col` per column, skipping "id", in order.
   */
  method SetClause(cols: seq<string>) returns (sets: seq<string>)
    ensures |sets| == |ExceptId(cols)|
    ensures forall i :: 0 <= i < |sets| ==> sets[i] == SetItem(ExceptId(cols)[i])
    ensures sets == SetItems(cols)
  {
    sets := [];
    for i := 0 to |cols|
      invariant sets == SetItems(cols[..i])
    {
      assert cols[..i + 1][..i] == cols[..i];
      if cols[i] == "id" {
        continue;
      }
      sets := sets + [SetItem(cols[i])];
    }
    assert cols[..|cols|] == cols;
  }

  /** Every row is stored under its own id. */
  predicate KeysMatchIds(users: map<int64, User>) {
    forall id :: id in users ==> users[id].id == id
  }

  /** A confirmed user holds no confirmation token. */
  predicate ConfirmedHasNoToken(users: map<int64, User>) {
    forall id :: id in users && users[id].emailConfirmed ==>
      users[id].emailConfirmToken == "" && users[id].emailConfirmIssuedAt == 0
  }

  /** The row rewrites the repository's UPDATE statements perform. */
  datatype RowUpdate =
    | MarkConfirmed
    | ClearResetToken
    | SetConfirmToken(hash: string, issuedAt: int64)
    | SetResetToken(hash: string, issuedAt: int64)
    | SetPasswordHash(hash: string)
    | BumpSession
    | CopyColumns(cols: seq<string>, src: User)

  /** A row after an update. */
  function Rewrite(u: User, op: RowUpdate): User {
    match op
    case MarkConfirmed => u.(emailConfirmed := true, emailConfirmToken := "", emailConfirmIssuedAt := 0)
    case ClearResetToken => u.(passwordResetToken := "", passwordResetIssuedAt := 0)
    case SetConfirmToken(hash, issuedAt) => u.(emailConfirmToken := hash, emailConfirmIssuedAt := issuedAt)
    case SetResetToken(hash, issuedAt) => u.(passwordResetToken := hash, passwordResetIssuedAt := issuedAt)
    case SetPasswordHash(hash) => u.(passwordHash := hash)
    case BumpSession => u.(jwtSessionId := u.jwtSessionId + 1)
    case CopyColumns(cols, src) => AssignColumns(u, cols, src)
  }

  /** `UPDATE users SET … WHERE id = $1`: the row with that id is rewritten; a missing id matches no row. */
  function Modify(users: map<int64, User>, id: int64, op: RowUpdate): (r: map<int64, User>)
    ensures r.Keys == users.Keys
    ensures forall k :: k in users && k != id ==> r[k] == users[k]
    ensures id in users ==> r[id] == Rewrite(users[id], op)
  {
    if id in users then users[id := Rewrite(users[id], op)] else users
  }

  /** An update that leaves ids alone keeps every row under its own id. */
  lemma ModifyKeepsKeys(users: map<int64, User>, id: int64, op: RowUpdate)
    requires KeysMatchIds(users)
    requires id in users ==> Rewrite(users[id], op).id == users[id].id
    ensures KeysMatchIds(Modify(users, id, op))
  {
  }

  /**
   * The single-column updates keep both row invariants, provided a confirmation token is
   * only ever assigned to an unconfirmed user.
   */
  lemma ModifyKeepsRowInvariants(users: map<int64, User>, id: int64, op: RowUpdate)
    requires KeysMatchIds(users) && ConfirmedHasNoToken(users)
    requires !op.CopyColumns?
    requires op.SetConfirmToken? && id in users ==> !users[id].emailConfirmed
    ensures KeysMatchIds(Modify(users, id, op)) && ConfirmedHasNoToken(Modify(users, id, op))
  {
    var r := Modify(users, id, op);
    forall k | k in r
      ensures r[k].id == k
      ensures r[k].emailConfirmed ==> r[k].emailConfirmToken == "" && r[k].emailConfirmIssuedAt == 0
    {
      if k != id {
        assert r[k] == users[k];
      }
    }
  }

  /** A lookup by email: the row returned, or none when no row has that email. */
  predicate ByEmail(users: map<int64, User>, email: string, subject: Option<User>) {
    match subject
    case None => forall id :: id in users ==> users[id].email != email
    case Some(u) => u.id in users && users[u.id] == u && u.email == email
  }

  /** A lookup by confirmation-token hash. */
  predicate ByConfirmToken(users: map<int64, User>, hash: string, subject: Option<User>) {
    match subject
    case None => forall id :: id in users ==> users[id].emailConfirmToken != hash
    case Some(u) => u.id in users && users[u.id] == u && u.emailConfirmToken == hash
  }

  /** A lookup by password-reset-token hash. */
  predicate ByResetToken(users: map<int64, User>, hash: string, subject: Option<User>) {
    match subject
    case None => forall id :: id in users ==> users[id].passwordResetToken != hash
    case Some(u) => u.id in users && users[u.id] == u && u.passwordResetToken == hash
  }

  /** An `EXISTS` query on the username column. */
  predicate NameTaken(users: map<int64, User>, username: string) {
    exists id :: id in users && users[id].username == username
  }

  /** `UserRepo`: the column record computed once by `NewUserRepo`, and the users table. */
  class UserRepo {
    const columns: Columns
    var users: map<int64, User>

    /** Rows are stored under their ids, and an insert writes the id column. */
    ghost predicate Valid()
      reads this
    {
      KeysMatchIds(users) && "id" in columns.allColumns
    }

    /** The column record is the one derived from `model.User`. */
    ghost predicate HasUserColumns() {
      columns == ColumnsOf(UserStruct.fields)
    }

    /** `NewUserRepo`: the columns are extracted from `*model.User`. */
    constructor (rows: map<int64, User>)
      requires KeysMatchIds(rows)
      ensures Valid() && HasUserColumns() && users == rows
    {
      var c := ExtractColumns(UserPointer);
      columns := c.value;
      IdIsAColumn();
      users := rows;
    }

    /** `CreateUser`: inserts the full column list; an id already present is a key violation. */
    method CreateUser(u: User, fail: bool) returns (err: bool)
      requires Valid()
      modifies this
      ensures Valid()
      ensures err <==> fail || u.id in old(users)
      ensures users == if err then old(users) else old(users)[u.id := AssignColumns(ZeroUser, columns.allColumns, u)]
    {
      err := fail || u.id in users;
      if !err {
        var row := AssignColumns(ZeroUser, columns.allColumns, u);
        AssignColumnsCopies(ZeroUser, columns.allColumns, u);
        users := users[u.id := row];
      }
    }

    /** `GetUserById`: the row, or the zero user together with an error. */
    method GetUserById(id: int64) returns (u: User, err: bool)
      ensures err <==> id !in users
      ensures !err ==> u == users[id]
      ensures err ==> u == ZeroUser
    {
      if id in users {
        u, err := users[id], false;
      } else {
        u, err := ZeroUser, true;
      }
    }

    /** `GetUserByIdSafe`: only the safe columns of the row are read. */
    method GetUserByIdSafe(id: int64) returns (u: User, err: bool)
      requires Valid() && HasUserColumns()
      ensures err <==> id !in users
      ensures !err ==> u.id == id && u.username == users[id].username && u.email == users[id].email
      ensures !err ==> u.createdAt == users[id].createdAt && u.role == users[id].role
      ensures u.passwordHash == "" && !u.emailConfirmed && u.emailConfirmToken == "" && u.emailConfirmIssuedAt == 0
      ensures u.passwordResetToken == "" && u.passwordResetIssuedAt == 0 && u.jwtSessionId == 0
    {
      if id in users {
        u := AssignColumns(ZeroUser, columns.safeColumns, users[id]);
        SafeRow(users[id]);
        err := false;
      } else {
        u, err := ZeroUser, true;
      }
    }

    /** `GetUserByEmail`: some row with that email, or the zero user together with an error. */
    method GetUserByEmail(email: string) returns (u: User, err: bool)
      requires Valid()
      ensures ByEmail(users, email, if err then None else Some(u))
      ensures err ==> u == ZeroUser
    {
      if exists id :: id in users && users[id].email == email {
        var id :| id in users && users[id].email == email;
        u, err := users[id], false;
      } else {
        u, err := ZeroUser, true;
      }
    }

    /** `GetUserByConfirmationToken`: nil on a miss. */
    method GetUserByConfirmationToken(hash: string) returns (u: Option<User>)
      requires Valid()
      ensures ByConfirmToken(users, hash, u)
    {
      if exists id :: id in users && users[id].emailConfirmToken == hash {
        var id :| id in users && users[id].emailConfirmToken == hash;
        u := Some(users[id]);
      } else {
        u := None;
      }
    }

    /** `GetUserByResetToken`: nil on a miss. */
    method GetUserByResetToken(hash: string) returns (u: Option<User>)
      requires Valid()
      ensures ByResetToken(users, hash, u)
    {
      if exists id :: id in users && users[id].passwordResetToken == hash {
        var id :| id in users && users[id].passwordResetToken == hash;
        u := Some(users[id]);
      } else {
        u := None;
      }
    }

    /** `DuplicateName`: true exactly when some row has that username. */
    method DuplicateName(username: string, fail: bool) returns (r: Result<bool>)
      ensures fail <==> r.Failure?
      ensures r.Success? ==> (r.value <==> exists u :: u in users.Values && u.username == username)
    {
      if fail {
        return Failure;
      }
      var taken := exists id :: id in users && users[id].username == username;
      r := Success(taken);
    }

    /** `DuplicateEmail`: true exactly when some row has that email. */
    method DuplicateEmail(email: string, fail: bool) returns (r: Result<bool>)
      ensures fail <==> r.Failure?
      ensures r.Success? ==> (r.value <==> exists u :: u in users.Values && u.email == email)
    {
      if fail {
        return Failure;
      }
      var taken := exists id :: id in users && users[id].email == email;
      r := Success(taken);
    }

    /** `UpdateUser`: rewrites, in the row with `u`'s id, the safe columns other than id. */
    method UpdateUser(u: User, fail: bool) returns (query: string, err: bool)
      requires Valid()
      modifies this
      ensures Valid()
      ensures query == UpdateQuery(SetItems(columns.safeColumns))
      ensures err == fail
      ensures users == if err then old(users)
                       else Modify(old(users), u.id, CopyColumns(ExceptId(columns.safeColumns), u))
    {
      var sets := SetClause(columns.safeColumns);
      query := UpdateQuery(sets);
      err := fail;
      if !err {
        if u.id in users {
          SetClauseKeepsId(users[u.id], columns.safeColumns, u);
        }
        ModifyKeepsKeys(users, u.id, CopyColumns(ExceptId(columns.safeColumns), u));
        users := Modify(users, u.id, CopyColumns(ExceptId(columns.safeColumns), u));
      }
    }

    /** `DeleteUser`: removes the row with that id, if any. */
    method DeleteUser(id: int64, fail: bool) returns (err: bool)
      requires Valid()
      modifies this
      ensures Valid()
      ensures err == fail
      ensures users == if err then old(users) else old(users) - {id}
    {
      err := fail;
      if !err {
        users := users - {id};
      }
    }

    /** `MarkUserConfirmed`: sets the flag and clears the token and its issue time, for that id only. */
    method MarkUserConfirmed(id: int64, fail: bool) returns (err: bool)
      requires Valid()
      modifies this
      ensures Valid()
      ensures err == fail
      ensures users == if err then old(users) else Modify(old(users), id, MarkConfirmed)
    {
      err := fail;
      if !err {
        users := Modify(users, id, MarkConfirmed);
      }
    }

    /** `InvalidateResetToken`: clears the reset token and its issue time, for that id only. */
    method InvalidateResetToken(id: int64, fail: bool) returns (err: bool)
      requires Valid()
      modifies this
      ensures Valid()
      ensures err == fail
      ensures users == if err then old(users) else Modify(old(users), id, ClearResetToken)
    {
      err := fail;
      if !err {
        users := Modify(users, id, ClearResetToken);
      }
    }

    /** `AssignUserConfirmToken(hash, issuedAt, id)`. */
    method AssignUserConfirmToken(hash: string, issuedAt: int64, id: int64, fail: bool) returns (err: bool)
      requires Valid()
      modifies this
      ensures Valid()
      ensures err == fail
      ensures users == if err then old(users) else Modify(old(users), id, SetConfirmToken(hash, issuedAt))
    {
      err := fail;
      if !err {
        users := Modify(users, id, SetConfirmToken(hash, issuedAt));
      }
    }

    /** `AssignUserResetToken(hash, issuedAt, id)`. */
    method AssignUserResetToken(hash: string, issuedAt: int64, id: int64, fail: bool) returns (err: bool)
      requires Valid()
      modifies this
      ensures Valid()
      ensures err == fail
      ensures users == if err then old(users) else Modify(old(users), id, SetResetToken(hash, issuedAt))
    {
      err := fail;
      if !err {
        users := Modify(users, id, SetResetToken(hash, issuedAt));
      }
    }

    /** `ChangeUserPassword(hash, id)`. */
    method ChangeUserPassword(hash: string, id: int64, fail: bool) returns (err: bool)
      requires Valid()
      modifies this
      ensures Valid()
      ensures err == fail
      ensures users == if err then old(users) else Modify(old(users), id, SetPasswordHash(hash))
    {
      err := fail;
      if !err {
        users := Modify(users, id, SetPasswordHash(hash));
      }
    }

    /** `IncrementJwtSessionID(id)`. */
    method IncrementJwtSessionId(id: int64, fail: bool) returns (err: bool)
      requires Valid()
      modifies this
      ensures Valid()
      ensures err == fail
      ensures users == if err then old(users) else Modify(old(users), id, BumpSession)
    {
      err := fail;
      if !err {
        users := Modify(users, id, BumpSession);
      }
    }
  }

  /**
   * `UpdateUser` never writes the id, the password hash, the confirmation state or the
   * undeclared fields: of `u` it takes the username, email, created_at and role only.
   */
  lemma UpdateKeepsSecrets(row: User, u: User)
    ensures var r := AssignColumns(row, ExceptId(SafeColumnNames(UserStruct.fields)), u);
      r == row.(username := u.username, email := u.email, createdAt := u.createdAt, role := u.role)
  {
    var safe := SafeColumnNames(UserStruct.fields);
    AssignColumnsCopies(row, ExceptId(safe), u);
    UserSafeColumn("id");
    UserSafeColumn("username");
    UserSafeColumn("email");
    UserSafeColumn("password_hash");
    UserSafeColumn("created_at");
    UserSafeColumn("user_role");
    UserSafeColumn("email_confirmed");
    UserSafeColumn("email_confirm_token");
    UserSafeColumn("email_confirm_issuedat");
  }

  /** After `MarkUserConfirmed`, a lookup by the hash the user held no longer returns that user. */
  lemma ConfirmedTokenIsGone(users: map<int64, User>, id: int64, hash: string, subject: Option<User>)
    requires hash != ""
    requires ByConfirmToken(Modify(users, id, MarkConfirmed), hash, subject)
    ensures subject.Some? ==> subject.value.id != id
  {
  }

  /** `InvalidateResetToken` changes the reset fields of that row only. */
  lemma ResetTokenIsGone(users: map<int64, User>, id: int64, hash: string, subject: Option<User>)
    requires hash != ""
    requires ByResetToken(Modify(users, id, ClearResetToken), hash, subject)
    ensures subject.Some? ==> subject.value.id != id
  {
  }
}
