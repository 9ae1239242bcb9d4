/**
 * Column derivation of internal/repo/repos.go: `ExtractColumns` reads a struct type's
 * fields by reflection and derives the column lists and the SQL fragments the user
 * repository pastes into its queries.
 */
module Repos {
  import opened Wrappers

  /** One `key:"value"` pair of a struct tag. */
  datatype Tag = Tag(key: string, value: string)

  /** A struct field: its Go name and its tag, as the ordered pairs it holds. */
  datatype Field = Field(name: string, tags: seq<Tag>)

  /** What `reflect.TypeOf` can return, as far as `ExtractColumns` looks at it. */
  datatype GoType = Struct(fields: seq<Field>) | Pointer(elem: GoType) | Scalar(kind: string)

  /** The `Columns` record embedded in every repository. */
  datatype Columns = Columns(
    allColumns: seq<string>,
    allRaw: string,
    allPrefixed: string,
    safeColumns: seq<string>,
    safeRaw: string,
    safePrefixed: string
  )

  /** `reflect.StructTag.Lookup(key)`: the value of the first pair with that key. */
  function LookupTag(tags: seq<Tag>, key: string): (r: Option<string>)
    ensures r.None? <==> forall i :: 0 <= i < |tags| ==> tags[i].key != key
    ensures r.Some? ==> Tag(key, r.value) in tags
    ensures r.Some? ==> exists i :: 0 <= i < |tags| && tags[i] == Tag(key, r.value) && forall j :: 0 <= j < i ==> tags[j].key != key
  {
    if tags == [] then None
    else if tags[0].key == key then Some(tags[0].value)
    else
      var rest := LookupTag(tags[1..], key);
      if rest.Some? then
        var i :| 0 <= i < |tags[1..]| && tags[1..][i] == Tag(key, rest.value) && forall j :: 0 <= j < i ==> tags[1..][j].key != key;
        assert tags[i+1] == Tag(key, rest.value);
        rest
      else rest
  }

  /** ASCII lower-casing of one character. */
  function LowerChar(c: char): char {
    if 'A' <= c <= 'Z' then (c as int + 32) as char else c
  }

  /** `strings.ToLower` on ASCII text. */
  function ToLower(s: string): string {
    seq(|s|, i requires 0 <= i < |s| => LowerChar(s[i]))
  }

  /** The column a field maps to: its `db` tag unless that is absent or "-", else its lower-cased name. */
  function ColumnName(f: Field): string {
    match LookupTag(f.tags, "db")
    case Some(tag) => if tag == "-" then ToLower(f.name) else tag
    case None => ToLower(f.name)
  }

  /** A field is safe when its tag has `safe:"true"`. */
  predicate IsSafe(f: Field) {
    LookupTag(f.tags, "safe") == Some("true")
  }

  /** One column per field, in declaration order. */
  function AllColumnNames(fs: seq<Field>): seq<string> {
    if fs == [] then [] else [ColumnName(fs[0])] + AllColumnNames(fs[1..])
  }

  /** The columns of the safe fields, in declaration order. */
  function SafeColumnNames(fs: seq<Field>): seq<string> {
    if fs == [] then []
    else (if IsSafe(fs[0]) then [ColumnName(fs[0])] else []) + SafeColumnNames(fs[1..])
  }

  /** `a` is obtained from `b` by deleting elements. */
  predicate IsSubsequence(a: seq<string>, b: seq<string>)
    decreases |b|
  {
    a == [] || (b != [] && ((a[0] == b[0] && IsSubsequence(a[1..], b[1..])) || IsSubsequence(a, b[1..])))
  }

  /** `strings.Join(xs, sep)`. */
  function Join(xs: seq<string>, sep: string): string {
    if |xs| == 0 then ""
    else if |xs| == 1 then xs[0]
    else xs[0] + sep + Join(xs[1..], sep)
  }

  /** Every element of `xs` with `p` put in front. */
  function PrefixEach(xs: seq<string>, p: string): (r: seq<string>)
    ensures |r| == |xs|
    ensures forall i :: 0 <= i < |xs| ==> r[i] == p + xs[i]
  {
    if xs == [] then [] else [p + xs[0]] + PrefixEach(xs[1..], p)
  }

  /** The record `ExtractColumns` builds from a field list. */
  function ColumnsOf(fs: seq<Field>): Columns {
    var all := AllColumnNames(fs);
    var safe := SafeColumnNames(fs);
    Columns(all, Join(all, ", "), ":" + Join(all, ", :"), safe, Join(safe, ", "), ":" + Join(safe, ", :"))
  }

  /** The fields `ExtractColumns` reads: a pointer is replaced by its element type once. */
  function StructFields(t: GoType): Option<seq<Field>> {
    match t
    case Struct(fs) => Some(fs)
    case Pointer(Struct(fs)) => Some(fs)
    case _ => None
  }

  lemma {:induction false} AllColumnNamesSnoc(fs: seq<Field>, f: Field)
    ensures AllColumnNames(fs + [f]) == AllColumnNames(fs) + [ColumnName(f)]
  {
    if fs != [] {
      assert (fs + [f])[1..] == fs[1..] + [f];
      AllColumnNamesSnoc(fs[1..], f);
    }
  }

  lemma {:induction false} SafeColumnNamesSnoc(fs: seq<Field>, f: Field)
    ensures SafeColumnNames(fs + [f]) == SafeColumnNames(fs) + (if IsSafe(f) then [ColumnName(f)] else [])
  {
    if fs == [] {
      assert [f][1..] == [];
    } else {
      assert (fs + [f])[1..] == fs[1..] + [f];
      SafeColumnNamesSnoc(fs[1..], f);
    }
  }

  /** There is exactly one column per field, in declaration order. */
  lemma {:induction false} AllColumnNamesAt(fs: seq<Field>)
    ensures |AllColumnNames(fs)| == |fs|
    ensures forall i :: 0 <= i < |fs| ==> AllColumnNames(fs)[i] == ColumnName(fs[i])
  {
    if fs != [] {
      AllColumnNamesAt(fs[1..]);
    }
  }

  /** A column is safe exactly when some safe field maps to it. */
  lemma {:induction false} SafeColumnNamesMembership(fs: seq<Field>, c: string)
    ensures c in SafeColumnNames(fs) <==> exists i :: 0 <= i < |fs| && IsSafe(fs[i]) && ColumnName(fs[i]) == c
  {
    if fs != [] {
      SafeColumnNamesMembership(fs[1..], c);
      if c in SafeColumnNames(fs[1..]) {
        var i :| 0 <= i < |fs[1..]| && IsSafe(fs[1..][i]) && ColumnName(fs[1..][i]) == c;
        assert IsSafe(fs[i + 1]) && ColumnName(fs[i + 1]) == c;
      }
      if exists i :: 0 <= i < |fs| && IsSafe(fs[i]) && ColumnName(fs[i]) == c {
        var i :| 0 <= i < |fs| && IsSafe(fs[i]) && ColumnName(fs[i]) == c;
        if i > 0 {
          assert IsSafe(fs[1..][i - 1]) && ColumnName(fs[1..][i - 1]) == c;
        }
      }
    }
  }

  /** The safe columns are a subsequence of all columns. */
  lemma {:induction false} SafeColumnsAreSubsequence(fs: seq<Field>)
    ensures IsSubsequence(SafeColumnNames(fs), AllColumnNames(fs))
  {
    if fs != [] {
      SafeColumnsAreSubsequence(fs[1..]);
      var rest := SafeColumnNames(fs[1..]);
      if IsSafe(fs[0]) {
        assert SafeColumnNames(fs)[1..] == rest;
      } else {
        assert SafeColumnNames(fs) == rest;
        assert AllColumnNames(fs)[1..] == AllColumnNames(fs[1..]);
      }
    }
  }

  /** Appending one element to the longer list keeps a subsequence, and so does appending it to both. */
  lemma {:induction false} SubsequenceSnoc(a: seq<string>, b: seq<string>, x: string)
    requires IsSubsequence(a, b)
    ensures IsSubsequence(a, b + [x]) && IsSubsequence(a + [x], b + [x])
    decreases |b|
  {
    if b == [] {
      assert a == [];
      assert ([x] + [])[1..] == [];
    } else {
      assert (b + [x])[1..] == b[1..] + [x];
      if a != [] && a[0] == b[0] && IsSubsequence(a[1..], b[1..]) {
        SubsequenceSnoc(a[1..], b[1..], x);
        assert (a + [x])[1..] == a[1..] + [x];
      } else if a != [] {
        SubsequenceSnoc(a, b[1..], x);
      } else {
        SubsequenceSnoc(a, b[1..], x);
      }
    }
  }

  /** The `:`-prefixed list is the list of `:`-prefixed names; with no names it is ":" alone. */
  lemma {:induction false} PrefixedJoin(xs: seq<string>)
    ensures xs == [] ==> ":" + Join(xs, ", :") == ":"
    ensures xs != [] ==> ":" + Join(xs, ", :") == Join(PrefixEach(xs, ":"), ", ")
  {
    if |xs| > 1 {
      PrefixedJoin(xs[1..]);
      assert PrefixEach(xs, ":")[1..] == PrefixEach(xs[1..], ":");
      assert ", :" == ", " + ":";
    } else if |xs| == 1 {
      assert PrefixEach(xs, ":") == [":" + xs[0]];
    }
  }

  /**
   * `ExtractColumns(model)`. Reflection on a type that is neither a struct nor a pointer
   * to one panics in `NumField`; that panic is the `None` result.
   */
  method ExtractColumns(model: GoType) returns (r: Option<Columns>)
    ensures r.None? <==> StructFields(model).None?
    ensures r.Some? ==> r.value == ColumnsOf(StructFields(model).value)
    ensures r.Some? ==> |r.value.allColumns| == |StructFields(model).value|
    ensures r.Some? ==> forall i :: 0 <= i < |StructFields(model).value| ==>
                          r.value.allColumns[i] == ColumnName(StructFields(model).value[i])
    ensures r.Some? ==> IsSubsequence(r.value.safeColumns, r.value.allColumns)
  {
    var t := model;
    if t.Pointer? {
      t := t.elem;
    }
    if !t.Struct? {
      return None;
    }
    var allCols: seq<string> := [];
    var safeCols: seq<string> := [];
    for i := 0 to |t.fields|
      invariant allCols == AllColumnNames(t.fields[..i])
      invariant safeCols == SafeColumnNames(t.fields[..i])
    {
      var field := t.fields[i];
      assert t.fields[..i + 1] == t.fields[..i] + [field];
      AllColumnNamesSnoc(t.fields[..i], field);
      SafeColumnNamesSnoc(t.fields[..i], field);
      var dbTag := LookupTag(field.tags, "db");
      var column := if dbTag.None? || dbTag.value == "-" then ToLower(field.name) else dbTag.value;
      allCols := allCols + [column];
      var safeTag := LookupTag(field.tags, "safe");
      if safeTag.Some? && safeTag.value == "true" {
        safeCols := safeCols + [column];
      }
    }
    assert t.fields[..|t.fields|] == t.fields;
    AllColumnNamesAt(t.fields);
    SafeColumnsAreSubsequence(t.fields);
    var allInsert := Join(allCols, ", ");
    var allSelect := ":" + Join(allCols, ", :");
    var safeInsert := Join(safeCols, ", ");
    var safeSelect := ":" + Join(safeCols, ", :");
    r := Some(Columns(allCols, allInsert, allSelect, safeCols, safeInsert, safeSelect));
  }

  /** The nine fields of `model.User` (user.go) with their tags, one constant per field. */
  const IdField := Field("ID", [Tag("db", "id"), Tag("safe", "true"), Tag("json", "id")])
  const UsernameField := Field("Username", [Tag("db", "username"), Tag("safe", "true"), Tag("json", "username")])
  const EmailField := Field("Email", [Tag("db", "email"), Tag("safe", "true"), Tag("json", "email")])
  const PasswordHashField := Field("PasswordHash", [Tag("db", "password_hash"), Tag("json", "-")])
  const CreatedAtField := Field("CreatedAt", [Tag("db", "created_at"), Tag("safe", "true"), Tag("json", "created_at")])
  const RoleField := Field("Role", [Tag("db", "user_role"), Tag("safe", "true"), Tag("json", "role")])
  const EmailConfirmedField := Field("EmailConfirmed", [Tag("db", "email_confirmed"), Tag("json", "-")])
  const EmailConfirmTokenField := Field("EmailConfirmToken", [Tag("db", "email_confirm_token"), Tag("json", "-")])
  const EmailConfirmIssuedAtField := Field("EmailConfirmIssuedAt", [Tag("db", "email_confirm_issuedat"), Tag("json", "-")])

  /** `model.User` as reflection sees it. */
  const UserStruct: GoType := Struct([
    IdField, UsernameField, EmailField, PasswordHashField, CreatedAtField, RoleField,
    EmailConfirmedField, EmailConfirmTokenField, EmailConfirmIssuedAtField
  ])

  /** What `NewUserRepo` passes in: `(*model.User)(nil)`. */
  const UserPointer: GoType := Pointer(UserStruct)

  const UserAllColumns: seq<string> := [
    "id", "username", "email", "password_hash", "created_at", "user_role",
    "email_confirmed", "email_confirm_token", "email_confirm_issuedat"
  ]

  /** A field whose first tag is `db:"x"` with x not "-" maps to column x. */
  lemma ColumnFromDbTag(f: Field)
    requires |f.tags| > 0 && f.tags[0].key == "db" && f.tags[0].value != "-"
    ensures ColumnName(f) == f.tags[0].value
  {
  }

  /** A field tagged `db:"…" safe:"true"` is safe. */
  lemma SafeFromSecondTag(f: Field)
    requires |f.tags| > 1 && f.tags[0].key == "db" && f.tags[1] == Tag("safe", "true")
    ensures IsSafe(f)
  {
    assert "db" != "safe";
    assert f.tags[1..][0].key == "safe";
  }

  /** A field tagged `db:"…" json:"…"` is not safe. */
  lemma UnsafeDbJson(f: Field)
    requires |f.tags| == 2 && f.tags[0].key == "db" && f.tags[1].key == "json"
    ensures !IsSafe(f)
  {
    assert "db" != "safe";
    assert "json"[0] != "safe"[0];
    assert f.tags[1..][1..] == [];
  }

  /** The five fields of `User` tagged `safe:"true"`, with their columns. */
  lemma SafeUserFields()
    ensures ColumnName(IdField) == "id" && IsSafe(IdField)
    ensures ColumnName(UsernameField) == "username" && IsSafe(UsernameField)
    ensures ColumnName(EmailField) == "email" && IsSafe(EmailField)
    ensures ColumnName(CreatedAtField) == "created_at" && IsSafe(CreatedAtField)
    ensures ColumnName(RoleField) == "user_role" && IsSafe(RoleField)
  {
    ColumnFromDbTag(IdField); SafeFromSecondTag(IdField);
    ColumnFromDbTag(UsernameField); SafeFromSecondTag(UsernameField);
    ColumnFromDbTag(EmailField); SafeFromSecondTag(EmailField);
    ColumnFromDbTag(CreatedAtField); SafeFromSecondTag(CreatedAtField);
    ColumnFromDbTag(RoleField); SafeFromSecondTag(RoleField);
  }

  /** The four fields of `User` without a `safe` tag, with their columns. */
  lemma UnsafeUserFields()
    ensures ColumnName(PasswordHashField) == "password_hash" && !IsSafe(PasswordHashField)
    ensures ColumnName(EmailConfirmedField) == "email_confirmed" && !IsSafe(EmailConfirmedField)
    ensures ColumnName(EmailConfirmTokenField) == "email_confirm_token" && !IsSafe(EmailConfirmTokenField)
    ensures ColumnName(EmailConfirmIssuedAtField) == "email_confirm_issuedat" && !IsSafe(EmailConfirmIssuedAtField)
  {
    ColumnFromDbTag(PasswordHashField); UnsafeDbJson(PasswordHashField);
    ColumnFromDbTag(EmailConfirmedField); UnsafeDbJson(EmailConfirmedField);
    ColumnFromDbTag(EmailConfirmTokenField); UnsafeDbJson(EmailConfirmTokenField);
    ColumnFromDbTag(EmailConfirmIssuedAtField); UnsafeDbJson(EmailConfirmIssuedAtField);
  }

  /** The field list of `User`, position by position. */
  lemma UserFieldsAt()
    ensures |UserStruct.fields| == 9
    ensures UserStruct.fields[0] == IdField && UserStruct.fields[1] == UsernameField
    ensures UserStruct.fields[2] == EmailField && UserStruct.fields[3] == PasswordHashField
    ensures UserStruct.fields[4] == CreatedAtField && UserStruct.fields[5] == RoleField
    ensures UserStruct.fields[6] == EmailConfirmedField && UserStruct.fields[7] == EmailConfirmTokenField
    ensures UserStruct.fields[8] == EmailConfirmIssuedAtField
  {
  }

  /** The columns of `User` that the safe queries select and `UpdateUser` may write. */
  predicate IsUserSafeColumn(c: string) {
    c == "id" || c == "username" || c == "email" || c == "created_at" || c == "user_role"
  }

  /**
   * For `User` the safe set is exactly {id, username, email, created_at, user_role}: the
   * password hash, the confirmation flag and the confirmation token are never selected.
   */
  lemma UserSafeColumn(c: string)
    ensures c in SafeColumnNames(UserStruct.fields) <==> IsUserSafeColumn(c)
  {
    var fs := UserStruct.fields;
    SafeColumnNamesMembership(fs, c);
    SafeUserFields();
    UnsafeUserFields();
    UserFieldsAt();
    if IsUserSafeColumn(c) {
      var i := if c == "id" then 0 else if c == "username" then 1 else if c == "email" then 2
               else if c == "created_at" then 4 else 5;
      assert IsSafe(fs[i]) && ColumnName(fs[i]) == c;
    } else {
      forall i | 0 <= i < |fs| ensures !(IsSafe(fs[i]) && ColumnName(fs[i]) == c) {
        assert i == 0 || i == 1 || i == 2 || i == 3 || i == 4 || i == 5 || i == 6 || i == 7 || i == 8;
      }
    }
  }

  /** For `User` there is one column per field, in the order user.go declares them. */
  lemma UserAllColumnsInOrder()
    ensures AllColumnNames(UserStruct.fields) == UserAllColumns
  {
    var fs := UserStruct.fields;
    AllColumnNamesAt(fs);
    SafeUserFields();
    UnsafeUserFields();
    UserFieldsAt();
    forall i | 0 <= i < 9 ensures AllColumnNames(fs)[i] == UserAllColumns[i] {
      assert i == 0 || i == 1 || i == 2 || i == 3 || i == 4 || i == 5 || i == 6 || i == 7 || i == 8;
    }
  }
}
