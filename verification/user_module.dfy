/** `createUser` of modules/userModule.js: insert one user and classify the
    outcome of the insert. */
module UserModule {
  import opened Js
  import opened Strings
  import opened Db

  /** The name of the unique constraint on `UserInfo.user_name`. */
  const UserNameKey: string := "userinfo_user_name_key"

  const QuerySuccessful: string := "Query Successful"
  const UsernameExists: string := "Username already exists"
  const InternalServerError: string := "Internal Server Error"

  /** The `error` property of a result: the literal string `'None'`, the
      driver error's own `error` property, or the whole driver error. */
  datatype ErrorInfo = NoneText | NestedError(value: JsValue) | WholeError(error: DbError)

  /** The object `createUser` resolves with. */
  datatype UserResult = UserResult(success: bool, userId: JsValue, message: string, error: ErrorInfo)

  /** The values bound to `$1, $2, $3` of the insert: name, password, type. */
  function InsertUserValues(userName: JsValue, userPassword: JsValue, userType: JsValue): seq<JsValue>
  {
    [userName, userPassword, userType]
  }

  /** `createUser`, given the outcome of its insert. It resolves unless the
      insert failed without a `constraint`, in which case `.includes` is read
      off `undefined` inside the `catch` and the call rejects. */
  function CreateUser(outcome: DbOutcome<UserRow>): (r: Completion<UserResult>)
    // exactly one inserted row is a success carrying the new id
    ensures r.Normal? && r.value.success <==> outcome.Ok? && outcome.rowCount == 1
    ensures outcome.Ok? && outcome.rowCount == 1 ==>
      r.value.userId == (if |outcome.rows| > 0 then Num(outcome.rows[0].userId) else Undefined)
    // a resolved query is "successful" whatever its row count
    ensures outcome.Ok? ==> r.Normal? && r.value.message == QuerySuccessful && r.value.error == NoneText
    // every failure result carries the id -1
    ensures r.Normal? && !r.value.success ==> r.value.userId == Num(-1)
    // a rejected query: duplicate name, other constraint, or no constraint at all
    ensures outcome.Err? && outcome.error.constraint.Some? ==>
      r.Normal? &&
      (r.value.message == UsernameExists <==> Includes(outcome.error.constraint.value, UserNameKey))
    ensures outcome.Err? && outcome.error.constraint.Some? && !Includes(outcome.error.constraint.value, UserNameKey) ==>
      r == Normal(UserResult(false, Num(-1), InternalServerError, WholeError(outcome.error)))
    ensures r.Threw? <==> outcome.Err? && outcome.error.constraint.None?
  {
    match outcome
    case Ok(rowCount, rows) =>
      if rowCount == 1 then
        Normal(UserResult(true, if |rows| > 0 then Num(rows[0].userId) else Undefined, QuerySuccessful, NoneText))
      else
        Normal(UserResult(false, Num(-1), QuerySuccessful, NoneText))
    case Err(e) =>
      match e.constraint
      case None => Threw(TypeError)
      case Some(c) =>
        if Includes(c, UserNameKey) then
          Normal(UserResult(false, Num(-1), UsernameExists, NestedError(e.errorProp)))
        else
          Normal(UserResult(false, Num(-1), InternalServerError, WholeError(e)))
  }

  /** A duplicate-name rejection is recognised by a substring match, so any
      constraint name that contains the key, however decorated, counts. */
  lemma DuplicateDetectedBySubstring(prefix: string, suffix: string, errorProp: JsValue)
    ensures CreateUser(Err(DbError(Some(prefix + UserNameKey + suffix), errorProp)))
         == Normal(UserResult(false, Num(-1), UsernameExists, NestedError(errorProp)))
  {
    var c := prefix + UserNameKey + suffix;
    assert c[|prefix|..|prefix| + |UserNameKey|] == UserNameKey;
    assert OccursAt(c, UserNameKey, |prefix|);
    IncludesIffOccurs(c, UserNameKey);
  }
}
