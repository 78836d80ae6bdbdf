/** `registerUser` of controllers/userController.js: check the three inputs,
    hash the password, store the user, and map the store's result to the
    response. bcrypt is salted, so its output is an input of the model (the
    value the library produced for this call); the run records what it was
    asked to hash and what the insert was given. */
module UserController {
  import opened Js
  import opened Db
  import opened UserModule

  /** bcrypt's cost factor. */
  const SaltRounds: int := 10

  const RegistrationSuccessful: string := "Registration Successful"
  const RegistrationUnsuccessful: string := "Registration Unsuccessful"
  const InvalidInputs: string := "Invalid Inputs"

  datatype RegisterBody =
    | RegisterJson(success: bool, userId: JsValue, message: string, error: Option<ErrorInfo>)
    | InternalError(statusCode: int, message: string)

  /** One registration: the `bcrypt.hash` call made (password and cost), the
      values bound into the insert, the HTTP status and the JSON body. */
  datatype Registration = Registration(
    hashRequest: Option<(JsValue, int)>,
    stored: Option<seq<JsValue>>,
    status: int,
    body: RegisterBody)

  /** `userName && userPassword && userType`. */
  predicate InputsPresent(body: map<string, JsValue>)
  {
    Truthy(Get(body, "userName")) && Truthy(Get(body, "userPassword")) && Truthy(Get(body, "userType"))
  }

  /** The response to a call that resolved with the store's result. */
  function Reply(result: UserResult): RegisterBody
  {
    RegisterJson(
      result.success,
      result.userId,
      if result.success then RegistrationSuccessful else RegistrationUnsuccessful,
      Some(result.error))
  }

  /** `registerUser(req, res)` with request body `body`, the hash bcrypt
      produced (or its failure) and the outcome of the insert. */
  function RegisterUser(body: map<string, JsValue>, hashed: Completion<string>, insert: DbOutcome<UserRow>): (r: Registration)
    // the input gate: nothing is hashed or stored unless all three inputs are truthy
    ensures r.hashRequest.Some? <==> InputsPresent(body)
    ensures !InputsPresent(body) ==>
      r == Registration(None, None, 200, RegisterJson(false, Num(-1), InvalidInputs, None))
    ensures InputsPresent(body) ==> r.hashRequest == Some((Get(body, "userPassword"), SaltRounds))
    // the store gets name, hash and type, in that order, and never the raw password
    ensures r.stored.Some? <==> InputsPresent(body) && hashed.Normal?
    ensures r.stored.Some? ==>
      r.stored.value == [Get(body, "userName"), Str(hashed.value), Get(body, "userType")]
    // a throw from hashing or from the store's `catch` is a 500
    ensures r.status == 500 <==>
      InputsPresent(body) && (hashed.Threw? || UserModule.CreateUser(insert).Threw?)
    ensures r.status != 500 ==> r.status == 200 && r.body.RegisterJson?
    ensures r.status == 500 ==> r.body == InternalError(500, "Internal Server Error")
    // otherwise success and id are the store's, and the message follows success
    ensures r.stored.Some? && r.status == 200 ==>
      var c := UserModule.CreateUser(insert).value;
      r.body.success == c.success && r.body.userId == c.userId && r.body.error == Some(c.error)
    ensures r.body.RegisterJson? ==>
      (r.body.message == RegistrationSuccessful <==> r.body.success)
    ensures r.body.RegisterJson? && !r.body.success ==> r.body.userId == Num(-1)
  {
    if InputsPresent(body) then
      var userName := Get(body, "userName");
      var userPassword := Get(body, "userPassword");
      var userType := Get(body, "userType");
      var hashRequest := Some((userPassword, SaltRounds));
      match hashed
      case Threw(_) =>
        Registration(hashRequest, None, 500, InternalError(500, "Internal Server Error"))
      case Normal(hash) =>
        var stored := InsertUserValues(userName, Str(hash), userType);
        match UserModule.CreateUser(insert)
        case Threw(_) =>
          Registration(hashRequest, Some(stored), 500, InternalError(500, "Internal Server Error"))
        case Normal(result) =>
          Registration(hashRequest, Some(stored), 200, Reply(result))
    else
      Registration(None, None, 200, RegisterJson(false, Num(-1), InvalidInputs, None))
  }

  /** Registering a name that is already taken: the insert violates the
      name's unique constraint and the response reports failure with id -1
      (status 200, not a conflict status). */
  lemma DuplicateNameRegistration(body: map<string, JsValue>, hash: string, prefix: string, suffix: string, errorProp: JsValue)
    requires InputsPresent(body)
    ensures RegisterUser(body, Normal(hash), Err(DbError(Some(prefix + UserNameKey + suffix), errorProp))).body
         == RegisterJson(false, Num(-1), RegistrationUnsuccessful, Some(NestedError(errorProp)))
  {
    DuplicateDetectedBySubstring(prefix, suffix, errorProp);
  }

  /** The role is not restricted to buyer or seller: any non-empty string
      passes the gate. */
  lemma AnyRoleAccepted(userName: string, userPassword: string, userType: string)
    requires userName != "" && userPassword != "" && userType != ""
    ensures InputsPresent(map["userName" := Str(userName), "userPassword" := Str(userPassword), "userType" := Str(userType)])
  {
  }
}
