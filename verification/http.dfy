/** The parts of an Express request the core reads, and the record a
    handler run leaves behind. */
module Http {
  import opened Js

  /** The decoded token payload the login flow signs: the user's id and type. */
  datatype Payload = Payload(userId: JsValue, userType: JsValue)

  /** `req.headers['authorization']`, `req.params`, `req.body`, and `req.user`
      (absent until `authenticateUser` sets it). */
  datatype Request = Request(
    authorization: Option<string>,
    params: map<string, string>,
    body: map<string, JsValue>,
    user: Option<Payload>)

  /** A request as Express hands it to the first middleware: nothing has set
      `req.user` yet. */
  predicate Incoming(req: Request)
  {
    req.user.None?
  }

  /** `req.params[name]`: route parameters are strings. */
  function Param(req: Request, name: string): JsValue
  {
    if name in req.params then Str(req.params[name]) else Undefined
  }

  /** One handler run: the arguments it handed to its collaborator (the
      values bound into its query, or the arguments of the helper it
      awaited), if it got that far, and the JSON body it answered with. */
  datatype Run<B> = Run(call: Option<seq<JsValue>>, body: B)
}
