/** Turning an exception caught by a route handler into an HTTP error answer:
    the status follows the exception's class (and, for database errors, the
    database's error code) and the body is `{success: false, reason}`. */
module DbErrors {
  import opened Wrappers
  import opened Json
  import opened Http

  /** The `meta` object of a known database error, reduced to `cause`. */
  datatype PrismaMeta = PrismaMeta(cause: Option<string>)

  /** The exceptions the handlers pass in, by class. */
  datatype ErrorObj =
    | Unauthorized(message: string)
    | NotFound(message: string)
    | PrismaKnown(message: string, code: string, meta: Option<PrismaMeta>)
    | OtherError(message: string)

  /** The error codes with a status of their own. */
  const PrismaErrorMap: map<string, int> := map["P2002" := 409, "P2003" := 404, "P2022" := 404, "P2025" := 404]

  /** `message.replace(/\n/g, '')`. */
  function Sanitize(s: string): (r: string)
    ensures '\n' !in r
    ensures '\n' !in s ==> r == s
  {
    if s == [] then []
    else
      assert s == [s[0]] + s[1..];
      if s[0] == '\n' then Sanitize(s[1..]) else [s[0]] + Sanitize(s[1..])
  }

  /** Sanitizing removes the newlines and keeps every other character. */
  lemma {:induction false} SanitizeKeepsOthers(s: string)
    ensures multiset(Sanitize(s)) == multiset(s)['\n' := 0]
    ensures |Sanitize(s)| == |s| - multiset(s)['\n']
  {
    if s != [] {
      SanitizeKeepsOthers(s[1..]);
      assert s == [s[0]] + s[1..];
    }
  }

  /** Sanitizing works character by character: the text of a concatenation
      is the concatenation of the sanitized parts, so the kept characters stay
      in their order. */
  lemma {:induction false} SanitizeConcat(a: string, b: string)
    ensures Sanitize(a + b) == Sanitize(a) + Sanitize(b)
  {
    if a == [] {
      assert a + b == b;
    } else {
      var head := if a[0] == '\n' then [] else [a[0]];
      assert (a + b)[0] == a[0];
      assert (a + b)[1..] == a[1..] + b;
      calc {
        Sanitize(a + b);
        { SanitizeFirst(a + b); }
        head + Sanitize(a[1..] + b);
        { SanitizeConcat(a[1..], b); }
        head + (Sanitize(a[1..]) + Sanitize(b));
        (head + Sanitize(a[1..])) + Sanitize(b);
        { SanitizeFirst(a); }
        Sanitize(a) + Sanitize(b);
      }
    }
  }

  /** One step of the definition: the first character is dropped or kept. */
  lemma SanitizeFirst(s: string)
    requires s != []
    ensures Sanitize(s) == (if s[0] == '\n' then [] else [s[0]]) + Sanitize(s[1..])
  {
  }

  /** The body every error answer carries. */
  function ErrorBody(reason: string): Json {
    JObj(map["success" := JBool(false), "reason" := JStr(reason)])
  }

  /** `error(res, status, reason)`. */
  function Error(status: int, reason: string): (r: Response)
    ensures r.status == status && r.body == Some(ErrorBody(reason))
  {
    Response(status, Some(ErrorBody(reason)))
  }

  /** `prismaErrorMap[code] || 500`. */
  function PrismaStatus(code: string): (r: int)
    ensures r == 409 <==> code == "P2002"
    ensures r == 404 <==> code in {"P2003", "P2022", "P2025"}
    ensures r == 500 <==> code !in PrismaErrorMap
  {
    if code in PrismaErrorMap then PrismaErrorMap[code] else 500
  }

  /** `errorObj.meta.cause || msg`: a non-empty cause, else the message. */
  function PrismaReason(cause: Option<string>, msg: string): string {
    if cause.Some? && cause.value != "" then cause.value else msg
  }

  /** `dbErrResponse(errorObj, res)`: the answer sent, or a TypeError when a
      database error carries no `meta`. */
  function DbErrResponse(e: ErrorObj): (r: Result<Response, string>)
    ensures r.Failure? <==> e.PrismaKnown? && e.meta.None?
    ensures r.Success? ==> r.value.body.Some? && r.value.body.value.JObj?
    ensures e.Unauthorized? ==> r == Success(Error(401, Sanitize(e.message)))
    ensures e.NotFound? ==> r == Success(Error(404, Sanitize(e.message)))
    ensures e.OtherError? ==> r == Success(Error(500, Sanitize(e.message)))
    ensures e.PrismaKnown? && e.meta.Some? ==>
      r == Success(Error(PrismaStatus(e.code), PrismaReason(e.meta.value.cause, Sanitize(e.message))))
  {
    var msg := Sanitize(e.message);
    match e
    case Unauthorized(_) => Success(Error(401, msg))
    case NotFound(_) => Success(Error(404, msg))
    case PrismaKnown(_, code, meta) =>
      if meta.None? then Failure("Cannot read properties of undefined (reading 'cause')")
      else Success(Error(PrismaStatus(code), PrismaReason(meta.value.cause, msg)))
    case OtherError(_) => Success(Error(500, msg))
  }

  /** The status of an answer is one of 401, 404, 409 or 500, and the body's
      reason never holds a newline unless it came from a database `cause`. */
  lemma ErrorStatusRange(e: ErrorObj)
    requires DbErrResponse(e).Success?
    ensures DbErrResponse(e).value.status in {401, 404, 409, 500}
    ensures !e.PrismaKnown? ==>
      DbErrResponse(e).value.body == Some(ErrorBody(Sanitize(e.message))) && '\n' !in Sanitize(e.message)
    ensures DbErrResponse(e).value.status == 401 <==> e.Unauthorized?
    ensures DbErrResponse(e).value.status == 409 <==> e.PrismaKnown? && e.code == "P2002"
  {
  }
}
