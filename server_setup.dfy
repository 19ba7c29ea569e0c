/** Two pieces of the server's start-up in `launch`: the middleware that
    marks requests whose JSON body failed to parse, and the classification of
    the configured CORS origins into exact origins and patterns. */
module ServerSetup {
  import opened Wrappers
  import Text

  /** What the middleware can see of the error passed to it: whether it is a
      `SyntaxError`, its `status` (None when absent) and whether it has a
      `body` property. */
  datatype ErrorInfo = ErrorInfo(isSyntaxError: bool, status: Option<int>, hasBody: bool)

  /** How a middleware hands on the request: to the next handler, or to the
      next error handler with an error. */
  datatype Continuation = Next | NextWithError(err: ErrorInfo)

  /** The error the JSON body parser raises for a malformed body. */
  predicate IsJsonParseError(err: ErrorInfo) {
    err.isSyntaxError && err.status == Some(400) && err.hasBody
  }

  /** The request object, reduced to the flag the middleware sets. */
  class Request {
    var invalidJson: bool

    constructor ()
      ensures !invalidJson
    {
      invalidJson := false;
    }
  }

  /** The error middleware: flags a malformed JSON body and always passes the
      request on without the error, so every error is swallowed here. */
  method InvalidJsonMiddleware(err: ErrorInfo, req: Request) returns (k: Continuation)
    modifies req
    ensures req.invalidJson == (old(req.invalidJson) || IsJsonParseError(err))
    ensures !IsJsonParseError(err) ==> req.invalidJson == old(req.invalidJson)
    ensures k == Next
  {
    if IsJsonParseError(err) {
      req.invalidJson := true;
    }
    k := Next;
  }

  /** A configured CORS origin: an exact origin, or the source of a regular
      expression. */
  datatype Origin = Exact(origin: string) | Pattern(source: string)

  function Clamp(i: int, n: nat): nat {
    if i < 0 then 0 else if i > n then n else i
  }

  /** `s.substring(start, end)`: both bounds clamped to the string, and
      swapped when reversed. */
  function JsSubstring(s: string, start: int, end: int): string {
    var a := Clamp(start, |s|);
    var b := Clamp(end, |s|);
    if a <= b then s[a..b] else s[b..a]
  }

  /** One entry of `cors.origin`: an entry that starts and ends with `/`
      becomes a pattern of what lies between the slashes; every other entry
      stays as it is. */
  function CorsEntry(entry: string): (r: Origin)
    ensures r.Exact? <==> !(Text.StartsWith(entry, "/") && Text.EndsWith(entry, "/"))
    ensures r.Exact? ==> r.origin == entry
    ensures |entry| >= 2 && r.Pattern? ==> "/" + r.source + "/" == entry
    ensures entry == "/" ==> r == Pattern("/")
  {
    if Text.StartsWith(entry, "/") && Text.EndsWith(entry, "/") then
      Pattern(JsSubstring(entry, 1, |entry| - 1))
    else Exact(entry)
  }

  /** A slash-delimited entry becomes the pattern it delimits. */
  lemma CorsPatternRoundTrip(p: string)
    ensures CorsEntry("/" + p + "/") == Pattern(p)
  {
    var e := "/" + p + "/";
    assert Text.StartsWith(e, "/") && Text.EndsWith(e, "/");
    assert e[1..|e| - 1] == p;
  }

  /** The degenerate entries: a lone slash keeps its slash (the bounds are
      swapped) and a pair of slashes gives the empty pattern. */
  lemma CorsDegenerateEntries()
    ensures CorsEntry("/") == Pattern("/")
    ensures CorsEntry("//") == Pattern("")
  {
    CorsPatternRoundTrip("");
  }

  /** Whether `new RegExp` accepts an origin: an exact origin needs no
      compiling, a pattern needs a source that is a valid regular expression
      (`validPattern`, as regular-expression syntax is not part of this
      model). */
  predicate Compiles(o: Origin, validPattern: string -> bool) {
    o.Pattern? ==> validPattern(o.source)
  }

  /** `config.get('cors.origin').map(...)`: the first pattern that does not
      compile throws out of the map, and so out of `launch`; the failure
      carries that pattern's source. */
  function CorsOrigins(entries: seq<string>, validPattern: string -> bool): (r: Result<seq<Origin>, string>)
    ensures r.Success? <==> forall i :: 0 <= i < |entries| ==> Compiles(CorsEntry(entries[i]), validPattern)
    ensures r.Success? ==> |r.value| == |entries|
    ensures r.Success? ==> forall i :: 0 <= i < |entries| ==> r.value[i] == CorsEntry(entries[i])
    ensures r.Failure? ==>
      exists i :: (0 <= i < |entries| && CorsEntry(entries[i]) == Pattern(r.error) && !validPattern(r.error)
                   && forall j :: 0 <= j < i ==> Compiles(CorsEntry(entries[j]), validPattern))
  {
    if entries == [] then Success([])
    else
      var head := CorsEntry(entries[0]);
      if !Compiles(head, validPattern) then Failure(head.source)
      else
        match CorsOrigins(entries[1..], validPattern)
        case Failure(e) => Failure(e)
        case Success(rest) => Success([head] + rest)
  }
}
