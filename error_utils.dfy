/** Errors and their HTTP rendering (app/utils/error_utils.go).

    A Go `error` value is modelled by `GoError`: a plain error made by
    `errors.New`, an `*AppError`, or an error wrapped by another one (the
    chain `errors.Unwrap` walks).  The HTTP reply `http.Error` writes is
    the pair (status code, message). */
module ErrorUtils {
  import opened Wrappers
  import Decimal

  /** AppError: an HTTP status code with a user-facing message. */
  datatype AppError = AppError(statusCode: int, message: string)

  datatype GoError =
    | Plain(text: string)
    | App(app: AppError)
    | Wrapped(context: string, inner: GoError)

  /** An HTTP error reply as `http.Error` writes it. */
  datatype Reply = Reply(status: int, message: string)

  const StatusInternalServerError: int := 500
  const InternalServerErrorMessage: string := "Internal Server Error"

  /** AppError.Error: `fmt.Sprintf("Error %d: %s", code, message)`. */
  function ErrorText(e: AppError): (s: string)
    ensures s == "Error " + Decimal.Itoa(e.statusCode) + ": " + e.message
    ensures s[..6] == "Error " && s[|s| - |e.message|..] == e.message
  {
    "Error " + Decimal.Itoa(e.statusCode) + ": " + e.message
  }

  /** NewAppError keeps the code and the message as given. */
  function NewAppError(statusCode: int, message: string): (e: AppError)
    ensures e.statusCode == statusCode && e.message == message
  {
    AppError(statusCode, message)
  }

  /** The errors `errors.As` visits: the error itself, then what it wraps. */
  function Chain(err: GoError): (c: seq<GoError>)
    ensures |c| > 0 && c[0] == err
  {
    match err
    case Wrapped(_, inner) => [err] + Chain(inner)
    case _ => [err]
  }

  /** errors.As(err, &appErr) for target type *AppError: the first AppError
      along the wrap chain (FirstAppErrorWins says which one). */
  function AsAppError(err: GoError): (r: Option<AppError>)
    ensures r.Some? <==> exists e :: e in Chain(err) && e.App?
    ensures r.Some? ==> App(r.value) in Chain(err)
  {
    match err
    case App(a) =>
      assert Chain(err)[0] == err;
      Some(a)
    case Plain(_) => None
    case Wrapped(_, inner) =>
      assert Chain(err) == [err] + Chain(inner);
      AsAppError(inner)
  }

  /** Of several AppErrors along the chain, the outermost one is found. */
  lemma {:induction false} FirstAppErrorWins(err: GoError, outer: seq<GoError>, a: AppError, rest: seq<GoError>)
    requires Chain(err) == outer + [App(a)] + rest
    requires forall e :: e in outer ==> !e.App?
    ensures AsAppError(err) == Some(a)
  {
    if err.Wrapped? && outer != [] {
      assert Chain(err) == [err] + Chain(err.inner);
      assert (outer + [App(a)] + rest)[1..] == outer[1..] + [App(a)] + rest;
      FirstAppErrorWins(err.inner, outer[1..], a, rest);
    }
  }

  /** HandleError: an AppError anywhere in the chain is answered with its own
      status and message; anything else with 500 "Internal Server Error".
      (The server-side log line is not modelled.) */
  function HandleError(err: GoError): (reply: Reply)
    ensures (exists e :: e in Chain(err) && e.App?) ==>
              App(AppError(reply.status, reply.message)) in Chain(err)
    ensures (forall e :: e in Chain(err) ==> !e.App?) ==>
              reply == Reply(StatusInternalServerError, InternalServerErrorMessage)
  {
    match AsAppError(err)
    case Some(appErr) => Reply(appErr.statusCode, appErr.message)
    case None => Reply(StatusInternalServerError, InternalServerErrorMessage)
  }

  /** HandleError2: a copy of HandleError in the source. */
  function HandleError2(err: GoError): (reply: Reply)
    ensures reply == HandleError(err)
  {
    match AsAppError(err)
    case Some(appErr) => Reply(appErr.statusCode, appErr.message)
    case None => Reply(StatusInternalServerError, InternalServerErrorMessage)
  }

  /** HandleError3: another copy of HandleError in the source. */
  function HandleError3(err: GoError): (reply: Reply)
    ensures reply == HandleError(err)
  {
    match AsAppError(err)
    case Some(appErr) => Reply(appErr.statusCode, appErr.message)
    case None => Reply(StatusInternalServerError, InternalServerErrorMessage)
  }

  /** The three handlers answer every error alike. */
  lemma HandlersAgree(err: GoError)
    ensures HandleError2(err) == HandleError(err) && HandleError3(err) == HandleError(err)
  {
  }

  /** Wrapping an error (fmt.Errorf with %w) does not change its reply. */
  lemma {:induction false} WrappingKeepsReply(context: string, err: GoError)
    ensures HandleError(Wrapped(context, err)) == HandleError(err)
  {
  }

  /** An AppError buried under any number of wrappers decides the reply. */
  lemma {:induction false} BuriedAppErrorDecides(err: GoError, a: AppError)
    requires App(a) in Chain(err)
    requires forall e :: e in Chain(err) && e.App? ==> e == App(a)
    ensures HandleError(err) == Reply(a.statusCode, a.message)
  {
    var r := AsAppError(err);
    assert r.Some?;
    assert App(r.value) in Chain(err);
  }

  /** An error with no AppError in its chain gets the generic 500 reply. */
  lemma {:induction false} OtherErrorsAreInternal(err: GoError)
    requires forall e :: e in Chain(err) ==> !e.App?
    ensures HandleError(err) == Reply(500, "Internal Server Error")
  {
  }
}
