/** The global error handler: how a failure becomes a JSON response. */
module ErrorHandler {
  import opened Store

  /** `{success: false, error, status?, stack?}`; the stack's text is not modelled, only whether
      the field is present. */
  datatype ErrorBody = ErrorBody(error: string, status: Wrappers.Option<nat>, hasStack: bool)

  datatype ErrorResponse = ErrorResponse(code: nat, body: ErrorBody)

  const InternalError: string := "Internal server error"

  /** `errorHandler`: an HTTP exception keeps its status and message; anything else is a 500
      whose message and stack are shown only in development. */
  function Handle(f: Failure, cfg: Config): (r: ErrorResponse)
    ensures f.HttpError? ==> r.code == f.status && r.body.error == f.message &&
                             r.body.status == Wrappers.Some(f.status) && !r.body.hasStack
    ensures f.Thrown? ==> r.code == 500 && r.body.status.None?
    ensures f.Thrown? ==> (r.body.hasStack <==> cfg.IsDevelopment())
    ensures f.Thrown? ==> r.body.error == if cfg.IsDevelopment() then f.message else InternalError
  {
    match f
    case HttpError(status, message) => ErrorResponse(status, ErrorBody(message, Wrappers.Some(status), false))
    case Thrown(message) =>
      var dev := cfg.IsDevelopment();
      ErrorResponse(500, ErrorBody(if dev then message else InternalError, Wrappers.None, dev))
  }

  /** Outside development, no unexpected error's message reaches the client. */
  lemma ProductionHidesDetail(m1: string, m2: string, cfg: Config)
    requires !cfg.IsDevelopment()
    ensures Handle(Thrown(m1), cfg) == Handle(Thrown(m2), cfg)
  {
  }
}
