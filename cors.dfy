/** The CORS policy of the server (server.js): the origin predicate handed to
    the cors middleware and the error handler that turns its rejection into a
    403 answer. */
module Cors {
  import opened Wrappers
  import opened Text
  import opened Json
  import opened Http

  const Localhost := "http://localhost:4200"
  const RejectionMessage := "Not allowed by CORS"

  /** `process.env.CORS_ORIGIN ? process.env.CORS_ORIGIN.split(',') : []`, then
      the local development origin pushed at the end. */
  function AllowedOrigins(corsOrigin: Option<string>): (r: seq<string>)
    ensures |r| >= 1 && r[|r| - 1] == Localhost
  {
    (if corsOrigin.Some? && corsOrigin.value != "" then Split(corsOrigin.value, ',') else []) + [Localhost]
  }

  /** The origin callback: `origin` is the request's Origin header (None when
      absent). It builds the list afresh on each call and then tests membership. */
  method CheckOrigin(corsOrigin: Option<string>, origin: Option<string>) returns (allowed: bool)
    ensures allowed <==> origin.None? || origin.value == "" || origin.value in AllowedOrigins(corsOrigin)
    ensures allowed <==> origin.None? || origin.value == "" || origin.value == Localhost ||
                         (corsOrigin.Some? && corsOrigin.value != "" && origin.value in Split(corsOrigin.value, ','))
  {
    var allowedOrigins: seq<string> := [];
    if corsOrigin.Some? && corsOrigin.value != "" {
      allowedOrigins := Split(corsOrigin.value, ',');
    }
    allowedOrigins := allowedOrigins + [Localhost];
    allowed := origin.None? || origin.value == "" || origin.value in allowedOrigins;
  }

  /** An origin is allowed iff it is absent, or listed, or the local development origin. */
  predicate OriginAllowed(corsOrigin: Option<string>, origin: Option<string>) {
    origin.None? || origin.value == "" || origin.value in AllowedOrigins(corsOrigin)
  }

  /** With CORS_ORIGIN unset (or empty), only an absent origin or the local
      development origin gets through. */
  lemma UnsetAllowsOnlyLocalhost(origin: Option<string>)
    ensures OriginAllowed(None, origin) <==> origin.None? || origin.value == "" || origin.value == Localhost
    ensures OriginAllowed(Some(""), origin) <==> origin.None? || origin.value == "" || origin.value == Localhost
  {
  }

  /** Entries are not trimmed: with CORS_ORIGIN "a, b" (a space after the
      comma) origin "a" is let in but origin "b" is not, because its entry is " b". */
  lemma EntriesNotTrimmed()
    ensures OriginAllowed(Some("a, b"), Some("a"))
    ensures !OriginAllowed(Some("a, b"), Some("b"))
  {
    assert "b"[1..] == "" && " b"[1..] == "b" && ", b"[1..] == " b" && "a, b"[1..] == ", b";
    assert ['b'] + "" == "b" && [' '] + "b" == " b" && ['a'] + "" == "a";
    assert Split("b", ',') == ["b"];
    assert Split(" b", ',') == [" b"];
    assert Split(", b", ',') == ["", " b"];
    assert Split("a, b", ',') == ["a", " b"];
  }

  /** The list is rebuilt on each call: it holds the configured entries and
      exactly one trailing localhost entry, however many requests came before. */
  lemma SingleTrailingLocalhost(corsOrigin: Option<string>)
    ensures var r := AllowedOrigins(corsOrigin);
            r[..|r| - 1] == (if corsOrigin.Some? && corsOrigin.value != "" then Split(corsOrigin.value, ',') else []) &&
            r[|r| - 1] == Localhost
  {
  }

  /** What reaches the final error handler. */
  datatype Thrown = ErrorObject(message: string) | OtherValue(v: Value)

  datatype Outcome = Respond(response: Response) | PassOn(err: Thrown)

  /** The final error handler: the CORS rejection becomes 403, everything else goes on. */
  function HandleError(err: Thrown): (r: Outcome)
    ensures r.Respond? <==> err == ErrorObject(RejectionMessage)
    ensures r.Respond? ==> r.response == Response(403, Message("CORS policy violation."))
    ensures r.PassOn? ==> r.err == err
  {
    if err.ErrorObject? && err.message == RejectionMessage then Respond(Response(403, Message("CORS policy violation.")))
    else PassOn(err)
  }

  /** The effect of the policy on a request: go on to the routes, or the answer
      the error handler gives when the origin callback rejects. */
  function CorsStage(corsOrigin: Option<string>, origin: Option<string>): Option<Outcome> {
    if OriginAllowed(corsOrigin, origin) then None else Some(HandleError(ErrorObject(RejectionMessage)))
  }

  /** A request from a disallowed origin is answered 403 {message:
      'CORS policy violation.'}; an allowed one reaches the routes. */
  lemma DisallowedOriginIs403(corsOrigin: Option<string>, origin: Option<string>)
    ensures CorsStage(corsOrigin, origin).None? <==> OriginAllowed(corsOrigin, origin)
    ensures !OriginAllowed(corsOrigin, origin) ==>
              CorsStage(corsOrigin, origin) == Some(Respond(Response(403, Message("CORS policy violation."))))
  {
  }
}
