/**
 * The application-level request handling of the bookmark API: the static bearer-token
 * gate every request passes first, the logging-format choice, and the error handler that
 * turns an unexpected error into a 500 response.
 */
module App {
  import opened Wrappers
  import opened Http
  import opened JsString

  /** The token the configuration falls back to when the environment sets none. */
  const DefaultApiToken: string := "abcd12345"

  /** `API_TOKEN` as the configuration exports it: the environment's value unless that is empty or unset. */
  function ConfiguredApiToken(envToken: Option<string>): (token: string)
    ensures token != ""
    ensures envToken.Some? && envToken.value != "" ==> token == envToken.value
    ensures envToken.None? || envToken.value == "" ==> token == DefaultApiToken
  {
    if envToken.Some? && envToken.value != "" then envToken.value else DefaultApiToken
  }

  /**
   * The token a request is checked against: the environment's `API_TOKEN` when it is set
   * and non-empty, otherwise the configured one.
   */
  function RequestApiToken(envToken: Option<string>, configured: string): (token: string)
    ensures configured != "" ==> token != ""
    ensures token == configured || Some(token) == envToken
  {
    if envToken.Some? && envToken.value != "" then envToken.value else configured
  }

  /** Whichever way it is chosen, the token compared at request time is never empty. */
  lemma RequestApiTokenPrecedence(envToken: Option<string>, configured: string)
    ensures envToken.Some? && envToken.value != "" ==> RequestApiToken(envToken, configured) == envToken.value
    ensures envToken.None? || envToken.value == "" ==> RequestApiToken(envToken, configured) == configured
    ensures configured == ConfiguredApiToken(envToken) ==> RequestApiToken(envToken, configured) != ""
  {
  }

  function UnauthorizedBody(): Json {
    ErrorBody("Unauthorized Request")
  }

  /**
   * The gate in front of every route: reject with 401 unless the `Authorization` header is
   * present, non-empty, and its second space-separated piece equals the token. The first
   * piece (the scheme word) is never looked at.
   */
  function ValidateBearerToken(header: Option<string>, apiToken: string): (r: Outcome)
    ensures r == Proceed || r == Reply(401, UnauthorizedBody())
    ensures header.None? ==> r == Reply(401, UnauthorizedBody())
    ensures r == Proceed ==> exists i | 0 <= i < |header.value| :: header.value[i] == ' '
  {
    if header.None? || header.value == "" || Piece(Split(header.value), 1) != Some(apiToken) then
      Reply(401, UnauthorizedBody())
    else
      assert ' ' in header.value by {
        var pieces := Split(header.value);
        if ' ' !in header.value {
          SplitSpaceFree(header.value);
          assert false;
        }
      }
      Proceed
  }

  /** `header` is some space-free scheme word, one space, the token, and then nothing or a space-led tail. */
  predicate BearerForm(header: string, token: string, scheme: string, tail: string) {
    SpaceFree(scheme) && header == scheme + " " + token + tail && (tail == "" || tail[0] == ' ')
  }

  /** A header that passes the gate has the bearer form with the token as its second piece. */
  lemma AcceptedHasBearerForm(header: string, token: string)
    requires ValidateBearerToken(Some(header), token) == Proceed
    ensures exists scheme, tail :: BearerForm(header, token, scheme, tail)
  {
    var pieces := Split(header);
    assert |pieces| >= 2 && pieces[1] == token;
    var scheme := pieces[0];
    var tail := if |pieces| == 2 then "" else " " + Join(pieces[2..]);
    assert pieces[1..][1..] == pieces[2..];
    assert Join(pieces[1..]) == token + tail;
    assert header == scheme + " " + (token + tail);
    assert BearerForm(header, token, scheme, tail);
  }

  /** A header in bearer form with a space-free token passes the gate, whatever its scheme word. */
  lemma BearerFormAccepted(header: string, token: string, scheme: string, tail: string)
    requires SpaceFree(token) && BearerForm(header, token, scheme, tail)
    ensures ValidateBearerToken(Some(header), token) == Proceed
  {
    assert header == scheme + " " + (token + tail);
    SplitAfterWord(scheme, token + tail);
    if tail == "" {
      assert token + tail == token;
      SplitSpaceFree(token);
    } else {
      assert token + tail == token + " " + tail[1..];
      SplitAfterWord(token, tail[1..]);
    }
    assert Split(header)[1] == token;
  }

  /** For a space-free token, a header passes the gate exactly when it has the bearer form with that token. */
  lemma AcceptedExactly(header: string, token: string)
    requires SpaceFree(token)
    ensures ValidateBearerToken(Some(header), token) == Proceed <==>
            exists scheme, tail :: BearerForm(header, token, scheme, tail)
  {
    if ValidateBearerToken(Some(header), token) == Proceed {
      AcceptedHasBearerForm(header, token);
    }
    if exists scheme, tail :: BearerForm(header, token, scheme, tail) {
      var scheme, tail :| BearerForm(header, token, scheme, tail);
      BearerFormAccepted(header, token, scheme, tail);
    }
  }

  /** Any scheme word passes: `Basic t`, `Token t` or `x t` are as good as `Bearer t`. */
  lemma AnySchemeAccepted(scheme: string, token: string)
    requires SpaceFree(scheme) && SpaceFree(token)
    ensures ValidateBearerToken(Some(scheme + " " + token), token) == Proceed
  {
    assert BearerForm(scheme + " " + token, token, scheme, "");
    BearerFormAccepted(scheme + " " + token, token, scheme, "");
  }

  /** A header without any space has no second piece, so it is rejected whatever the token. */
  lemma NoSpaceRejected(header: string, token: string)
    requires SpaceFree(header)
    ensures ValidateBearerToken(Some(header), token) == Reply(401, UnauthorizedBody())
  {
  }

  /** Two spaces after the scheme word make the second piece empty, which a non-empty token never equals. */
  lemma DoubleSpaceRejected(scheme: string, rest: string, token: string)
    requires SpaceFree(scheme) && token != ""
    ensures ValidateBearerToken(Some(scheme + "  " + rest), token) == Reply(401, UnauthorizedBody())
  {
    var header := scheme + "  " + rest;
    assert header == scheme + " " + ("" + " " + rest);
    SplitAfterWord(scheme, "" + " " + rest);
    SplitAfterWord("", rest);
    assert Split(header)[1] == "";
  }

  /** A token that itself holds a space can never equal a piece, so every request is rejected. */
  lemma SpacedTokenNeverAccepted(header: string, token: string)
    requires !SpaceFree(token)
    ensures ValidateBearerToken(Some(header), token) == Reply(401, UnauthorizedBody())
  {
  }

  /** The request-logging format: terse in production, developer-oriented everywhere else. */
  function MorganFormat(nodeEnv: string): (format: string)
    ensures format == "tiny" || format == "dev"
    ensures format == "tiny" <==> nodeEnv == "production"
  {
    if nodeEnv == "production" then "tiny" else "dev"
  }

  function ServerErrorBody(): Json {
    JObj([("error", JObj([("message", JStr("server error"))]))])
  }

  /**
   * The last middleware: every error that reaches it becomes a 500. Production sends a
   * fixed body; any other mode sends the error's message next to the error itself, which
   * serialises to its enumerable own properties.
   */
  function ErrorHandler(nodeEnv: string, error: JsError): (r: Outcome)
    ensures r.Reply? && r.status == 500
    ensures nodeEnv == "production" ==> r.body == ServerErrorBody()
    ensures nodeEnv != "production" ==>
              r.body.JObj? && |r.body.fields| == 2 && r.body.fields[0] == ("message", JStr(error.message)) &&
              r.body.fields[1] == ("error", JObj(error.enumerable))
  {
    if nodeEnv == "production" then
      Reply(500, ServerErrorBody())
    else
      Reply(500, JObj([("message", JStr(error.message)), ("error", JObj(error.enumerable))]))
  }

  /** In production the response does not depend on the error at all, so nothing about it leaks. */
  lemma ProductionHidesError(e1: JsError, e2: JsError)
    ensures ErrorHandler("production", e1) == ErrorHandler("production", e2)
  {
  }

  /** Outside production, two errors with different messages give different responses. */
  lemma DevelopmentShowsMessage(nodeEnv: string, e1: JsError, e2: JsError)
    requires nodeEnv != "production" && e1.message != e2.message
    ensures ErrorHandler(nodeEnv, e1) != ErrorHandler(nodeEnv, e2)
  {
  }
}
