/**
 * One health-check probe: what the HTTP GET against the health-check URL
 * produced, the probe configuration, and the verdict drawn from the two.
 */
module Probe {
  import opened Text

  const StatusOK := 200

  /** The body of a received response as the probe would read it. */
  datatype Body = Unreadable | Readable(text: string)

  /** The abstract result of the GET request against the health-check URL. */
  datatype Outcome =
    | NetError                          // no response: refused, DNS failure, timeout, ...
    | Response(status: int, body: Body) // a response arrived

  /** The parts of the configuration the probe consumes. An empty `expectedBody` means "ignore the body". */
  datatype Config = Config(validStatuses: seq<int>, expectedBody: string)

  /** The configuration the program builds when `HEALTH_CHECK_BODY` is `body`: the valid-status list is fixed to [200]. */
  function DefaultConfig(body: string): Config
  {
    Config([StatusOK], body)
  }

  /** What one probe concludes. */
  datatype Verdict =
    | Unreachable                       // the request itself failed
    | Aborted                           // the body had to be read and could not be
    | Judged(passed: bool, status: int) // a response was judged

  /** The response body matches the expected body once both are trimmed of surrounding white space. */
  predicate BodyMatches(expected: string, text: string)
  {
    TrimSpace(text) == TrimSpace(expected)
  }

  /**
   * The verdict of one probe. The status must be in the valid-status list and,
   * only when an expected body is configured, the body is read and must match it.
   */
  function Evaluate(config: Config, outcome: Outcome): (v: Verdict)
    ensures v.Unreachable? <==> outcome.NetError?
    ensures v.Aborted? <==> outcome.Response? && config.expectedBody != "" && outcome.body.Unreadable?
    ensures v.Judged? ==> outcome.Response? && v.status == outcome.status
    ensures v.Judged? ==>
              (v.passed <==> outcome.status in config.validStatuses
                             && (config.expectedBody == "" || BodyMatches(config.expectedBody, outcome.body.text)))
  {
    match outcome
    case NetError => Unreachable
    case Response(status, body) =>
      var statusValid := status in config.validStatuses;
      if config.expectedBody == "" then Judged(statusValid, status)
      else match body
        case Unreadable => Aborted
        case Readable(text) => Judged(statusValid && BodyMatches(config.expectedBody, text), status)
  }

  /** With no expected body configured the body is never consulted: any two bodies give the same verdict. */
  lemma BodyIgnoredWithoutExpectation(config: Config, status: int, b1: Body, b2: Body)
    requires config.expectedBody == ""
    ensures Evaluate(config, Response(status, b1)) == Evaluate(config, Response(status, b2))
    ensures Evaluate(config, Response(status, b1)).Judged?
  {
  }

  /**
   * Round trip: a response with an accepted status whose body is the expected
   * body with any white space around it passes.
   */
  lemma PaddedExpectedBodyPasses(config: Config, status: int, w1: string, w2: string)
    requires status in config.validStatuses
    requires AllSpace(w1) && AllSpace(w2)
    ensures Evaluate(config, Response(status, Readable(w1 + config.expectedBody + w2))) == Judged(true, status)
  {
    PaddingInvisible(w1, config.expectedBody, w2);
  }

  /** Any status outside the valid-status list fails, whatever readable body arrives. */
  lemma RejectedStatusFails(config: Config, status: int, text: string)
    requires status !in config.validStatuses
    ensures Evaluate(config, Response(status, Readable(text))) == Judged(false, status)
  {
  }

  /** With the program's own configuration the status must be exactly 200. */
  lemma DefaultAcceptsOnlyOK(body: string, status: int, text: string)
    ensures Evaluate(DefaultConfig(body), Response(status, Readable(text))).passed
            <==> status == StatusOK && (body == "" || BodyMatches(body, text))
  {
  }

  /**
   * Only the outside is trimmed: with a configured (non-empty) expected body,
   * when neither it nor the received text has white space at its ends, they
   * must be equal exactly, inner white space included, or the check fails.
   * An empty received text is covered too.
   */
  lemma InnerSpaceMatters(config: Config, status: int, text: string)
    requires config.expectedBody != [] && !IsSpace(config.expectedBody[0])
             && !IsSpace(config.expectedBody[|config.expectedBody| - 1])
    requires text == [] || (!IsSpace(text[0]) && !IsSpace(text[|text| - 1]))
    requires text != config.expectedBody
    ensures Evaluate(config, Response(status, Readable(text))) == Judged(false, status)
  {
    var expected := config.expectedBody;
    InnerSpaceKept(expected);
    if text != [] {
      InnerSpaceKept(text);
    }
    assert TrimSpace(text) != TrimSpace(expected);
    var v := Evaluate(config, Response(status, Readable(text)));
    assert v.Judged? && v.status == status;
    assert !v.passed;
  }
}
