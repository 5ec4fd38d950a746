/** The Netlify function `consultar`: the same check, forwarding and
    classification as the Express route, wrapped in a
    `{ statusCode, headers, body }` response, with a method check in front
    and every exception caught into one 500. */
module NetlifyFunction {
  import opened Wrappers
  import opened Text
  import opened Classifier
  import opened Api
  import ExpressRoute

  /** `JSON.parse(event.body || '{}')`: a value whose `cpf` member is read
      (a missing body parses as `{}`, so its `cpf` is `Absent`), or a parse
      exception, which stands also for a body of `null`, whose
      destructuring throws. */
  datatype EventBody = Malformed | Decoded(cpf: CpfField)

  datatype Event = Event(httpMethod: string, body: EventBody)

  /** The response body: the plain 405 text or a serialised JSON value. */
  datatype Body = PlainText(text: string) | JsonText(json: Json)

  /** The 405 response has no `headers` member; it is the empty map here. */
  datatype Response = Response(statusCode: int, headers: map<string, string>, body: Body)

  const JsonHeaders: map<string, string> :=
    map["Content-Type" := "application/json", "Access-Control-Allow-Origin" := "*"]

  /** What the `catch` block returns, whatever was thrown. */
  const Failure: Response := Response(500, JsonHeaders, JsonText(ErrorJson(ConnectMessage)))

  /** The answer once the upstream request has ended. */
  function Answer(up: Upstream): (r: Response)
    ensures r.headers == JsonHeaders
    ensures r.statusCode == 200 || r == Failure
    ensures r.statusCode == 200 <==> up.Received? && up.parsed.Page?
    ensures r.statusCode == 200 ==> r.body == JsonText(OutcomeJson(Classify(up.parsed.doc, up.html)))
  {
    match up
    case ConnectionError => Failure
    case Received(html, parsed) =>
      match parsed
      case ParseFailure => Failure
      case Page(doc) => Response(200, JsonHeaders, JsonText(OutcomeJson(Classify(doc, html))))
  }

  /** `handler(event)`, with the upstream request as the parameter
      `upstream`. */
  function Handler(event: Event, upstream: string -> Upstream): (x: Exchange<Response>)
    ensures x.request.Some? <==>
      event.httpMethod == "POST" && event.body.Decoded? && event.body.cpf.Str? && event.body.cpf.s != []
    ensures x.request.Some? ==> x.response == Answer(upstream(x.request.value))
  {
    if event.httpMethod != "POST" then
      Exchange(None, Response(405, map[], PlainText("Method Not Allowed")))
    else match event.body
      case Malformed => Exchange(None, Failure)
      case Decoded(cpf) =>
        if Falsy(cpf) then
          Exchange(None, Response(400, JsonHeaders, JsonText(ErrorJson(RequiredMessage))))
        else match cpf
          case Str(s) =>
            var form := FormBody(StripNonDigits(s));
            Exchange(Some(form), Answer(upstream(form)))
          case _ => Exchange(None, Failure)
  }

  /** Any method other than POST gets 405 before the body is looked at, and
      nothing is sent upstream. */
  lemma NonPostRejectedFirst(event: Event, upstream: string -> Upstream)
    ensures event.httpMethod != "POST" <==> Handler(event, upstream).response.statusCode == 405
    ensures event.httpMethod != "POST" ==>
      Handler(event, upstream)
        == Exchange(None, Response(405, map[], PlainText("Method Not Allowed")))
  {
  }

  /** A POST without a usable `cpf` gets 400 with the JSON headers, and
      nothing is sent upstream. */
  lemma MissingCpfRejected(cpf: CpfField, upstream: string -> Upstream)
    ensures var x := Handler(Event("POST", Decoded(cpf)), upstream);
      Falsy(cpf) <==> x.response.statusCode == 400
    ensures Falsy(cpf) ==>
      Handler(Event("POST", Decoded(cpf)), upstream)
        == Exchange(None, Response(400, JsonHeaders, JsonText(ErrorJson(RequiredMessage))))
  {
  }

  /** The forwarded `cpf` is the input's digits in order and nothing else. */
  lemma ForwardsDigits(s: string, upstream: string -> Upstream)
    requires s != []
    ensures var x := Handler(Event("POST", Decoded(Str(s))), upstream);
      && x.request.Some?
      && x.request.value[..4] == "cpf=" && x.request.value[4..] == StripNonDigits(s)
      && AllDigits(x.request.value[4..])
      && (forall c :: IsDigit(c) ==> multiset(x.request.value[4..])[c] == multiset(s)[c])
  {
    StripNonDigitsKeepsDigits(s);
  }

  /** Every classified page is answered with 200 and the JSON headers; a 500
      comes only from something thrown: a malformed body, a non-string
      `cpf`, a failed connection or a parser exception. */
  lemma StatusMeaning(event: Event, upstream: string -> Upstream)
    ensures var r := Handler(event, upstream).response;
      && (r.statusCode in {200, 400, 405, 500})
      && (r.statusCode != 405 ==> r.headers == JsonHeaders)
      && (r.statusCode == 500 <==> r == Failure)
  {
  }

  /** On a POST, the Netlify function and the Express route send the same
      request upstream and agree on the answer: the same 200 outcome or 400
      message, and a 500 wherever the Express route fails or never answers. */
  lemma HandlersAgree(cpf: CpfField, upstream: string -> Upstream)
    ensures var n := Handler(Event("POST", Decoded(cpf)), upstream);
      var e := ExpressRoute.Consultar(cpf, upstream);
      && n.request == e.request
      && (e.response.NoReply? ==> n.response == Failure)
      && (e.response.Reply? ==> n.response.statusCode == e.response.status)
      && (e.response.Reply? && e.response.status != 500 ==> n.response.body == JsonText(e.response.body))
  {
  }
}
