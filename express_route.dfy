/** The Express route `POST /api/consultar`: check that a `cpf` was sent,
    forward its digits to the benefit site, and answer with the classified
    page as JSON. */
module ExpressRoute {
  import opened Wrappers
  import opened Text
  import opened Classifier
  import opened Api

  /** What the route does with the HTTP response: send a status and a JSON
      body, or never answer. The latter is what Express 4 does when `cpf` is
      a truthy non-string: `cpf.replace` throws inside the async handler,
      Express 4 ignores the rejected promise, and nothing is sent. (Express 5
      would answer 500 instead; the project does not pin the version.) */
  datatype Reply = Reply(status: int, body: Json) | NoReply

  /** The handler's answer once the upstream request has ended: a failed
      connection and a parser exception are 500s with their own messages;
      a parsed page is classified and sent with `res.json`, hence 200. */
  function Respond(up: Upstream): (r: Reply)
    ensures r.Reply? && (r.status == 200 || r.status == 500)
    ensures r.status == 200 <==> up.Received? && up.parsed.Page?
    ensures r.status == 200 ==> r.body == OutcomeJson(Classify(up.parsed.doc, up.html))
    ensures up.ConnectionError? ==> r.body == ErrorJson(ConnectMessage)
    ensures up.Received? && up.parsed.ParseFailure? ==> r.body == ErrorJson(ProcessMessage)
  {
    match up
    case ConnectionError => Reply(500, ErrorJson(ConnectMessage))
    case Received(html, parsed) =>
      match parsed
      case ParseFailure => Reply(500, ErrorJson(ProcessMessage))
      case Page(doc) => Reply(200, OutcomeJson(Classify(doc, html)))
  }

  /** The route handler, with the upstream request as the parameter
      `upstream`: it is called at most once, on the form body. */
  function Consultar(cpf: CpfField, upstream: string -> Upstream): (x: Exchange<Reply>)
    ensures x.request.Some? <==> cpf.Str? && cpf.s != []
    ensures x.request.Some? ==> x.response == Respond(upstream(x.request.value))
  {
    if Falsy(cpf) then Exchange(None, Reply(400, ErrorJson(RequiredMessage)))
    else match cpf
      case Str(s) =>
        var form := FormBody(StripNonDigits(s));
        Exchange(Some(form), Respond(upstream(form)))
      case _ => Exchange(None, NoReply)
  }

  /** A missing or falsy `cpf` is answered with 400 and the fixed message,
      whatever the upstream site would have said, and nothing is sent to it. */
  lemma MissingCpfRejected(cpf: CpfField, upstream: string -> Upstream)
    ensures Falsy(cpf) <==> Consultar(cpf, upstream).response == Reply(400, ErrorJson(RequiredMessage))
    ensures Falsy(cpf) ==> Consultar(cpf, upstream).request == None
  {
  }

  /** A non-empty string `cpf` is forwarded as `cpf=` followed by its digits,
      every digit kept in order and nothing else. */
  lemma ForwardsDigits(s: string, upstream: string -> Upstream)
    requires s != []
    ensures var x := Consultar(Str(s), upstream);
      && x.request.Some?
      && x.request.value[..4] == "cpf=" && x.request.value[4..] == StripNonDigits(s)
      && AllDigits(x.request.value[4..])
      && (forall c :: IsDigit(c) ==> multiset(x.request.value[4..])[c] == multiset(s)[c])
      && x.response == Respond(upstream(x.request.value))
  {
    StripNonDigitsKeepsDigits(s);
  }

  /** Every classified page is answered with 200 and the outcome; 500 comes
      only from a failed connection or a parser exception. */
  lemma StatusMeaning(cpf: CpfField, upstream: string -> Upstream)
    ensures var x := Consultar(cpf, upstream);
      && (x.response.Reply? && x.response.status == 200 <==>
            x.request.Some? && upstream(x.request.value).Received? && upstream(x.request.value).parsed.Page?)
      && (x.response.Reply? && x.response.status == 500 <==>
            x.request.Some? && !(upstream(x.request.value).Received? && upstream(x.request.value).parsed.Page?))
      && (x.response.NoReply? <==> cpf.NonString? && cpf.truthy)
  {
  }
}
