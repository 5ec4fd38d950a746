# Consulta Gás do Povo — a verified model

Consulta Gás do Povo is a small web app for checking a CPF against the "Gás do
Povo" benefit site. The browser form masks the CPF as `ddd.ddd.ddd-dd` and posts
the digits to `/api/consultar`. That endpoint exists twice: as an Express route
and as a Netlify function. Each forwards the digits to the benefit site and reads
the HTML page it returns. A fixed cascade of rules turns that page into one tagged
outcome: `not_found`, `invalid`, `error`, `success` or `unknown`.

This project models that behaviour in Dafny and proves its properties:

- `text.dfy` (`Text`): the JavaScript string operations the code relies on.
  These are `trim()`, `\s` and `\D`, `replace(/\s+/g, ' ')`, `includes` and
  `replace(':', '')`. Whitespace is ECMAScript's WhiteSpace and LineTerminator set.
- `classifier.dfy` (`Classifier`): the classification cascade and the extraction
  of the label/value details and benefit cards. A `Document` stands for the
  parsed page: it holds what the CSS selectors return. The extraction loops are
  methods proved equal to specification functions. The cascade is a function
  (`Classify`) plus the early-return method the handlers run (`ClassifyPage`).
- `api.dfy` (`Api`): what the two handlers share. This covers the `cpf` member as
  JavaScript sees it, the upstream result, the JSON bodies and the messages.
- `express_route.dfy` (`ExpressRoute`) and `netlify_function.dfy`
  (`NetlifyFunction`): the two handlers as thin wrappers around `Classify`.
  The upstream request is a function parameter, so "no request was made" is
  visible in the result. `NetlifyFunction.HandlersAgree` proves that the two
  handlers agree.
- `cpf_format.dfy` (`CpfFormat`): `formatCpf`, written as its three first-match
  regular-expression replacements. It is proved equal to the intended layout
  `Mask`. The file also proves idempotence, the kept digits and the 14-character
  shape.
- `consulta_form.dfy` (`ConsultaForm`): the form state as a class. It covers
  `handleCpfChange`, the eleven-digit check at the start of `handleSubmit`, and
  the submit button's enabling rule.

Where the code's behaviour is easy to misread, the model follows the code:

- The danger and success texts are cheerio's `.text()` of *all* matching banners,
  concatenated, not the first banner's text.
- `replace(':', '')` removes the *first* colon anywhere in the trimmed label, not
  a trailing one. The label is not trimmed again afterwards.
- On a parse exception, the Express route answers 500 "Erro ao processar a
  resposta". The Netlify function's single `catch` answers every failure with
  500 "Erro ao conectar com o servidor do Gás do Povo".
- A truthy non-string `cpf` makes `cpf.replace` throw. The Express route then
  never answers (`NoReply`, as under Express 4), while the Netlify function
  answers 500.
- A label equal to `__proto__` is never stored in a details object: the
  assignment on an object literal reaches the prototype setter, which ignores
  a string.
- The upstream form body is `new URLSearchParams(...).toString()`, modelled as
  the application/x-www-form-urlencoded serializer of the WHATWG URL Standard
  (section 5.2); digits pass through it unchanged.

## Model

| member | source | states |
|---|---|---|
| Text.TrimStart | server.ts:48 | the result does not start with whitespace, and it is strictly shorter when the input does |
| Text.TrimStartIsSuffix | server.ts:48 | what is dropped at the front is a whitespace prefix; the result is empty iff the input is all whitespace |
| Text.TrimEnd | server.ts:48 | the result does not end with whitespace |
| Text.TrimEndIsPrefix | server.ts:48 | what is dropped at the back is a whitespace suffix; the result is empty iff the input is all whitespace |
| Text.TrimUnpadded | server.ts:70 | a string with no whitespace at either end is its own trim |
| Text.Trim | server.ts:48 | `trim()`: neither end is whitespace, and the result is empty iff the input is all whitespace |
| Text.TrimIsInfix | server.ts:48 | `trim()` returns the infix between a whitespace prefix and a whitespace suffix |
| Text.CollapseWs | server.ts:58 | `replace(/\s+/g, ' ')`: the only whitespace left is single spaces, never two in a row; the result is empty iff the input is |
| Text.CollapseWsTrailingSpace | server.ts:58 | a trailing whitespace run becomes exactly one trailing space |
| Text.WordsSkipLeadingWs | server.ts:58 | leading whitespace contributes no word |
| Text.CollapseWsKeepsWords | server.ts:58 | collapsing keeps every word, in order, and adds none |
| Text.CollapseWsKeepsLastChar | server.ts:58 | collapsing never adds trailing whitespace |
| Text.ContainsIffOccurs | server.ts:49 | `includes` holds exactly when the pattern occurs at some position |
| Text.StripNonDigits | server.ts:21 | `replace(/\D/g, '')`: the result is all digits and no longer than the input |
| Text.StripNonDigitsAppend | server.ts:21 | stripping distributes over concatenation, so digits keep their order |
| Text.StripNonDigitsKeepsDigits | server.ts:21 | every digit occurs in the result as often as in the input |
| Text.StripNonDigitsOfNonDigits | server.ts:21 | a string without digits strips to empty |
| Text.StripNonDigitsOfDigits | server.ts:21 | a string of digits is unchanged |
| Text.IndexOfColon | server.ts:70 | the index returned holds the first colon |
| Text.RemoveFirstColon | server.ts:70 | `replace(':', '')` removes exactly the first colon and leaves a colon-free string unchanged |
| Text.RemoveTrailingColon | server.ts:70 | a label whose only colon is its last character loses just that colon |
| Classifier.JoinTexts | server.ts:48 | no banners give the empty text |
| Classifier.Entries | server.ts:69-71 | one entry per item, in order: the trimmed label with its first colon removed, and the trimmed value |
| Classifier.Store | server.ts:72-74 | the dictionary never holds an empty key, an empty value or the key `__proto__` |
| Classifier.StoreKeys | server.ts:72-74 | a key is present iff some stored entry carries it |
| Classifier.StoreLastWriteWins | server.ts:72-74 | a key's value is that of its last stored entry |
| Classifier.DetailsKeys | server.ts:69-75 | a label is in the details iff some item has that label, non-empty and other than `__proto__`, with a non-empty value |
| Classifier.ProtoLabelOnlyIsUnknown | server.ts:69-106 | a page whose only item is labelled `__proto__:` has no details and, with no banner or card, is `unknown` |
| Classifier.DetailsLastWriteWins | server.ts:69-75 | a repeated label keeps the value of its last stored item |
| Classifier.DetailsOfStep | server.ts:72-74 | one more item either sets its entry or leaves the details unchanged |
| Classifier.BuildDetails | server.ts:68-75 | the in-place dictionary loop computes exactly the details specification |
| Classifier.RecordsOf | server.ts:62-83 | one record per card, in card order, with trimmed title and origin, the badge flag and the card's details |
| Classifier.ExtractBenefits | server.ts:62-83 | the `push` loop over the cards computes exactly `RecordsOf` |
| Classifier.Classify | server.ts:48-109 | no record holds an empty key or value, or the key `__proto__`; `success` always carries records or a non-empty message; `unknown` carries the upstream page verbatim |
| Classifier.ClassifyPage | server.ts:44-109 | the early-return handler body computes exactly `Classify` |
| Classifier.NotFoundFirst | server.ts:48-51 | danger text containing the not-found phrase gives `not_found` with the fixed message, even if it also contains `inválido` |
| Classifier.InvalidSecond | server.ts:53-55 | danger text with `inválido` and without the not-found phrase gives `invalid` with the fixed message |
| Classifier.OtherDangerIsError | server.ts:57-58 | any other danger text gives `error`; its message is non-empty, has no leading, trailing or doubled whitespace, uses only spaces, and keeps the banner's words in order |
| Classifier.TrimKeepsWords | server.ts:48 | trimming keeps every word |
| Classifier.WordsOfWsPrefix | server.ts:48 | a whitespace prefix contributes no word |
| Classifier.WordsOfWsSuffix | server.ts:48 | a whitespace suffix contributes no word |
| Classifier.DangerPreempts | server.ts:48-63 | the outcome is `not_found`, `invalid` or `error` iff there is danger text, so danger text rules out `success` even when cards are present |
| Classifier.CardsGiveRecords | server.ts:62-83 | with no danger text and N >= 1 cards, the outcome is `success` with exactly N records in card order, each expired iff its card has the badge |
| Classifier.FallbackOrder | server.ts:86-106 | with no cards: the success banner first, then the page-wide details, then `unknown` with the page |
| Classifier.UnknownIffNothingMatched | server.ts:106 | `unknown` is produced iff no rule applies, and it carries the fixed message and the verbatim page |
| Api.Utf8 | server.ts:20-22 | one to four bytes, each below 256; an ASCII character is its own single byte |
| Api.HexDigit | server.ts:20-22 | an uppercase hexadecimal digit |
| Api.EncodeByte | server.ts:20-22 | a space becomes `+`, an unreserved byte stays itself, any other byte becomes `%XX` |
| Api.EncodeBytes | server.ts:20-22 | the serialized bytes consist of form-safe characters only |
| Api.FormUrlEncode | server.ts:20-22 | the serialization of a name or value never contains `&` or `=`, only unreserved characters, `+`, `%` and hex digits |
| Api.FormUrlEncodePlain | server.ts:20-22 | a string of unreserved characters, in particular of digits, is serialized unchanged |
| Api.FormUrlEncodeAppend | server.ts:20-22 | serialization works character by character |
| Api.CpfNameUnencoded | server.ts:20-22 | the field name `cpf` is serialized unchanged |
| Api.FormBody | server.ts:20-22 | `URLSearchParams({ cpf: v }).toString()`; when `v` is all digits the body is exactly `cpf=` followed by `v` |
| ExpressRoute.Respond | server.ts:110-120 | a parsed page gives 200 with its classification; a failed connection and a parser exception give 500 with their own messages |
| ExpressRoute.Consultar | server.ts:13-124 | a request goes upstream iff `cpf` is a non-empty string, and then the reply is the answer to that request |
| ExpressRoute.MissingCpfRejected | server.ts:16-18 | the reply is 400 "CPF é obrigatório" iff `cpf` is falsy, whatever upstream would say, and nothing is sent |
| ExpressRoute.ForwardsDigits | server.ts:20-22 | the request is `cpf=` followed by the input's digits, each kept in order and as often, and nothing else |
| ExpressRoute.StatusMeaning | server.ts:16-120 | 200 iff a page was received and parsed; 500 iff a request was made and failed; no reply iff `cpf` is a truthy non-string |
| NetlifyFunction.Answer | netlify/functions/consultar.ts:54-124 | every answer carries the JSON headers; 200 iff the page was parsed, with its classification; otherwise the single failure response |
| NetlifyFunction.Handler | netlify/functions/consultar.ts:4-126 | a request goes upstream iff the call is a POST with a non-empty string `cpf`, and then the response is the answer to it |
| NetlifyFunction.NonPostRejectedFirst | netlify/functions/consultar.ts:5-7 | a non-POST call gets 405 "Method Not Allowed" with no headers and no request, and only a non-POST call gets 405 |
| NetlifyFunction.MissingCpfRejected | netlify/functions/consultar.ts:15-23 | a POST gets 400 with the JSON headers iff `cpf` is falsy, and then nothing is sent |
| NetlifyFunction.ForwardsDigits | netlify/functions/consultar.ts:25-27 | the request is `cpf=` followed by the input's digits, in order, and nothing else |
| NetlifyFunction.StatusMeaning | netlify/functions/consultar.ts:5-124 | the status is 200, 400, 405 or 500; every non-405 response carries the JSON/CORS headers; 500 is always the catch-block response |
| NetlifyFunction.HandlersAgree | netlify/functions/consultar.ts:14-116 | on a POST both handlers make the same request, give the same status, and give the same body for every 200 and 400 |
| CpfFormat.Take11 | src/App.tsx:19 | at most the first eleven characters are kept |
| CpfFormat.FindGroup | src/App.tsx:20-21 | finds the leftmost match of `(\d{3})(\d)` |
| CpfFormat.FindTail | src/App.tsx:22 | finds the leftmost match of `(\d{3})(\d{1,2})$` |
| CpfFormat.MaskLayout | src/App.tsx:20-22 | the intended layout adds one, two or three characters past 3, 6 and 9 digits: dots at positions 3 and 7, a dash at 11, and the digits in order everywhere else |
| CpfFormat.FirstDot | src/App.tsx:20 | with four or more digits, the first replacement puts a dot after the third |
| CpfFormat.NoDotUnderFour | src/App.tsx:20-22 | three digits or fewer are left unchanged |
| CpfFormat.DotBlocksFront | src/App.tsx:21-22 | once the first dot is in place, no match can start in the first block |
| CpfFormat.SecondDot | src/App.tsx:21 | with seven or more digits, the second replacement puts a dot after the sixth digit |
| CpfFormat.NoSecondDot | src/App.tsx:21-22 | with four to six digits, the second and third replacements change nothing |
| CpfFormat.NoDash | src/App.tsx:22 | with seven to nine digits, no dash is added |
| CpfFormat.Dash | src/App.tsx:22 | with ten or eleven digits, a dash goes after the ninth digit |
| CpfFormat.FormatCpfIsMask | src/App.tsx:17-24 | `formatCpf` is the intended layout of its first eleven digits |
| CpfFormat.MaskDigits | src/App.tsx:20-22 | the layout adds only punctuation |
| CpfFormat.StripPunct | src/App.tsx:20-22 | one punctuation character between two parts is removed by stripping |
| CpfFormat.FormatCpfDigits | src/App.tsx:17-19 | the output's digits are exactly the first min(11, n) digits of the input, in order |
| CpfFormat.FormatCpfIdempotent | src/App.tsx:18-22 | formatting a formatted value changes nothing |
| CpfFormat.FormatCpfLength | src/App.tsx:20-22 | the output is at most 14 long; it is 14 iff it holds eleven digits, and then it reads `ddd.ddd.ddd-dd` |
| ConsultaForm.Form.constructor | src/App.tsx:6-9 | the form starts empty, not loading, with no result and no error |
| ConsultaForm.Form.OnCpfChange | src/App.tsx:26-29 | the field holds the masked input, a shown error is cleared, and the field stays a fixed point of the mask |
| ConsultaForm.Form.Submit | src/App.tsx:56-64 | a request is made iff the field holds eleven digits, and it carries those digits; otherwise the fixed error is shown and nothing else changes; the field stays a fixed point of the mask |
| ConsultaForm.EnabledIffElevenDigits | src/App.tsx:179 | on any masked value, the button is enabled iff not loading and the field holds eleven digits |
| ConsultaForm.SubmittedCpfForwardedUnchanged | src/App.tsx:72 | the eleven digits the form posts reach the benefit site unchanged |

## Left out

- The HTTPS request to the benefit site (host, headers, `Content-Length`, chunk
  accumulation, error callbacks) is I/O. It is a function parameter from the
  form body to `Upstream`.
- HTML parsing and CSS selector matching by cheerio belong to a foreign library.
  A `Document` holds the selector results; `Received` pairs it with the raw page.
- A parser exception is an opaque `ParseFailure`, whatever its cause.
- JSON serialisation and JavaScript's object key order are not modelled. Details
  are a `map`, so the order of labels is not captured, nor that a repeated label
  keeps its first position in the object.
- Strings are sequences of Unicode scalar values. There is no Unicode
  normalisation, so a decomposed `não` in the page does not match the marker.
- Express and Vite setup, static file serving and `listen` are hosting glue.
- In the form, the `fetch` call, the handling of its result and `finally` are
  I/O (src/App.tsx:66-85). The copy-link and share buttons and all rendering are
  user interface.
- fetch.js is a one-off probe script and is not part of this model.
- ExpressRoute.StatusMeaning: assumes Express 4, where a rejected handler
  promise is ignored and the request is never answered. On Node 15 or later
  such an unhandled rejection ends the server process by default, dropping
  every request in flight; that effect is not modelled. Under Express 5 the
  default error handler would answer 500 instead.
- The Express route's 'error' event arriving after a reply was already sent is
  not modelled; the upstream request ends exactly once.
- The Netlify 405 response has no `headers` member; it is modelled with the
  empty header map.
