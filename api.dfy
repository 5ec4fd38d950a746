/** What the two `/api/consultar` handlers share: the `cpf` member of the
    request body as JavaScript sees it, the answer of the upstream benefit
    site, and the JSON bodies they send back.

    The upstream request is a parameter of each handler, a function from
    the form-encoded `cpf` to what came back, so that "no request was made"
    is visible in the result (`Exchange.request == None`). */
module Api {
  import opened Wrappers
  import opened Classifier
  import opened Text

  /** The `cpf` member destructured from the parsed JSON body: missing, a
      string, or some other JSON value (number, boolean, null, array,
      object), of which only its truthiness matters to the handlers. */
  datatype CpfField = Absent | Str(s: string) | NonString(truthy: bool)

  /** `!cpf` in JavaScript: undefined, the empty string, and every falsy
      non-string value (`null`, `false`, `0`). */
  predicate Falsy(f: CpfField) {
    match f
    case Absent => true
    case Str(s) => s == []
    case NonString(truthy) => !truthy
  }

  /** The result of handing the upstream body to the HTML parser: the
      selector results as a `Document`, or an exception. */
  datatype Parsed = Page(doc: Document) | ParseFailure

  /** How the upstream request ended: the connection failed, or the whole
      body `html` arrived and was parsed. */
  datatype Upstream = ConnectionError | Received(html: string, parsed: Parsed)

  /** The JSON bodies the handlers send: `{ error }` or a classified outcome. */
  datatype Json = ErrorJson(error: string) | OutcomeJson(outcome: Outcome)

  /** A handler's answer, together with the `cpf` it sent upstream, if any. */
  datatype Exchange<R> = Exchange(request: Option<string>, response: R)

  const RequiredMessage: string := "CPF é obrigatório"
  const ConnectMessage: string := "Erro ao conectar com o servidor do Gás do Povo"
  const ProcessMessage: string := "Erro ao processar a resposta"

  // ---------------------------------------------------------------------
  // application/x-www-form-urlencoded serialisation (WHATWG URL Standard,
  // section 5.2, "application/x-www-form-urlencoded serializing")
  // ---------------------------------------------------------------------

  /** The UTF-8 encoding of one Unicode scalar value. */
  function Utf8(c: char): (bs: seq<int>)
    ensures 1 <= |bs| <= 4
    ensures forall i :: 0 <= i < |bs| ==> 0 <= bs[i] < 256
    ensures (c as int) < 0x80 ==> bs == [c as int]
  {
    var n := c as int;
    if n < 0x80 then [n]
    else if n < 0x800 then [0xC0 + n / 0x40, 0x80 + n % 0x40]
    else if n < 0x1_0000 then [0xE0 + n / 0x1000, 0x80 + (n / 0x40) % 0x40, 0x80 + n % 0x40]
    else [0xF0 + (n / 0x4_0000) % 8, 0x80 + (n / 0x1000) % 0x40, 0x80 + (n / 0x40) % 0x40, 0x80 + n % 0x40]
  }

  /** The bytes the serializer writes unchanged: `*`, `-`, `.`, `_`, ASCII
      digits and ASCII letters. */
  predicate Unreserved(b: int) {
    b == 0x2A || b == 0x2D || b == 0x2E || b == 0x5F
    || (0x30 <= b <= 0x39) || (0x41 <= b <= 0x5A) || (0x61 <= b <= 0x7A)
  }

  /** An uppercase hexadecimal digit. */
  function HexDigit(d: int): (c: char)
    requires 0 <= d < 16
    ensures '0' <= c <= '9' || 'A' <= c <= 'F'
  {
    if d < 10 then ('0' as int + d) as char else ('A' as int + d - 10) as char
  }

  /** What the serializer writes for one byte: `+` for a space, the byte
      itself when unreserved, `%XX` otherwise. */
  function EncodeByte(b: int): (r: string)
    requires 0 <= b < 256
    ensures Unreserved(b) ==> r == [b as char]
    ensures b == 0x20 ==> r == "+"
    ensures !Unreserved(b) && b != 0x20 ==> |r| == 3 && r[0] == '%'
  {
    if b == 0x20 then "+"
    else if Unreserved(b) then [b as char]
    else ['%', HexDigit(b / 16), HexDigit(b % 16)]
  }

  /** A character the serializer can emit: an unreserved byte, `+`, `%` or
      a hexadecimal digit. In particular never `&` or `=`, so a serialized
      value cannot end its pair or start another. */
  predicate FormSafe(c: char) {
    Unreserved(c as int) || c == '+' || c == '%'
  }

  function EncodeBytes(bs: seq<int>): (r: string)
    requires forall i :: 0 <= i < |bs| ==> 0 <= bs[i] < 256
    ensures forall i :: 0 <= i < |r| ==> FormSafe(r[i])
  {
    if bs == [] then [] else EncodeByte(bs[0]) + EncodeBytes(bs[1..])
  }

  /** The serialisation of a name or a value. Its output consists of
      form-safe characters only. */
  function FormUrlEncode(s: string): (r: string)
    ensures forall i :: 0 <= i < |r| ==> FormSafe(r[i])
    ensures r != [] ==> r[0] != '&' && r[0] != '='
  {
    if s == [] then [] else EncodeBytes(Utf8(s[0])) + FormUrlEncode(s[1..])
  }

  /** A string of unreserved characters is written unchanged; so is, in
      particular, a string of ASCII digits. */
  lemma {:induction false} FormUrlEncodePlain(s: string)
    ensures (forall i :: 0 <= i < |s| ==> Unreserved(s[i] as int)) ==> FormUrlEncode(s) == s
    ensures AllDigits(s) ==> FormUrlEncode(s) == s
  {
    if s != [] && forall i :: 0 <= i < |s| ==> Unreserved(s[i] as int) {
      FormUrlEncodePlain(s[1..]);
      assert forall i :: 0 <= i < |s[1..]| ==> Unreserved(s[1..][i] as int) by {
        forall i | 0 <= i < |s[1..]| ensures Unreserved(s[1..][i] as int) {
          assert s[1..][i] == s[i + 1];
        }
      }
      assert Unreserved(s[0] as int);
      assert Utf8(s[0]) == [s[0] as int];
      assert EncodeBytes([s[0] as int]) == [s[0]];
    }
    if AllDigits(s) {
      assert forall i :: 0 <= i < |s| ==> Unreserved(s[i] as int) by {
        forall i | 0 <= i < |s| ensures Unreserved(s[i] as int) {
          assert IsDigit(s[i]);
        }
      }
    }
  }

  /** Serialisation works character by character. */
  lemma {:induction false} FormUrlEncodeAppend(a: string, b: string)
    ensures FormUrlEncode(a + b) == FormUrlEncode(a) + FormUrlEncode(b)
  {
    if a == [] {
      assert a + b == b;
    } else {
      assert (a + b)[0] == a[0];
      assert (a + b)[1..] == a[1..] + b;
      FormUrlEncodeAppend(a[1..], b);
    }
  }

  /** `new URLSearchParams({ cpf: v }).toString()`: the one pair `cpf=v`,
      name and value serialized. */
  function FormBody(v: string): (body: string)
    ensures AllDigits(v) ==> body == "cpf=" + v
  {
    FormUrlEncodePlain(v);
    CpfNameUnencoded();
    FormUrlEncode("cpf") + "=" + FormUrlEncode(v)
  }

  /** The field name `cpf` is written unchanged. */
  lemma CpfNameUnencoded()
    ensures FormUrlEncode("cpf") == "cpf"
  {
    FormUrlEncodePlain("cpf");
  }
}
