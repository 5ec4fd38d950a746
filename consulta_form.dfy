/** The state of the query form in the web page: the masked CPF field, the
    error line, the loading flag and the last result, with the two handlers
    that change them before any request is sent. */
module ConsultaForm {
  import opened Wrappers
  import opened Text
  import opened Classifier
  import opened CpfFormat
  import opened Api
  import ExpressRoute

  const InvalidCpfMessage: string := "Por favor, digite um CPF válido com 11 dígitos."

  class Form {
    var cpf: string
    var loading: bool
    var result: Option<Outcome>
    var error: Option<string>

    /** The field only ever holds what the mask produces. */
    ghost predicate Valid()
      reads this
    {
      cpf == FormatCpf(cpf)
    }

    /** The initial state: an empty field, no error, nothing loading. */
    constructor()
      ensures cpf == [] && !loading && result == None && error == None
      ensures Valid()
    {
      cpf := [];
      loading := false;
      result := None;
      error := None;
    }

    /** `handleCpfChange`: store the masked input and clear a shown error. */
    method OnCpfChange(input: string)
      modifies this
      ensures cpf == FormatCpf(input)
      ensures error == if old(error).Some? && old(error).value != [] then None else old(error)
      ensures loading == old(loading) && result == old(result)
      ensures Valid()
    {
      FormatCpfIdempotent(input);
      cpf := FormatCpf(input);
      if error.Some? && error.value != [] {
        error := None;
      }
    }

    /** The start of `handleSubmit`: with anything but eleven digits in the
        field, show the fixed error and send nothing; otherwise enter the
        loading state and return the digits to send. */
    method Submit() returns (request: Option<string>)
      requires Valid()
      modifies this
      ensures Valid()
      ensures request.Some? <==> |StripNonDigits(old(cpf))| == 11
      ensures request.Some? ==> request.value == StripNonDigits(old(cpf))
      ensures request.Some? ==> loading && error == None && result == None
      ensures request.None? ==>
        error == Some(InvalidCpfMessage) && loading == old(loading) && result == old(result)
      ensures cpf == old(cpf)
    {
      var cleanCpf := StripNonDigits(cpf);
      if |cleanCpf| != 11 {
        error := Some(InvalidCpfMessage);
        return None;
      }
      loading := true;
      error := None;
      result := None;
      request := Some(cleanCpf);
    }

    /** The submit button is enabled unless loading or the field is shorter
        than fourteen characters. */
    predicate SubmitEnabled()
      reads this
    {
      !loading && |cpf| >= 14
    }
  }

  /** On any value the field can hold, the button's length test and the
      eleven-digit test of `handleSubmit` agree: an enabled button always
      leads to a request. */
  lemma EnabledIffElevenDigits(f: Form)
    requires f.Valid()
    ensures f.SubmitEnabled() <==> !f.loading && |StripNonDigits(f.cpf)| == 11
  {
    FormatCpfLength(f.cpf);
  }

  /** The eleven digits the form sends reach the benefit site unchanged. */
  lemma SubmittedCpfForwardedUnchanged(clean: string, upstream: string -> Upstream)
    requires AllDigits(clean) && |clean| == 11
    ensures ExpressRoute.Consultar(Str(clean), upstream).request == Some("cpf=" + clean)
  {
    StripNonDigitsOfDigits(clean);
  }
}
