/** The settlement submission both services make: one entry built from a stored or
    about-to-be-stored TED, sent as a single-entry batch. The gateway checks the
    batch against the entry rules before anything leaves the service; what the
    remote system (or the local stub) answers is given as a parameter. */
module Settlement {
  import opened Wrappers
  import opened Calendar
  import opened Text
  import opened Errors
  import opened Entities
  import opened SinacorDto
  import opened SinacorTedRequestValidator
  import ClienteTedRequestValidator

  /** The entry's amount: the requested value made negative (a debit); a value that
      is not positive is passed through unchanged. */
  function DebitValue(v: real): (r: real)
    ensures r <= 0.0
    ensures r == -v || r == v
    ensures r < 0.0 <==> v != 0.0
  {
    if v > 0.0 then -v else v
  }

  /** The entry for `ted` with settlement id `lancamentoId`: the constructor's
      defaults, overwritten with the id, both dates as `yyyy-MM-dd`, the client code,
      the debit and the client's routing fields. */
  function BuildLancamento(ted: Ted, lancamentoId: int): (l: Lancamento)
    requires ValidDate(ted.dataAgendamento.date) && ValidDate(ted.criadoEm.date)
    ensures l.idLcto == lancamentoId && l.codigoCliente == ted.clienteId
    ensures ParseIsoDate(l.dataMovimento) == Some(ted.dataAgendamento.date)
    ensures ParseIsoDate(l.dataReferencia) == Some(ted.criadoEm.date)
    ensures l.valorLcto == DebitValue(ted.valorSolicitado)
    ensures l.codigoBancoCliente == ted.numeroBanco && l.codigoAgenciaCliente == ted.numeroAgencia
    ensures l.numeroContaCliente == ted.numeroConta && l.digitoContaCliente == ted.digitoConta
    ensures l.(idLcto := 0, dataMovimento := "", dataReferencia := "", codigoCliente := 0,
               valorLcto := 0.0, codigoBancoCliente := "", codigoAgenciaCliente := "",
               numeroContaCliente := "", digitoContaCliente := "") == NewLancamento()
  {
    ParseFormatIsoDate(ted.dataAgendamento.date);
    ParseFormatIsoDate(ted.criadoEm.date);
    NewLancamento().(
      idLcto := lancamentoId,
      dataMovimento := FormatIsoDate(ted.dataAgendamento.date),
      dataReferencia := FormatIsoDate(ted.criadoEm.date),
      codigoCliente := ted.clienteId,
      valorLcto := DebitValue(ted.valorSolicitado),
      codigoBancoCliente := ted.numeroBanco,
      codigoAgenciaCliente := ted.numeroAgencia,
      numeroContaCliente := ted.numeroConta,
      digitoContaCliente := ted.digitoConta)
  }

  /** The batch the services send: that single entry. */
  function BuildRequest(ted: Ted, lancamentoId: int): (dto: SinacorTedRequestDto)
    requires ValidDate(ted.dataAgendamento.date) && ValidDate(ted.criadoEm.date)
    ensures |dto.lancamentos| == 1 && dto.lancamentos[0].idLcto == lancamentoId
    ensures dto.lancamentos[0].codigoCliente == ted.clienteId
    ensures dto.lancamentos[0].valorLcto == DebitValue(ted.valorSolicitado)
  {
    SinacorTedRequestDto([BuildLancamento(ted, lancamentoId)])
  }

  /** `ClienteEnviaTedParaSinacorAsync` on day `today`: a batch that breaks an entry
      rule raises a validation error with the trimmed messages and is not sent;
      otherwise the call returns what the remote side answers, `reply` (the
      confirmation id, possibly none, or the error it raised). */
  function SendToSinacor(payload: SinacorTedRequestDto, today: Date, reply: Result<Option<string>, Error>)
    : (r: Result<Option<string>, Error>)
    ensures Validate(payload, today) != [] ==>
      r.Failure? && r.error.ValidationError? && |r.error.messages| == |Validate(payload, today)|
    ensures Validate(payload, today) != [] ==> r == Failure(FromValidation(Messages(payload, today)))
    ensures Validate(payload, today) == [] ==> r == reply
  {
    if Validate(payload, today) != [] then Failure(FromValidation(Messages(payload, today)))
    else reply
  }

  /** The payload of a TED that passed the request rules, created no later than
      `today` (its reference date), passes every entry rule, so the gateway's check
      never rejects it: the house-account defaults fill the fields the services
      leave alone, and the copied fields are non-blank because they parse as
      numbers. */
  lemma PayloadOfValidTedPasses(ted: Ted, lancamentoId: int, today: Date)
    requires ValidDate(ted.dataAgendamento.date) && ValidDate(ted.criadoEm.date)
    requires ted.clienteId > 0 && ted.valorSolicitado > 0.0
    requires ClienteTedRequestValidator.BeANonZeroNumber(ted.numeroBanco)
    requires ClienteTedRequestValidator.BeANonZeroNumber(ted.numeroAgencia)
    requires ClienteTedRequestValidator.BeANonZeroNumber(ted.numeroConta)
    requires ClienteTedRequestValidator.BeANonNegativeInteger(ted.digitoConta)
    requires DateLe(ted.criadoEm.date, today)
    ensures Validate(BuildRequest(ted, lancamentoId), today) == []
  {
    var l := BuildLancamento(ted, lancamentoId);
    RoutingFieldsNotBlank(ted);
    CopiedFieldsFilled(ted, lancamentoId);
    EntryPasses(l, ted.criadoEm.date, today);
    OneEntryBatchPasses(l, today);
    assert BuildRequest(ted, lancamentoId) == SinacorTedRequestDto([l]);
  }

  /** A batch of one entry passes exactly when that entry does. */
  lemma OneEntryBatchPasses(l: Lancamento, today: Date)
    ensures Validate(SinacorTedRequestDto([l]), today) == [] <==> ValidateEntry(l, today) == []
  {
    assert SinacorTedRequestDto([l]).lancamentos[0] == l;
  }

  /** The routing fields of a TED that passed the request rules are non-blank. */
  lemma RoutingFieldsNotBlank(ted: Ted)
    requires ClienteTedRequestValidator.BeANonZeroNumber(ted.numeroBanco)
    requires ClienteTedRequestValidator.BeANonZeroNumber(ted.numeroAgencia)
    requires ClienteTedRequestValidator.BeANonZeroNumber(ted.numeroConta)
    requires ClienteTedRequestValidator.BeANonNegativeInteger(ted.digitoConta)
    ensures NotEmpty(ted.numeroBanco) && NotEmpty(ted.numeroAgencia)
    ensures NotEmpty(ted.numeroConta) && NotEmpty(ted.digitoConta)
  {
    ClienteTedRequestValidator.NumbersAreNotBlank(ted.numeroBanco);
    ClienteTedRequestValidator.NumbersAreNotBlank(ted.numeroAgencia);
    ClienteTedRequestValidator.NumbersAreNotBlank(ted.numeroConta);
    ClienteTedRequestValidator.NumbersAreNotBlank(ted.digitoConta);
  }

  /** A built entry's reference date and copied routing fields are non-blank when
      the TED's are, and its house-account fields keep their constructor defaults. */
  lemma CopiedFieldsFilled(ted: Ted, lancamentoId: int)
    requires ValidDate(ted.dataAgendamento.date) && ValidDate(ted.criadoEm.date)
    requires NotEmpty(ted.numeroBanco) && NotEmpty(ted.numeroAgencia)
    requires NotEmpty(ted.numeroConta) && NotEmpty(ted.digitoConta)
    ensures var l := BuildLancamento(ted, lancamentoId);
      && NotEmpty(l.dataReferencia)
      && NotEmpty(l.codigoBancoCliente) && NotEmpty(l.codigoAgenciaCliente)
      && NotEmpty(l.numeroContaCliente) && NotEmpty(l.digitoContaCliente)
      && l.codigoBanco == "467" && l.codigoAgencia == "0001" && l.numeroConta == 10001
      && l.tipoContaCliente == "CC" && l.indicadorSituacao == "E" && l.codigoSistemaExterno == "SPBX"
  {
    var l := BuildLancamento(ted, lancamentoId);
    assert !IsWhiteSpace(l.dataReferencia[4]);
  }

  /** An entry whose copied fields are filled in and whose reference date is a day
      not after `today` passes every rule, provided the defaults are untouched. */
  lemma EntryPasses(l: Lancamento, created: Date, today: Date)
    requires ParseIsoDate(l.dataReferencia) == Some(created) && DateLe(created, today)
    requires NotEmpty(l.dataReferencia)
    requires l.codigoCliente > 0 && l.valorLcto < 0.0
    requires NotEmpty(l.codigoBancoCliente) && NotEmpty(l.codigoAgenciaCliente)
    requires NotEmpty(l.numeroContaCliente) && NotEmpty(l.digitoContaCliente)
    requires l.codigoBanco == "467" && l.codigoAgencia == "0001" && l.numeroConta == 10001
    requires l.tipoContaCliente == "CC" && l.indicadorSituacao == "E" && l.codigoSistemaExterno == "SPBX"
    ensures ValidateEntry(l, today) == []
  {
    assert !IsWhiteSpace(l.codigoBanco[0]) && !IsWhiteSpace(l.codigoAgencia[0]);
    assert !IsWhiteSpace(l.tipoContaCliente[0]) && !IsWhiteSpace(l.indicadorSituacao[0]);
    assert !IsWhiteSpace(l.codigoSistemaExterno[0]);
    forall rule ensures Holds(rule, l, today) {
      match rule
      case DataReferenciaRequired =>
      case DataReferenciaValid =>
      case DataReferenciaNotFuture =>
      case CodigoClienteRule =>
      case ValorLctoRule =>
      case CodigoBancoRule =>
      case CodigoAgenciaRule =>
      case NumeroContaRule =>
      case CodigoBancoClienteRule =>
      case CodigoAgenciaClienteRule =>
      case NumeroContaClienteRule =>
      case DigitoContaClienteRule =>
      case TipoContaClienteRule =>
      case IndicadorSituacaoRule =>
      case CodigoSistemaExternoRule =>
    }
  }

  /** A TED of value zero yields an entry of value zero, which the amount rule
      refuses: such a payload never reaches the remote side. */
  lemma ZeroValueIsRefused(ted: Ted, lancamentoId: int, today: Date, reply: Result<Option<string>, Error>)
    requires ValidDate(ted.dataAgendamento.date) && ValidDate(ted.criadoEm.date)
    requires ted.valorSolicitado == 0.0
    ensures ValorLctoRule in Validate(BuildRequest(ted, lancamentoId), today)
    ensures SendToSinacor(BuildRequest(ted, lancamentoId), today, reply).Failure?
  {
    OneBadEntrySpoilsTheBatch(BuildRequest(ted, lancamentoId), today, 0, ValorLctoRule);
  }
}
