/** The batch sent to the settlement system: a list of entries (`Lancamento`), each
    created with fixed defaults for the transaction kind and the house account. */
module SinacorDto {

  datatype Lancamento = Lancamento(
    idLcto: int,
    dataMovimento: string,
    dataReferencia: string,
    codigoCliente: int,
    valorLcto: real,
    descricaoLcto: string,
    codigoGrupoLiquidacao: int,
    codigoBanco: string,
    codigoAgencia: string,
    numeroConta: int,
    codigoBancoCliente: string,
    codigoAgenciaCliente: string,
    digitoAgenciaCliente: string,
    numeroContaCliente: string,
    digitoContaCliente: string,
    tipoContaCliente: string,
    indicadorSituacao: string,
    codigoSistemaExterno: string)

  datatype SinacorTedRequestDto = SinacorTedRequestDto(lancamentos: seq<Lancamento>)

  /** `new SinacorTedRequestDto()`: an empty batch. */
  function NewSinacorTedRequest(): (r: SinacorTedRequestDto)
    ensures |r.lancamentos| == 0
  {
    SinacorTedRequestDto([])
  }

  /** `new Lancamento()`: the constructor's defaults; every field it does not set
      keeps its CLR default (0, 0.0, or null, here ""). */
  function NewLancamento(): Lancamento
  {
    Lancamento(
      idLcto := 0,
      dataMovimento := "",
      dataReferencia := "",
      codigoCliente := 0,
      valorLcto := 0.0,
      descricaoLcto := "TED",
      codigoGrupoLiquidacao := 17,
      codigoBanco := "467",
      codigoAgencia := "0001",
      numeroConta := 10001,
      codigoBancoCliente := "",
      codigoAgenciaCliente := "",
      digitoAgenciaCliente := "",
      numeroContaCliente := "",
      digitoContaCliente := "",
      tipoContaCliente := "CC",
      indicadorSituacao := "E",
      codigoSistemaExterno := "SPBX")
  }
}
