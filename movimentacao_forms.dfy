/**
 * The field validators of the stock forms: the lot number and lot
 * quantity of `LoteForm`, the movement quantity of `MovimentacaoForm`
 * and the adjusted quantity of `HistoricoEstoqueForm`.  Quantities are
 * ten-thousandths, as in the stock ledger.
 */
module MovimentacaoForms {
  import opened Wrappers
  import opened Text

  // ---------------------------------------------------------------- lot number

  /** A stored lot: its primary key and its number. */
  datatype LoteRow = LoteRow(pk: nat, numeroLote: string)

  /** Another stored lot, not the one being edited, already has this number. */
  predicate NumeroTaken(lotes: seq<LoteRow>, numero: string, instancePk: Option<nat>) {
    exists i :: 0 <= i < |lotes| && lotes[i].numeroLote == numero && Some(lotes[i].pk) != instancePk
  }

  /** `LoteForm.clean_numero_lote`. */
  function CleanNumeroLote(numero: string, lotes: seq<LoteRow>, instancePk: Option<nat>): (r: Result<string>)
    ensures r.Ok? ==> r.value == numero
  {
    if Strip(numero) == [] then Err("O número do lote não pode estar vazio.")
    else if NumeroTaken(lotes, numero, instancePk) then Err("Este número de lote já está em uso.")
    else Ok(numero)
  }

  /**
   * A number is accepted exactly when it is not blank and no other lot
   * holds it; the lot being edited may keep its own number.
   */
  lemma CleanNumeroLoteSpec(numero: string, lotes: seq<LoteRow>, instancePk: Option<nat>)
    ensures CleanNumeroLote(numero, lotes, instancePk).Ok?
            <==> !AllSpace(numero)
                 && forall i :: 0 <= i < |lotes| && lotes[i].numeroLote == numero ==> Some(lotes[i].pk) == instancePk
  {
    StripSpec(numero);
  }

  /** Lot numbers and primary keys are each unique across the table. */
  predicate UniqueLotes(lotes: seq<LoteRow>) {
    forall i, j :: 0 <= i < j < |lotes| ==> lotes[i].pk != lotes[j].pk && lotes[i].numeroLote != lotes[j].numeroLote
  }

  /** The table after the form saves `numero`: the edited row renamed, or a new row appended. */
  function SavedLotes(lotes: seq<LoteRow>, instancePk: Option<nat>, newPk: nat, numero: string): (r: seq<LoteRow>)
  {
    if instancePk.Some? then
      seq(|lotes|, i requires 0 <= i < |lotes| =>
        if lotes[i].pk == instancePk.value then lotes[i].(numeroLote := numero) else lotes[i])
    else lotes + [LoteRow(newPk, numero)]
  }

  /** Saving only what the validator accepted keeps lot numbers unique. */
  lemma AcceptedNumeroKeepsUnique(lotes: seq<LoteRow>, instancePk: Option<nat>, newPk: nat, numero: string)
    requires UniqueLotes(lotes)
    requires forall i :: 0 <= i < |lotes| ==> lotes[i].pk != newPk
    requires CleanNumeroLote(numero, lotes, instancePk).Ok?
    ensures UniqueLotes(SavedLotes(lotes, instancePk, newPk, numero))
  {
    var r := SavedLotes(lotes, instancePk, newPk, numero);
    assert forall k :: 0 <= k < |lotes| && lotes[k].numeroLote == numero ==> Some(lotes[k].pk) == instancePk;
    forall i, j | 0 <= i < j < |r|
      ensures r[i].pk != r[j].pk && r[i].numeroLote != r[j].numeroLote
    {
      if instancePk.None? && j == |lotes| {
        assert r[i] == lotes[i];
      }
    }
  }

  // ---------------------------------------------------------------- lot quantity

  /** `LoteForm.clean_quantidade`: a lot holds a positive quantity. */
  function CleanQuantidadeLote(q: int): (r: Result<int>)
    ensures r.Ok? <==> q > 0
    ensures r.Ok? ==> r.value == q
  {
    if q <= 0 then Err("A quantidade deve ser maior que zero.") else Ok(q)
  }

  // ---------------------------------------------------------------- movement quantity

  /** The cleaned `tipo`: a `TipoMovimentacao` row, or absent when its own field failed. */
  datatype TipoValue = NoTipo | TipoRow(nome: string, entradaSaida: string)

  /**
   * Python's `tipo != 'Ajuste'` on the cleaned value: a model instance or
   * None never equals a string, so the test is always true.
   */
  predicate DiffersFromText(tipo: TipoValue, text: string) {
    true
  }

  /** `MovimentacaoForm.clean_quantidade` as written. */
  function CleanQuantidadeMovAsWritten(tipo: TipoValue, q: int): (r: Result<int>)
  {
    if DiffersFromText(tipo, "Ajuste") && q <= 0 then Err("A quantidade deve ser maior que zero para Entrada ou Saída.")
    else Ok(q)
  }

  /** As written, the 'Ajuste' exemption never applies: an adjustment to zero is refused too. */
  lemma AjusteNotExempt(es: string, q: int)
    ensures CleanQuantidadeMovAsWritten(TipoRow("Ajuste", es), q).Err? <==> q <= 0
  {
  }

  /** The evidently intended test: the movement type named 'Ajuste' may carry any quantity. */
  function CleanQuantidadeMov(tipo: TipoValue, q: int): (r: Result<int>)
  {
    if !(tipo.TipoRow? && tipo.nome == "Ajuste") && q <= 0 then Err("A quantidade deve ser maior que zero para Entrada ou Saída.")
    else Ok(q)
  }

  /**
   * Corrected, an adjustment accepts every quantity, and every other
   * type accepts exactly the positive ones; accepted values are unchanged.
   */
  lemma CleanQuantidadeMovSpec(tipo: TipoValue, q: int)
    ensures tipo.TipoRow? && tipo.nome == "Ajuste" ==> CleanQuantidadeMov(tipo, q) == Ok(q)
    ensures !(tipo.TipoRow? && tipo.nome == "Ajuste") ==> (CleanQuantidadeMov(tipo, q).Ok? <==> q > 0)
    ensures CleanQuantidadeMov(tipo, q).Ok? ==> CleanQuantidadeMov(tipo, q).value == q
  {
  }

  /** The two differ exactly on a non-positive adjustment. */
  lemma CorrectionOnlyFreesAjuste(tipo: TipoValue, q: int)
    ensures CleanQuantidadeMov(tipo, q) != CleanQuantidadeMovAsWritten(tipo, q)
            <==> tipo.TipoRow? && tipo.nome == "Ajuste" && q <= 0
  {
  }

  // ---------------------------------------------------------------- adjusted quantity

  /** `HistoricoEstoqueForm.clean_quantidade`: a new quantity is never negative. */
  function CleanQuantidadeAjuste(q: int): (r: Result<int>)
    ensures r.Ok? <==> q >= 0
    ensures r.Ok? ==> r.value == q
  {
    if q < 0 then Err("A quantidade não pode ser negativa.") else Ok(q)
  }
}
