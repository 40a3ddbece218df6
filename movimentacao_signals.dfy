/**
 * The stock signals of the movement app: a new movement or lot changes
 * its variation's quantity in place, writes one stock-history row, and
 * raises a low-stock notice; deleting a lot takes its quantity back out,
 * never below zero.  Each handler runs in `transaction.atomic`, so an
 * exception leaves every table as it was.
 */
module MovimentacaoSignals {
  import opened Wrappers
  import opened Text
  import opened StockValues
  import opened NotificacaoSignals

  // ---------------------------------------------------------------- units

  /** FATORES as fractions `(numerator, denominator)`. */
  const Fatores: map<string, (int, int)> :=
    map["UN" := (1, 1), "ML" := (1, 1000), "L" := (1, 1), "KG" := (1, 1), "GR" := (1, 1000)]

  /**
   * `FATORES.get(unidade, Decimal('1'))`. The key is the variation's
   * `unidade`, a `UnidadeMedida` row, which equals no string key.
   */
  function Fator(u: Unidade): (f: (int, int))
    ensures f.1 > 0 && f.0 == 1
    ensures u.UnidadeMedida? ==> f == (1, 1)
    ensures u.UnitKey? && u.key in Fatores ==> f == Fatores[u.key]
  {
    match u
    case UnitKey(k) => if k in Fatores then Fatores[k] else (1, 1)
    case UnidadeMedida(_, _, _) => (1, 1)
  }

  /** `(quantidade * fator).quantize(Decimal('0.01'))`, in ten-thousandths. */
  function QBase(q: int, u: Unidade): int {
    var f := Fator(u);
    RoundHalfEven(q * f.0, f.1 * 100) * 100
  }

  /** The base quantity is the scaled quantity to the nearest hundredth, within half of one. */
  lemma QBaseRounding(q: int, u: Unidade)
    ensures var f := Fator(u);
            -(f.1 * 100) <= 2 * (q * f.0 - f.1 * QBase(q, u)) <= f.1 * 100
  {
    var f := Fator(u);
    var k := RoundHalfEven(q * f.0, f.1 * 100);
    assert f.1 * QBase(q, u) == (f.1 * 100) * k;
  }

  /** With a factor of one, a quantity in whole hundredths passes through unchanged. */
  lemma QBaseWholeCents(c: int, u: Unidade)
    requires Fator(u) == (1, 1)
    ensures QBase(c * 100, u) == c * 100
  {
    RoundHalfEvenExact(c, 100);
  }

  // ---------------------------------------------------------------- the notice

  function TamanhoText(t: Option<string>): string {
    if t.Some? then t.value else "None"
  }

  /** `notificar_estoque_minimo`: one notice whenever the quantity is at or below the minimum. */
  function Notificar(v: Variacao, ns: seq<Notificacao>): (r: seq<Notificacao>)
    ensures v.quantidade <= v.estoqueMinimo ==> r == ns + [LowNotice(v)]
    ensures v.quantidade > v.estoqueMinimo ==> r == ns
  {
    if v.quantidade <= v.estoqueMinimo then ns + [LowNotice(v)] else ns
  }

  /** The notices `notificar_estoque_minimo` adds for one variation. */
  function Notice(v: Variacao): (r: seq<Notificacao>)
    ensures |r| <= 1
  {
    if v.quantidade <= v.estoqueMinimo then [LowNotice(v)] else []
  }

  function LowNotice(v: Variacao): Notificacao {
    Notificacao(v.produto,
      "O produto " + v.produtoNome + " (" + TamanhoText(v.tamanho) + ") está com estoque baixo: "
      + DecimalText(v.quantidade) + " unidades (limite: " + DecimalText(v.estoqueMinimo) + ").",
      false)
  }

  // ---------------------------------------------------------------- one adjustment

  /**
   * The common tail of the handlers: the variation saved with quantity
   * `q` (running the alert handler), a history row, then the notice.
   */
  function Adjusted(s: LedgerState, id: nat, q: int, lote: Option<nat>, tipo: string, usuario: Option<nat>): Result<LedgerState>
    requires id in s.variacoes
  {
    var v := s.variacoes[id];
    var v2 := v.(quantidade := q);
    match Verificar(v2, false, s.notificacoes)
    case Err(e) => Err(e)
    case Ok(ns) =>
      Ok(LedgerState(s.variacoes[id := v2],
                     s.historico + [Historico(id, lote, v.quantidade, q, tipo, usuario)],
                     Notificar(v2, ns)))
  }

  /**
   * An adjustment sets the one quantity, appends exactly one history row
   * recording the quantity before and after, and keeps every other variation.
   */
  lemma AdjustedSpec(s: LedgerState, id: nat, q: int, lote: Option<nat>, tipo: string, usuario: Option<nat>)
    requires id in s.variacoes
    ensures var r := Adjusted(s, id, q, lote, tipo, usuario);
            r.Ok? ==>
              r.value.variacoes.Keys == s.variacoes.Keys
              && r.value.variacoes[id].quantidade == q
              && (forall k :: k in s.variacoes && k != id ==> r.value.variacoes[k] == s.variacoes[k])
              && r.value.historico == s.historico + [Historico(id, lote, s.variacoes[id].quantidade, q, tipo, usuario)]
              && (q <= s.variacoes[id].estoqueMinimo ==> r.value.notificacoes[|r.value.notificacoes| - 1] == LowNotice(r.value.variacoes[id]))
              && (q > s.variacoes[id].estoqueMinimo ==> r.value.notificacoes == s.notificacoes)
  {
  }

  // ---------------------------------------------------------------- movements

  datatype Movimentacao = Movimentacao(variacao: nat, quantidade: int, entradaSaida: string, lote: Option<nat>, usuario: Option<nat>)

  /** The new quantity: add on Entrada, subtract on Saída unless short, set to the base otherwise. */
  function Moved(before: int, qb: int, entradaSaida: string): Result<int> {
    if entradaSaida == "Entrada" then Ok(before + qb)
    else if entradaSaida == "Saída" then
      if before < qb then Err("Estoque insuficiente para esta saída") else Ok(before - qb)
    else Ok(qb)
  }

  /** `movimentacao_update_estoque`: the tables after a movement is saved. */
  function MovementApplied(s: LedgerState, m: Movimentacao, created: bool): Result<LedgerState>
    requires m.variacao in s.variacoes
  {
    if !created || m.quantidade == 0 then Ok(s)
    else
      var v := s.variacoes[m.variacao];
      match Moved(v.quantidade, QBase(m.quantidade, v.unidade), m.entradaSaida)
      case Err(e) => Err(e)
      case Ok(q) => Adjusted(s, m.variacao, q, m.lote, m.entradaSaida, m.usuario)
  }

  /** Only a newly created movement with a non-zero quantity touches stock. */
  lemma MovementIgnored(s: LedgerState, m: Movimentacao, created: bool)
    requires m.variacao in s.variacoes && (!created || m.quantidade == 0)
    ensures MovementApplied(s, m, created) == Ok(s)
  {
  }

  /**
   * The three kinds of movement: Entrada adds the base quantity; Saída
   * subtracts it, refusing when stock is short, so it never leaves stock
   * negative; any other kind sets stock to the base quantity.
   */
  lemma MovementQuantity(s: LedgerState, m: Movimentacao)
    requires m.variacao in s.variacoes && m.quantidade != 0
    ensures var before := s.variacoes[m.variacao].quantidade;
            var qb := QBase(m.quantidade, s.variacoes[m.variacao].unidade);
            var r := MovementApplied(s, m, true);
            (m.entradaSaida == "Saída" && before < qb ==> r.Err?)
            && (r.Ok? ==>
                  var after := r.value.variacoes[m.variacao].quantidade;
                  (m.entradaSaida == "Entrada" ==> after == before + qb)
                  && (m.entradaSaida == "Saída" ==> after == before - qb && after >= 0)
                  && (m.entradaSaida != "Entrada" && m.entradaSaida != "Saída" ==> after == qb)
                  && r.value.historico == s.historico + [Historico(m.variacao, m.lote, before, after, m.entradaSaida, m.usuario)])
  {
    var v := s.variacoes[m.variacao];
    var mv := Moved(v.quantidade, QBase(m.quantidade, v.unidade), m.entradaSaida);
    if mv.Ok? {
      AdjustedSpec(s, m.variacao, mv.value, m.lote, m.entradaSaida, m.usuario);
    }
  }

  /** A movement that leaves stock at or below the minimum ends with the low-stock notice. */
  lemma MovementNotifiesLow(s: LedgerState, m: Movimentacao)
    requires m.variacao in s.variacoes
    requires MovementApplied(s, m, true).Ok? && m.quantidade != 0
    ensures var t := MovementApplied(s, m, true).value;
            var v := t.variacoes[m.variacao];
            (v.quantidade <= v.estoqueMinimo ==> |t.notificacoes| > 0 && t.notificacoes[|t.notificacoes| - 1] == LowNotice(v))
            && (v.quantidade > v.estoqueMinimo ==> t.notificacoes == s.notificacoes)
  {
    var v := s.variacoes[m.variacao];
    var mv := Moved(v.quantidade, QBase(m.quantidade, v.unidade), m.entradaSaida);
    AdjustedSpec(s, m.variacao, mv.value, m.lote, m.entradaSaida, m.usuario);
  }

  // ---------------------------------------------------------------- lots

  datatype Lote = Lote(id: nat, variacao: nat, numeroLote: string, quantidade: int, usuario: Option<nat>)

  /** `lote_update_estoque`: a new lot adds its quantity. */
  function LoteCreated(s: LedgerState, lote: Lote, created: bool): Result<LedgerState>
    requires lote.variacao in s.variacoes
  {
    if !created then Ok(s)
    else Adjusted(s, lote.variacao, s.variacoes[lote.variacao].quantidade + lote.quantidade,
                  Some(lote.id), "Lote Criado", lote.usuario)
  }

  /** `lote_reverter_estoque`: a deleted lot takes its quantity back out, never below zero. */
  function LoteDeleted(s: LedgerState, lote: Lote): Result<LedgerState>
    requires lote.variacao in s.variacoes
  {
    Adjusted(s, lote.variacao, SubFloor(s.variacoes[lote.variacao].quantidade, lote.quantidade),
             Some(lote.id), "Lote Excluído", None)
  }

  /** Deleting a lot never leaves its variation negative. */
  lemma LoteDeletedNonNegative(s: LedgerState, lote: Lote)
    requires lote.variacao in s.variacoes && LoteDeleted(s, lote).Ok?
    ensures LoteDeleted(s, lote).value.variacoes[lote.variacao].quantidade >= 0
  {
    AdjustedSpec(s, lote.variacao, SubFloor(s.variacoes[lote.variacao].quantidade, lote.quantidade),
                 Some(lote.id), "Lote Excluído", None);
  }

  /**
   * From non-negative stock, creating a lot of non-negative quantity and
   * deleting it again restores the variation's quantity.
   */
  lemma LoteCreateDeleteRestores(s: LedgerState, lote: Lote)
    requires lote.variacao in s.variacoes
    requires s.variacoes[lote.variacao].quantidade >= 0 && lote.quantidade >= 0
    requires LoteCreated(s, lote, true).Ok?
    requires LoteDeleted(LoteCreated(s, lote, true).value, lote).Ok?
    ensures LoteDeleted(LoteCreated(s, lote, true).value, lote).value.variacoes[lote.variacao].quantidade
         == s.variacoes[lote.variacao].quantidade
  {
    var before := s.variacoes[lote.variacao].quantidade;
    AdjustedSpec(s, lote.variacao, before + lote.quantidade, Some(lote.id), "Lote Criado", lote.usuario);
    var t := LoteCreated(s, lote, true).value;
    AdjustedSpec(t, lote.variacao, SubFloor(t.variacoes[lote.variacao].quantidade, lote.quantidade),
                 Some(lote.id), "Lote Excluído", None);
  }

  // ---------------------------------------------------------------- the handlers on the ledger

  /** Writes one adjustment to the ledger, rolling everything back if the save raises. */
  method ApplyAdjustment(l: Ledger, id: nat, q: int, lote: Option<nat>, tipo: string, usuario: Option<nat>)
    returns (res: Result<()>)
    requires id in l.variacoes
    modifies l
    ensures var r := Adjusted(old(l.State()), id, q, lote, tipo, usuario);
            (res.Ok? <==> r.Ok?) && l.State() == (if r.Ok? then r.value else old(l.State()))
  {
    var saved := l.State();
    var antes := l.variacoes[id].quantidade;
    l.SetQuantidade(id, q);
    var alerta := VerificarEstoqueMinimo(l, id, false);
    if alerta.Err? {
      l.Restore(saved);
      return Err(alerta.error);
    }
    l.AddHistorico(Historico(id, lote, antes, q, tipo, usuario));
    var v := l.variacoes[id];
    if v.quantidade <= v.estoqueMinimo {
      l.AddNotificacoes([LowNotice(v)]);
    }
    return Ok(());
  }

  method MovimentacaoUpdateEstoque(l: Ledger, m: Movimentacao, created: bool) returns (res: Result<()>)
    requires m.variacao in l.variacoes
    modifies l
    ensures var r := MovementApplied(old(l.State()), m, created);
            (res.Ok? <==> r.Ok?) && l.State() == (if r.Ok? then r.value else old(l.State()))
  {
    if !created || m.quantidade == 0 {
      return Ok(());
    }
    var v := l.variacoes[m.variacao];
    var qBase := QBase(m.quantidade, v.unidade);
    var novo: int;
    if m.entradaSaida == "Entrada" {
      novo := v.quantidade + qBase;
    } else if m.entradaSaida == "Saída" {
      if v.quantidade < qBase {
        return Err("Estoque insuficiente para esta saída");
      }
      novo := v.quantidade - qBase;
    } else {
      novo := qBase;
    }
    res := ApplyAdjustment(l, m.variacao, novo, m.lote, m.entradaSaida, m.usuario);
  }

  method LoteUpdateEstoque(l: Ledger, lote: Lote, created: bool) returns (res: Result<()>)
    requires lote.variacao in l.variacoes
    modifies l
    ensures var r := LoteCreated(old(l.State()), lote, created);
            (res.Ok? <==> r.Ok?) && l.State() == (if r.Ok? then r.value else old(l.State()))
  {
    if !created {
      return Ok(());
    }
    var antes := l.variacoes[lote.variacao].quantidade;
    res := ApplyAdjustment(l, lote.variacao, antes + lote.quantidade, Some(lote.id), "Lote Criado", lote.usuario);
  }

  method LoteReverterEstoque(l: Ledger, lote: Lote) returns (res: Result<()>)
    requires lote.variacao in l.variacoes
    modifies l
    ensures var r := LoteDeleted(old(l.State()), lote);
            (res.Ok? <==> r.Ok?) && l.State() == (if r.Ok? then r.value else old(l.State()))
  {
    var q := l.variacoes[lote.variacao].quantidade - lote.quantidade;
    if q < 0 {
      q := 0;
    }
    assert q == SubFloor(l.variacoes[lote.variacao].quantidade, lote.quantidade);
    res := ApplyAdjustment(l, lote.variacao, q, Some(lote.id), "Lote Excluído", None);
  }

  // ---------------------------------------------------------------- after an import

  /** The variations at or below their minimum, in order. */
  function LowOnes(vs: seq<Variacao>): (r: seq<Variacao>)
    ensures |r| <= |vs|
  {
    if vs == [] then []
    else
      var v := vs[|vs| - 1];
      LowOnes(vs[..|vs| - 1]) + (if v.quantidade <= v.estoqueMinimo then [v] else [])
  }

  /** One low-stock notice per variation. */
  function NoticesOf(vs: seq<Variacao>): (r: seq<Notificacao>)
    ensures |r| == |vs|
  {
    seq(|vs|, k requires 0 <= k < |vs| => LowNotice(vs[k]))
  }

  /** The notices `post_import_variacao` adds, variation by variation, in query order. */
  function ImportNotices(vs: seq<Variacao>): seq<Notificacao> {
    NoticesOf(LowOnes(vs))
  }

  /** The low variations are exactly those at or below their minimum. */
  lemma {:induction false} LowOnesSpec(vs: seq<Variacao>, v: Variacao)
    ensures v in LowOnes(vs) <==> v in vs && v.quantidade <= v.estoqueMinimo
  {
    if vs != [] {
      var last := |vs| - 1;
      LowOnesSpec(vs[..last], v);
      assert vs == vs[..last] + [vs[last]];
    }
  }

  /**
   * After an import the added notices are exactly the low-stock notices of
   * the variations at or below their minimum, one each, in query order.
   */
  lemma ImportNoticesSpec(vs: seq<Variacao>, v: Variacao)
    ensures v in vs && v.quantidade <= v.estoqueMinimo ==> LowNotice(v) in ImportNotices(vs)
    ensures forall k :: 0 <= k < |ImportNotices(vs)| ==>
              ImportNotices(vs)[k] == LowNotice(LowOnes(vs)[k]) && LowOnes(vs)[k] in vs
              && LowOnes(vs)[k].quantidade <= LowOnes(vs)[k].estoqueMinimo
  {
    LowOnesSpec(vs, v);
    var lows := LowOnes(vs);
    if v in lows {
      var k :| 0 <= k < |lows| && lows[k] == v;
      assert NoticesOf(lows)[k] == LowNotice(v);
    }
    forall k | 0 <= k < |lows|
      ensures lows[k] in vs && lows[k].quantidade <= lows[k].estoqueMinimo
    {
      LowOnesSpec(vs, lows[k]);
    }
  }

  /** One more variation adds its own notice at the end. */
  lemma ImportNoticesStep(vs: seq<Variacao>, i: nat)
    requires i < |vs|
    ensures ImportNotices(vs[..i + 1]) == ImportNotices(vs[..i]) + Notice(vs[i])
  {
    assert vs[..i + 1][..i] == vs[..i];
    var v := vs[i];
    assert LowOnes(vs[..i + 1]) == LowOnes(vs[..i]) + (if v.quantidade <= v.estoqueMinimo then [v] else []);
  }

  /** The variations with ids `ids`, in that order. */
  function VariacoesAt(vars: map<nat, Variacao>, ids: seq<nat>): (vs: seq<Variacao>)
    requires forall k :: 0 <= k < |ids| ==> ids[k] in vars
    ensures |vs| == |ids| && forall k :: 0 <= k < |ids| ==> vs[k] == vars[ids[k]]
  {
    seq(|ids|, k requires 0 <= k < |ids| => vars[ids[k]])
  }

  /** `post_import_variacao`: the notice check over every variation, in query order `ids`. */
  method PostImportVariacao(l: Ledger, ids: seq<nat>)
    requires forall k :: 0 <= k < |ids| ==> ids[k] in l.variacoes
    modifies l`notificacoes
    ensures l.notificacoes == old(l.notificacoes) + ImportNotices(VariacoesAt(l.variacoes, ids))
  {
    var vars := l.variacoes;
    var vs := VariacoesAt(vars, ids);
    var i := 0;
    while i < |ids|
      invariant 0 <= i <= |ids|
      invariant l.variacoes == vars
      invariant l.notificacoes == old(l.notificacoes) + ImportNotices(vs[..i])
    {
      ImportNoticesStep(vs, i);
      l.AddNotificacoes(Notice(vars[ids[i]]));
      i := i + 1;
    }
    assert vs[..|ids|] == vs;
  }
}
