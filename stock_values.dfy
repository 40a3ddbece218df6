/**
 * The values the stock signals work on: Decimal quantities, product
 * variations, stock-history rows and notifications, and the ledger that
 * holds the three tables the signal handlers write to.
 *
 * A `DecimalField(decimal_places=4)` quantity is held as an integer count
 * of ten-thousandths, so 1.5 is 15000.
 */
module StockValues {
  import opened Wrappers
  import opened Text

  const Scale: int := 10000

  /**
   * `n / d` rounded to the nearest integer, ties to the even neighbour:
   * Decimal's default ROUND_HALF_EVEN, as `quantize` applies it.
   */
  function RoundHalfEven(n: int, d: int): (q: int)
    requires d > 0
    ensures -d <= 2 * (n - d * q) <= d
    ensures (2 * (n - d * q) == d || 2 * (n - d * q) == -d) ==> q % 2 == 0
  {
    var f := n / d;
    var r := n % d;
    assert n - d * f == r;
    assert n - d * (f + 1) == r - d;
    if 2 * r < d then f
    else if 2 * r > d then f + 1
    else if f % 2 == 0 then f
    else f + 1
  }

  lemma {:induction false} MulAtLeast(d: int, e: int)
    requires d > 0 && e >= 1
    ensures d * e >= d
  {
    if e > 1 {
      MulAtLeast(d, e - 1);
      assert d * e == d * (e - 1) + d;
    }
  }

  /** Rounding an exact multiple gives the multiplier back. */
  lemma RoundHalfEvenExact(k: int, d: int)
    requires d > 0
    ensures RoundHalfEven(k * d, d) == k
  {
    var q := RoundHalfEven(k * d, d);
    var e := k - q;
    assert k * d - d * q == d * e;
    if e >= 1 {
      MulAtLeast(d, e);
    } else if e <= -1 {
      MulAtLeast(d, -e);
    }
  }

  /** `before - q`, floored at zero: `max(0, before - q)`. */
  function SubFloor(before: int, q: int): (r: int)
    ensures r >= 0
    ensures before - q >= 0 ==> r == before - q
    ensures before - q < 0 ==> r == 0
  {
    var r := before - q;
    if r < 0 then 0 else r
  }

  /** `str()` of a four-place Decimal: sign, integer part, a point and four digits. */
  function DecimalText(q: int): string {
    var a := if q < 0 then -q else q;
    (if q < 0 then "-" else "") + NatToString(a / Scale) + "." + FormatPadded(a % Scale, 4)
  }

  /** A variation's unit: a `UnidadeMedida` row, or a bare key string. */
  datatype Unidade = UnitKey(key: string) | UnidadeMedida(id: nat, sigla: string, nome: string)

  /** A `VariacaoProduto` row, with the name of its product. */
  datatype Variacao = Variacao(
    produto: nat, produtoNome: string, tamanho: Option<string>, unidade: Unidade,
    quantidade: int, estoqueMinimo: int, codigoBarras: Option<string>)

  /** A `HistoricoEstoque` row. */
  datatype Historico = Historico(
    variacao: nat, lote: Option<nat>, anterior: int, nova: int, tipoOperacao: string, usuario: Option<nat>)

  /** A `Notificacao` row. */
  datatype Notificacao = Notificacao(produto: nat, mensagem: string, lida: bool)

  datatype LedgerState = LedgerState(variacoes: map<nat, Variacao>, historico: seq<Historico>, notificacoes: seq<Notificacao>)

  /** The three tables the stock signals write: variations, stock history, notifications. */
  class Ledger {
    var variacoes: map<nat, Variacao>
    var historico: seq<Historico>
    var notificacoes: seq<Notificacao>

    function State(): LedgerState
      reads this
    {
      LedgerState(variacoes, historico, notificacoes)
    }

    constructor (variacoes: map<nat, Variacao>)
      ensures State() == LedgerState(variacoes, [], [])
    {
      this.variacoes := variacoes;
      historico := [];
      notificacoes := [];
    }

    /** `variacao.quantidade = q; variacao.save()` (the row update itself). */
    method SetQuantidade(id: nat, q: int)
      requires id in variacoes
      modifies this`variacoes
      ensures variacoes == old(variacoes)[id := old(variacoes)[id].(quantidade := q)]
    {
      variacoes := variacoes[id := variacoes[id].(quantidade := q)];
    }

    /** `HistoricoEstoque.objects.create(...)`. */
    method AddHistorico(h: Historico)
      modifies this`historico
      ensures historico == old(historico) + [h]
    {
      historico := historico + [h];
    }

    /** `Notificacao.objects.create(...)`. */
    method AddNotificacoes(ns: seq<Notificacao>)
      modifies this`notificacoes
      ensures notificacoes == old(notificacoes) + ns
    {
      notificacoes := notificacoes + ns;
    }

    /** What `transaction.atomic` does on an exception: the tables go back to `s`. */
    method Restore(s: LedgerState)
      modifies this
      ensures State() == s
    {
      variacoes := s.variacoes;
      historico := s.historico;
      notificacoes := s.notificacoes;
    }
  }
}
