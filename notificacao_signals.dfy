/**
 * The low-stock alert raised whenever an existing product variation is
 * saved at or below its minimum, unless an unread alert for the same
 * product already mentions the variation's size.
 */
module NotificacaoSignals {
  import opened Wrappers
  import opened Text
  import opened StockValues

  /**
   * The `exists()` query: an unread notification of `produto` whose
   * message contains `tamanho`, ignoring case.
   */
  predicate HasUnreadAlert(ns: seq<Notificacao>, produto: nat, tamanho: string) {
    exists i :: 0 <= i < |ns| && ns[i].produto == produto && !ns[i].lida && IContains(ns[i].mensagem, tamanho)
  }

  /** The alert text. */
  function AlertMessage(nome: string, tamanho: string, quantidade: int, minimo: int): string {
    "O produto '" + nome + "' (Tamanho: " + tamanho + ") atingiu o estoque mínimo ("
    + DecimalText(quantidade) + "/" + DecimalText(minimo) + ")!"
  }

  /** The alert a variation at or below its minimum would get. */
  function AlertFor(v: Variacao): Notificacao
    requires v.tamanho.Some?
  {
    Notificacao(v.produto, AlertMessage(v.produtoNome, v.tamanho.value, v.quantidade, v.estoqueMinimo), false)
  }

  /**
   * `verificar_estoque_minimo`: the notification table after the handler,
   * or the error the query raises (Django refuses `icontains=None`).
   */
  function Verificar(v: Variacao, created: bool, ns: seq<Notificacao>): (r: Result<seq<Notificacao>>)
  {
    if created then Ok(ns)
    else if v.quantidade > v.estoqueMinimo then Ok(ns)
    else if v.tamanho.None? then Err("Cannot use None as a query value")
    else if HasUnreadAlert(ns, v.produto, v.tamanho.value) then Ok(ns)
    else Ok(ns + [AlertFor(v)])
  }

  /**
   * The handler adds at most one alert, and adds one exactly for a saved
   * (not created) variation at or below its minimum with no unread alert
   * for its size; it raises only for a variation without a size.
   */
  lemma VerificarSpec(v: Variacao, created: bool, ns: seq<Notificacao>)
    ensures var r := Verificar(v, created, ns);
            (r.Err? <==> !created && v.quantidade <= v.estoqueMinimo && v.tamanho.None?)
            && (r.Ok? ==> r.value == ns || (v.tamanho.Some? && r.value == ns + [AlertFor(v)]))
            && (r.Ok? && r.value != ns <==>
                  !created && v.quantidade <= v.estoqueMinimo && v.tamanho.Some?
                  && !HasUnreadAlert(ns, v.produto, v.tamanho.value))
  {
  }

  /** A new variation, or one above its minimum, raises nothing. */
  lemma NoAlertWhenCreatedOrAbove(v: Variacao, created: bool, ns: seq<Notificacao>)
    requires created || v.quantidade > v.estoqueMinimo
    ensures Verificar(v, created, ns) == Ok(ns)
  {
  }

  /** The alert names the product, the size, the quantity and the minimum. */
  lemma AlertMentions(nome: string, tamanho: string, quantidade: int, minimo: int)
    ensures var m := AlertMessage(nome, tamanho, quantidade, minimo);
            Contains(m, nome) && Contains(m, tamanho)
            && Contains(m, DecimalText(quantidade)) && Contains(m, DecimalText(minimo))
  {
    SlotsOccur("O produto '", nome, "' (Tamanho: ", tamanho, ") atingiu o estoque mínimo (",
               DecimalText(quantidade), "/", DecimalText(minimo), ")!");
  }

  /** The alert's own message mentions its size, ignoring case. */
  lemma AlertMatchesOwnSize(v: Variacao)
    requires v.tamanho.Some?
    ensures IContains(AlertFor(v).mensagem, v.tamanho.value)
  {
    var t := v.tamanho.value;
    var pre := "O produto '" + v.produtoNome + "' (Tamanho: ";
    var post := ") atingiu o estoque mínimo (" + DecimalText(v.quantidade) + "/" + DecimalText(v.estoqueMinimo) + ")!";
    var m := AlertFor(v).mensagem;
    assert m == pre + t + post;
    LowerAppend(pre + t, post);
    LowerAppend(pre, t);
    ContainsMiddle(Lower(pre), Lower(t), Lower(post));
  }

  /**
   * Deduplication: once an alert was added, saving the same product's
   * variation of that size again adds nothing while the alert is unread.
   */
  lemma AlertDeduplicated(v: Variacao, w: Variacao, ns: seq<Notificacao>)
    requires Verificar(v, false, ns).Ok? && Verificar(v, false, ns).value != ns
    requires w.produto == v.produto && w.tamanho == v.tamanho
    ensures Verificar(w, false, Verificar(v, false, ns).value) == Ok(Verificar(v, false, ns).value)
  {
    var after := Verificar(v, false, ns).value;
    AlertMatchesOwnSize(v);
    assert after[|ns|] == AlertFor(v);
    assert HasUnreadAlert(after, v.produto, v.tamanho.value);
  }

  /** The handler, applied to the ledger after variation `id` was saved. */
  method VerificarEstoqueMinimo(l: Ledger, id: nat, created: bool) returns (res: Result<()>)
    requires id in l.variacoes
    modifies l`notificacoes
    ensures var r := Verificar(l.variacoes[id], created, old(l.notificacoes));
            (res.Ok? <==> r.Ok?) && (res.Err? ==> res.error == r.error)
            && l.notificacoes == (if r.Ok? then r.value else old(l.notificacoes))
  {
    if created {
      return Ok(());
    }
    var v := l.variacoes[id];
    if v.quantidade <= v.estoqueMinimo {
      if v.tamanho.None? {
        return Err("Cannot use None as a query value");
      }
      var notExist := !HasUnreadAlert(l.notificacoes, v.produto, v.tamanho.value);
      if notExist {
        l.AddNotificacoes([AlertFor(v)]);
      }
    }
    return Ok(());
  }
}
