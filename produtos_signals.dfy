/**
 * The product signals: detecting a changed bar code, choosing the
 * symbology its images are drawn in, and the kit-composition handlers
 * that take component stock out when a composition row is created and
 * put it back when one is deleted.  The kit handlers run without a
 * transaction: a save that raises leaves the rows written before it.
 */
module ProdutosSignals {
  import opened Wrappers
  import opened Text
  import opened StockValues
  import opened NotificacaoSignals

  // ---------------------------------------------------------------- bar codes

  /** Python truthiness of a nullable text column. */
  predicate Truthy(c: Option<string>) {
    c.Some? && c.value != []
  }

  /**
   * `check_codigo_barras_change`: the `_codigo_barras_changed` flag.
   * `pk` is None for a new variation; `stored` is the stored row's code,
   * None when the row has vanished.
   */
  function CodigoBarrasChanged(pk: Option<nat>, stored: Option<Option<string>>, code: Option<string>): (changed: bool)
    ensures pk.None? ==> (changed <==> Truthy(code))
    ensures pk.Some? && stored.Some? ==> (changed <==> code != stored.value)
    ensures pk.Some? && stored.None? ==> (changed <==> Truthy(code))
  {
    if pk.Some? then
      if stored.Some? then code != stored.value else Truthy(code)
    else Truthy(code)
  }

  /** The symbologies `gerar_codigos_produto` chooses from. */
  datatype Symbology = Ean13 | Ean8 | Upca | Code128

  /** The symbology for a code: by the length of the all-digit trimmed code. */
  function BarcodeType(codigo: string): Symbology {
    var c := Strip(codigo);
    if |c| == 13 && AllDigits(c) then Ean13
    else if |c| == 8 && AllDigits(c) then Ean8
    else if |c| == 12 && AllDigits(c) then Upca
    else Code128
  }

  /** The fixed-length symbologies are chosen exactly for all-digit codes of their length. */
  lemma BarcodeTypeSpec(codigo: string)
    ensures var c := Strip(codigo);
            (BarcodeType(codigo) == Ean13 <==> |c| == 13 && AllDigits(c))
            && (BarcodeType(codigo) == Ean8 <==> |c| == 8 && AllDigits(c))
            && (BarcodeType(codigo) == Upca <==> |c| == 12 && AllDigits(c))
            && (BarcodeType(codigo) == Code128 <==> !AllDigits(c) || (|c| != 13 && |c| != 8 && |c| != 12))
  {
  }

  /** Surrounding blanks do not change the symbology: the choice is made on the trimmed code. */
  lemma BarcodeTypeOfTrimmed(codigo: string)
    ensures BarcodeType(Strip(codigo)) == BarcodeType(codigo)
  {
    StripIdempotent(codigo);
  }

  /**
   * `gerar_codigos_produto`: the symbology the images are regenerated in,
   * or None when the code did not change or is empty.
   */
  function GerarCodigos(changed: bool, code: Option<string>): (r: Option<Symbology>)
    ensures r.Some? <==> changed && Truthy(code)
  {
    if changed && Truthy(code) then Some(BarcodeType(code.value)) else None
  }

  /**
   * The handler's own follow-up save (`update_fields=['barcode_image',
   * 'qr_code']`) sees the stored code unchanged, so it regenerates nothing
   * and the pair of handlers does not loop.
   */
  lemma FollowUpSaveRegeneratesNothing(pk: nat, code: Option<string>)
    ensures GerarCodigos(CodigoBarrasChanged(Some(pk), Some(code), code), code) == None
  {
  }

  /** A new variation saved with a non-empty code always gets its images. */
  lemma NewCodeRegenerates(code: string)
    requires code != []
    ensures GerarCodigos(CodigoBarrasChanged(None, None, Some(code)), Some(code)) == Some(BarcodeType(code))
  {
  }

  // ---------------------------------------------------------------- one kit save

  /** A `ProdutoComposicao` row: `quantidade` of `produtoComponente` in the kit `produtoPai`. */
  datatype Composicao = Composicao(produtoPai: nat, produtoComponente: nat, quantidade: int)

  /** The tables after a kit handler, and the error that stopped it, if any. */
  datatype KitOutcome = KitOutcome(state: LedgerState, error: Option<string>)

  /**
   * One component save: the variation is written with quantity `q`, then
   * the alert handler runs; if it raises, the written row stays and no
   * history row follows.
   */
  function KitStep(s: LedgerState, id: nat, q: int, tipo: string, usuario: Option<nat>): (o: KitOutcome)
    requires id in s.variacoes
    ensures o.state.variacoes == s.variacoes[id := s.variacoes[id].(quantidade := q)]
  {
    var v := s.variacoes[id];
    var v2 := v.(quantidade := q);
    var saved := s.(variacoes := s.variacoes[id := v2]);
    match Verificar(v2, false, s.notificacoes)
    case Err(e) => KitOutcome(saved, Some(e))
    case Ok(ns) =>
      KitOutcome(saved.(notificacoes := ns, historico := s.historico + [Historico(id, None, v.quantidade, q, tipo, usuario)]), None)
  }

  /**
   * A completed save appends exactly one history row recording the
   * quantity before and after; a failed one appends none.
   */
  lemma KitStepHistory(s: LedgerState, id: nat, q: int, tipo: string, usuario: Option<nat>)
    requires id in s.variacoes
    ensures var o := KitStep(s, id, q, tipo, usuario);
            (o.error.None? ==> o.state.historico == s.historico + [Historico(id, None, s.variacoes[id].quantidade, q, tipo, usuario)])
            && (o.error.Some? ==> o.state.historico == s.historico && o.state.notificacoes == s.notificacoes)
  {
  }

  /** Every component product's first variation is a stored variation. */
  predicate FirstsStored(s: LedgerState, firstOf: map<nat, nat>) {
    forall p :: p in firstOf ==> firstOf[p] in s.variacoes
  }

  /** `id` is the first variation of no component product. */
  predicate NoComponentUses(firstOf: map<nat, nat>, id: nat) {
    forall p :: p in firstOf ==> firstOf[p] != id
  }

  // ---------------------------------------------------------------- assembly, as written

  /**
   * `abate_estoque_ao_montar_kit`'s loop over every composition row of the
   * kit (`comps`, in query order); `firstOf` maps a product to its first
   * variation, and a product without variations is skipped.
   */
  function Montado(s: LedgerState, comps: seq<Composicao>, firstOf: map<nat, nat>, usuario: Option<nat>): (o: KitOutcome)
    requires FirstsStored(s, firstOf)
    ensures o.state.variacoes.Keys == s.variacoes.Keys && FirstsStored(o.state, firstOf)
    decreases |comps|
  {
    if comps == [] then KitOutcome(s, None)
    else if comps[0].produtoComponente !in firstOf then Montado(s, comps[1..], firstOf, usuario)
    else
      var id := firstOf[comps[0].produtoComponente];
      var o := KitStep(s, id, SubFloor(s.variacoes[id].quantidade, comps[0].quantidade), "Kit Montado", usuario);
      if o.error.Some? then o else Montado(o.state, comps[1..], firstOf, usuario)
  }

  /** `abate_estoque_ao_montar_kit`: only a newly created row triggers the loop. */
  function AbateEstoque(s: LedgerState, created: bool, comps: seq<Composicao>, firstOf: map<nat, nat>, usuario: Option<nat>): KitOutcome
    requires FirstsStored(s, firstOf)
  {
    if created then Montado(s, comps, firstOf, usuario) else KitOutcome(s, None)
  }

  /**
   * Assembly leaves the variations that are no component's first
   * variation alone and never drives a non-negative quantity negative.
   */
  lemma {:induction false} MontadoVariacoes(s: LedgerState, comps: seq<Composicao>, firstOf: map<nat, nat>, usuario: Option<nat>, id: nat)
    requires FirstsStored(s, firstOf) && id in s.variacoes
    ensures var r := Montado(s, comps, firstOf, usuario).state;
            (NoComponentUses(firstOf, id) ==> r.variacoes[id] == s.variacoes[id])
            && (s.variacoes[id].quantidade >= 0 ==> r.variacoes[id].quantidade >= 0)
    decreases |comps|
  {
    if comps != [] {
      if comps[0].produtoComponente !in firstOf {
        MontadoVariacoes(s, comps[1..], firstOf, usuario, id);
      } else {
        var c := firstOf[comps[0].produtoComponente];
        var o := KitStep(s, c, SubFloor(s.variacoes[c].quantidade, comps[0].quantidade), "Kit Montado", usuario);
        if o.error.None? {
          MontadoVariacoes(o.state, comps[1..], firstOf, usuario, id);
        }
      }
    }
  }

  /**
   * Assembly only appends history rows, each a 'Kit Montado' row with a
   * non-negative new quantity.
   */
  lemma {:induction false} MontadoHistorico(s: LedgerState, comps: seq<Composicao>, firstOf: map<nat, nat>, usuario: Option<nat>)
    requires FirstsStored(s, firstOf)
    ensures var r := Montado(s, comps, firstOf, usuario).state;
            |s.historico| <= |r.historico| && r.historico[..|s.historico|] == s.historico
            && (forall k :: |s.historico| <= k < |r.historico| ==>
                  r.historico[k].tipoOperacao == "Kit Montado" && r.historico[k].nova >= 0)
    decreases |comps|
  {
    if comps != [] {
      if comps[0].produtoComponente !in firstOf {
        MontadoHistorico(s, comps[1..], firstOf, usuario);
      } else {
        var c := firstOf[comps[0].produtoComponente];
        var q := SubFloor(s.variacoes[c].quantidade, comps[0].quantidade);
        var o := KitStep(s, c, q, "Kit Montado", usuario);
        KitStepHistory(s, c, q, "Kit Montado", usuario);
        if o.error.None? {
          MontadoHistorico(o.state, comps[1..], firstOf, usuario);
          var h := Montado(o.state, comps[1..], firstOf, usuario).state.historico;
          assert o.state.historico[..|s.historico|] == s.historico;
          PrefixOfPrefix(s.historico, o.state.historico, h);
        }
      }
    }
  }

  lemma PrefixOfPrefix<T>(a: seq<T>, b: seq<T>, c: seq<T>)
    requires |a| <= |b| <= |c| && b[..|a|] == a && c[..|b|] == b
    ensures c[..|a|] == a
  {
    assert c[..|a|] == c[..|b|][..|a|];
  }

  /** Over a two-row kit, the first component ends as its own row left it. */
  lemma TwoRowsFirstComponent(t: LedgerState, c1: Composicao, c2: Composicao, firstOf: map<nat, nat>, usuario: Option<nat>)
    requires FirstsStored(t, firstOf)
    requires c1.produtoComponente in firstOf && c2.produtoComponente in firstOf
    requires firstOf[c1.produtoComponente] != firstOf[c2.produtoComponente]
    ensures var id1 := firstOf[c1.produtoComponente];
            Montado(t, [c1, c2], firstOf, usuario).state.variacoes[id1].quantidade
            == SubFloor(t.variacoes[id1].quantidade, c1.quantidade)
  {
    var id1 := firstOf[c1.produtoComponente];
    var o2 := KitStep(t, id1, SubFloor(t.variacoes[id1].quantidade, c1.quantidade), "Kit Montado", usuario);
    assert [c1, c2][1..] == [c2];
    if o2.error.None? {
      var id2 := firstOf[c2.produtoComponente];
      var o3 := KitStep(o2.state, id2, SubFloor(o2.state.variacoes[id2].quantidade, c2.quantidade), "Kit Montado", usuario);
      assert [c2][1..] == [];
      assert Montado(o2.state, [c2], firstOf, usuario).state == o3.state;
    }
  }

  /**
   * The as-written handler re-runs over every row of the kit, so when a
   * formset saves a kit's rows one at a time, creating the second row
   * takes the first component out a second time.
   */
  lemma AssemblyRedecrements(s: LedgerState, c1: Composicao, c2: Composicao, firstOf: map<nat, nat>, usuario: Option<nat>)
    requires FirstsStored(s, firstOf)
    requires c1.produtoComponente in firstOf && c2.produtoComponente in firstOf
    requires firstOf[c1.produtoComponente] != firstOf[c2.produtoComponente]
    requires c1.quantidade >= 0
    requires s.variacoes[firstOf[c1.produtoComponente]].quantidade >= 2 * c1.quantidade
    requires Montado(s, [c1], firstOf, usuario).error.None?
    ensures var s1 := Montado(s, [c1], firstOf, usuario).state;
            var id1 := firstOf[c1.produtoComponente];
            Montado(s1, [c1, c2], firstOf, usuario).state.variacoes[id1].quantidade
            == s.variacoes[id1].quantidade - 2 * c1.quantidade
  {
    var s1 := Montado(s, [c1], firstOf, usuario).state;
    FirstRowAgrees(s, c1, firstOf, usuario);
    TwoRowsFirstComponent(s1, c1, c2, firstOf, usuario);
  }

  // ---------------------------------------------------------------- assembly, corrected

  /** Assembly as evidently intended: the created row's component alone is taken out. */
  function AbateComponente(s: LedgerState, c: Composicao, firstOf: map<nat, nat>, usuario: Option<nat>): KitOutcome
    requires FirstsStored(s, firstOf)
  {
    if c.produtoComponente !in firstOf then KitOutcome(s, None)
    else
      var id := firstOf[c.produtoComponente];
      KitStep(s, id, SubFloor(s.variacoes[id].quantidade, c.quantidade), "Kit Montado", usuario)
  }

  /** For a kit's first row, the corrected handler and the as-written one agree. */
  lemma FirstRowAgrees(s: LedgerState, c: Composicao, firstOf: map<nat, nat>, usuario: Option<nat>)
    requires FirstsStored(s, firstOf)
    ensures Montado(s, [c], firstOf, usuario) == AbateComponente(s, c, firstOf, usuario)
  {
    assert [c][1..] == [];
  }

  /**
   * With the corrected handler, saving a kit's two rows one at a time
   * takes each component out exactly once.
   */
  lemma CorrectedDecrementsOnce(s: LedgerState, c1: Composicao, c2: Composicao, firstOf: map<nat, nat>, usuario: Option<nat>)
    requires FirstsStored(s, firstOf)
    requires c1.produtoComponente in firstOf && c2.produtoComponente in firstOf
    requires firstOf[c1.produtoComponente] != firstOf[c2.produtoComponente]
    requires s.variacoes[firstOf[c1.produtoComponente]].quantidade >= c1.quantidade
    requires s.variacoes[firstOf[c2.produtoComponente]].quantidade >= c2.quantidade
    requires AbateComponente(s, c1, firstOf, usuario).error.None?
    ensures var s1 := AbateComponente(s, c1, firstOf, usuario).state;
            var id1 := firstOf[c1.produtoComponente];
            var id2 := firstOf[c2.produtoComponente];
            FirstsStored(s1, firstOf)
            && AbateComponente(s1, c2, firstOf, usuario).state.variacoes[id1].quantidade
               == s.variacoes[id1].quantidade - c1.quantidade
            && AbateComponente(s1, c2, firstOf, usuario).state.variacoes[id2].quantidade
               == s.variacoes[id2].quantidade - c2.quantidade
  {
  }

  // ---------------------------------------------------------------- disassembly

  /** `devolve_estoque_ao_desmontar_kit`: the deleted row's quantity goes back, with no cap. */
  function Desfeito(s: LedgerState, c: Composicao, firstOf: map<nat, nat>, usuario: Option<nat>): KitOutcome
    requires FirstsStored(s, firstOf)
  {
    if c.produtoComponente !in firstOf then KitOutcome(s, None)
    else
      var id := firstOf[c.produtoComponente];
      KitStep(s, id, s.variacoes[id].quantidade + c.quantidade, "Kit Desfeito", usuario)
  }

  /**
   * Creating a kit's only row and deleting it again restores the
   * component's stock exactly when the stock covered the row: a floored
   * assembly is not undone.
   */
  lemma AssemblyUndoneIffCovered(s: LedgerState, c: Composicao, firstOf: map<nat, nat>, usuario: Option<nat>)
    requires FirstsStored(s, firstOf) && c.produtoComponente in firstOf && c.quantidade >= 0
    requires Montado(s, [c], firstOf, usuario).error.None?
    ensures var s1 := Montado(s, [c], firstOf, usuario).state;
            var id := firstOf[c.produtoComponente];
            FirstsStored(s1, firstOf)
            && (Desfeito(s1, c, firstOf, usuario).state.variacoes[id].quantidade == s.variacoes[id].quantidade
                <==> s.variacoes[id].quantidade >= c.quantidade)
  {
    FirstRowAgrees(s, c, firstOf, usuario);
  }

  // ---------------------------------------------------------------- the handlers on the ledger

  /** One component save on the ledger; nothing is rolled back. */
  method KitSave(l: Ledger, id: nat, q: int, tipo: string, usuario: Option<nat>) returns (err: Option<string>)
    requires id in l.variacoes
    modifies l
    ensures var o := KitStep(old(l.State()), id, q, tipo, usuario);
            l.State() == o.state && err == o.error
  {
    var antes := l.variacoes[id].quantidade;
    l.SetQuantidade(id, q);
    assert l.variacoes[id] == old(l.variacoes)[id].(quantidade := q);
    var alerta := VerificarEstoqueMinimo(l, id, false);
    if alerta.Err? {
      assert l.notificacoes == old(l.notificacoes);
      return Some(alerta.error);
    }
    l.AddHistorico(Historico(id, None, antes, q, tipo, usuario));
    return None;
  }

  method AbateEstoqueAoMontarKit(l: Ledger, created: bool, comps: seq<Composicao>, firstOf: map<nat, nat>, usuario: Option<nat>)
    returns (err: Option<string>)
    requires FirstsStored(l.State(), firstOf)
    modifies l
    ensures var o := AbateEstoque(old(l.State()), created, comps, firstOf, usuario);
            l.State() == o.state && err == o.error
  {
    if !created {
      return None;
    }
    var i := 0;
    while i < |comps|
      invariant 0 <= i <= |comps|
      invariant FirstsStored(l.State(), firstOf)
      invariant Montado(l.State(), comps[i..], firstOf, usuario) == Montado(old(l.State()), comps, firstOf, usuario)
    {
      var c := comps[i];
      assert comps[i..][1..] == comps[i + 1..];
      if c.produtoComponente in firstOf {
        var id := firstOf[c.produtoComponente];
        var q := l.variacoes[id].quantidade - c.quantidade;
        if q < 0 {
          q := 0;
        }
        err := KitSave(l, id, q, "Kit Montado", usuario);
        if err.Some? {
          return;
        }
      }
      i := i + 1;
    }
    return None;
  }

  method DevolveEstoqueAoDesmontarKit(l: Ledger, c: Composicao, firstOf: map<nat, nat>, usuario: Option<nat>)
    returns (err: Option<string>)
    requires FirstsStored(l.State(), firstOf)
    modifies l
    ensures var o := Desfeito(old(l.State()), c, firstOf, usuario);
            l.State() == o.state && err == o.error
  {
    if c.produtoComponente !in firstOf {
      return None;
    }
    var id := firstOf[c.produtoComponente];
    err := KitSave(l, id, l.variacoes[id].quantidade + c.quantidade, "Kit Desfeito", usuario);
  }
}
