/**
 * The asset audit workflow: an audit lists every asset of the client at
 * one location, users tick items off as verified, and finalising stamps
 * each verified asset's `auditoria` text.  The HTML views and the REST
 * API drive the same records, each with its own status vocabulary.
 */
module AuditoriaViews {
  import opened Wrappers
  import opened Text
  import opened AtivosSignals

  // ---------------------------------------------------------------- records

  /** The two front ends. */
  datatype Via = Html | Api

  /** The status an audit in progress carries, as each front end tests it. */
  function EmAndamento(via: Via): string { if via.Html? then "0" else "em_andamento" }

  /** The status each front end writes when finalising. */
  function Finalizada(via: Via): string { if via.Html? then "1" else "finalizada" }

  /** The status each front end writes when cancelling. */
  function Cancelada(via: Via): string { if via.Html? then "2" else "cancelada" }

  /** The tail the API adds to its history descriptions. */
  function ViaSuffix(via: Via): string { if via.Html? then "" else " via API" }

  /** An `AuditoriaItem`, with its asset's id and tag. */
  datatype Item = Item(
    id: nat, ativo: nat, etiqueta: string, verificado: bool,
    dataVerificacao: Option<int>, verificadoPor: Option<nat>,
    estadoFisico: string, localizacaoReal: string, observacao: string)

  /** An `AuditoriaHistorico` row. */
  datatype Evento = Evento(acao: string, descricao: string, usuario: nat)

  /** An `Auditoria` with its items and its history. */
  datatype Audit = Audit(
    cliente: nat, titulo: string, localizacao: Option<nat>, status: string, observacoes: string,
    dataFinalizacao: Option<int>, totalAtivos: nat, ativosVerificados: nat,
    itens: seq<Item>, historico: seq<Evento>)

  const NoAuditoria := "No Auditoria matches the given query."
  const NoItem := "No AuditoriaItem matches the given query."
  const NaoEmAndamento := "Auditoria não está em andamento"

  /** The number of verified items. */
  function CountVerified(itens: seq<Item>): (n: nat)
    ensures n <= |itens|
  {
    if itens == [] then 0
    else CountVerified(itens[..|itens| - 1]) + (if itens[|itens| - 1].verificado then 1 else 0)
  }

  /** The number of items still to verify. */
  function CountPending(itens: seq<Item>): (n: nat)
    ensures n <= |itens|
  {
    if itens == [] then 0
    else CountPending(itens[..|itens| - 1]) + (if itens[|itens| - 1].verificado then 0 else 1)
  }

  /** Every item is either verified or pending. */
  lemma {:induction false} CountsPartition(itens: seq<Item>)
    ensures CountVerified(itens) + CountPending(itens) == |itens|
  {
    if itens != [] {
      CountsPartition(itens[..|itens| - 1]);
    }
  }

  /** Replacing one item changes the verified count by the change in its flag. */
  lemma {:induction false} CountUpdate(itens: seq<Item>, k: nat, x: Item)
    requires k < |itens|
    ensures CountVerified(itens[k := x]) + (if itens[k].verificado then 1 else 0)
         == CountVerified(itens) + (if x.verificado then 1 else 0)
  {
    var n := |itens|;
    var u := itens[k := x];
    if k < n - 1 {
      assert u[..n - 1] == itens[..n - 1][k := x];
      CountUpdate(itens[..n - 1], k, x);
    } else {
      assert u[..n - 1] == itens[..n - 1];
    }
  }

  /** The counters agree with the items, as `atualizar_estatisticas` leaves them. */
  predicate Accurate(a: Audit) {
    a.totalAtivos == |a.itens| && a.ativosVerificados == CountVerified(a.itens)
  }

  /** `ativos_pendentes` of the statistics. */
  function Pendentes(a: Audit): int {
    a.totalAtivos - a.ativosVerificados
  }

  /** With accurate counters the pending figure counts the unverified items and is never negative. */
  lemma PendentesCountsUnverified(a: Audit)
    requires Accurate(a)
    ensures Pendentes(a) == CountPending(a.itens) >= 0
  {
    CountsPartition(a.itens);
  }

  /** The position of the item with primary key `id`. */
  function FindItem(itens: seq<Item>, id: nat): (k: Option<nat>)
    ensures k.Some? ==> k.value < |itens| && itens[k.value].id == id
    ensures k.None? ==> forall j :: 0 <= j < |itens| ==> itens[j].id != id
  {
    if itens == [] then None
    else if itens[0].id == id then Some(0)
    else match FindItem(itens[1..], id)
      case None => None
      case Some(j) => Some(j + 1)
  }

  /** The history row appended, with the verified count recomputed. */
  function Recount(a: Audit, e: Evento): (r: Audit)
    ensures r.ativosVerificados == CountVerified(r.itens)
  {
    a.(ativosVerificados := CountVerified(a.itens), historico := a.historico + [e])
  }

  // ---------------------------------------------------------------- creation

  /** An `Ativo` as the creation view selects it. */
  datatype AtivoRow = AtivoRow(id: nat, cliente: nat, localizacao: Option<nat>, etiqueta: string)

  /** `Ativo.objects.filter(cliente=..., localizacao=...)`; a missing location matches NULL. */
  function Selecionados(ativos: seq<AtivoRow>, cliente: nat, loc: Option<nat>): (r: seq<AtivoRow>)
    ensures |r| <= |ativos|
  {
    if ativos == [] then []
    else
      var last := ativos[|ativos| - 1];
      Selecionados(ativos[..|ativos| - 1], cliente, loc)
      + (if last.cliente == cliente && last.localizacao == loc then [last] else [])
  }

  /** The selection holds exactly the client's assets at the location, in table order. */
  lemma {:induction false} SelecionadosSpec(ativos: seq<AtivoRow>, cliente: nat, loc: Option<nat>)
    ensures forall x :: x in Selecionados(ativos, cliente, loc) <==> x in ativos && x.cliente == cliente && x.localizacao == loc
  {
    if ativos != [] {
      SelecionadosSpec(ativos[..|ativos| - 1], cliente, loc);
      assert ativos == ativos[..|ativos| - 1] + [ativos[|ativos| - 1]];
    }
  }

  /** A fresh, unverified item for each selected asset, numbered from `firstId`. */
  function NovosItens(sel: seq<AtivoRow>, firstId: nat): (r: seq<Item>)
    ensures |r| == |sel|
  {
    seq(|sel|, k requires 0 <= k < |sel| => Item(firstId + k, sel[k].id, sel[k].etiqueta, false, None, None, "", "", ""))
  }

  /** `AuditoriaCreateView.form_valid` after the form saved `a`. */
  function Criada(a: Audit, ativos: seq<AtivoRow>, firstId: nat, usuario: nat): Audit {
    var sel := Selecionados(ativos, a.cliente, a.localizacao);
    a.(itens := NovosItens(sel, firstId), totalAtivos := |sel|,
       historico := a.historico + [Evento("Criação", "Auditoria criada com " + NatToString(|sel|) + " ativos", usuario)])
  }

  /**
   * A new audit holds one unverified item per asset of its client at its
   * location, and its total counts them.
   */
  lemma CriadaSpec(a: Audit, ativos: seq<AtivoRow>, firstId: nat, usuario: nat)
    requires a.ativosVerificados == 0
    ensures var c := Criada(a, ativos, firstId, usuario);
            Accurate(c) && CountPending(c.itens) == |c.itens|
            && (forall x :: x in ativos && x.cliente == a.cliente && x.localizacao == a.localizacao
                  <==> x in Selecionados(ativos, a.cliente, a.localizacao))
            && (forall k :: 0 <= k < |c.itens| ==>
                  var x := Selecionados(ativos, a.cliente, a.localizacao)[k];
                  c.itens[k].ativo == x.id && !c.itens[k].verificado)
            && c.status == a.status && |c.historico| == |a.historico| + 1
  {
    var c := Criada(a, ativos, firstId, usuario);
    SelecionadosSpec(ativos, a.cliente, a.localizacao);
    NoneVerified(c.itens);
    CountsPartition(c.itens);
  }

  /** Items none of which is verified count zero. */
  lemma {:induction false} NoneVerified(itens: seq<Item>)
    requires forall k :: 0 <= k < |itens| ==> !itens[k].verificado
    ensures CountVerified(itens) == 0
  {
    if itens != [] {
      NoneVerified(itens[..|itens| - 1]);
    }
  }

  // ---------------------------------------------------------------- verifying items

  /**
   * `AuditoriaVerificarItemView` and the API's `verificar_item`: the HTML
   * view only finds audits with status '0', the API refuses any status
   * but 'em_andamento'.
   */
  function Verificar(a: Audit, via: Via, cliente: nat, itemId: nat, usuario: nat, now: int,
                     estado: string, local: string, obs: string): Result<Audit>
  {
    if a.cliente != cliente then Err(NoAuditoria)
    else if a.status != EmAndamento(via) then Err(if via.Html? then NoAuditoria else NaoEmAndamento)
    else match FindItem(a.itens, itemId)
      case None => Err(NoItem)
      case Some(k) =>
        var it := a.itens[k].(verificado := true, dataVerificacao := Some(now), verificadoPor := Some(usuario),
                               estadoFisico := estado, localizacaoReal := local, observacao := obs);
        Ok(Recount(a.(itens := a.itens[k := it]),
                   Evento("Verificação", "Ativo " + it.etiqueta + " verificado" + ViaSuffix(via), usuario)))
  }

  /** `AuditoriaDesverificarItemView` and the API's `desverificar_item`. */
  function Desverificar(a: Audit, via: Via, cliente: nat, itemId: nat, usuario: nat): Result<Audit>
  {
    if a.cliente != cliente then Err(NoAuditoria)
    else if a.status != EmAndamento(via) then Err(if via.Html? then NoAuditoria else NaoEmAndamento)
    else match FindItem(a.itens, itemId)
      case None => Err(NoItem)
      case Some(k) =>
        var it := a.itens[k].(verificado := false, dataVerificacao := None, verificadoPor := None);
        Ok(Recount(a.(itens := a.itens[k := it]),
                   Evento("Desverificação", "Verificação do ativo " + it.etiqueta + " removida" + ViaSuffix(via), usuario)))
  }

  /**
   * Verifying succeeds exactly for the client's own audit in progress and
   * an item of it; it marks that item verified now by the user, leaves
   * the other items and the status alone, and keeps the counters accurate.
   */
  lemma VerificarSpec(a: Audit, via: Via, cliente: nat, itemId: nat, usuario: nat, now: int,
                      estado: string, local: string, obs: string)
    requires Accurate(a)
    ensures var r := Verificar(a, via, cliente, itemId, usuario, now, estado, local, obs);
            (r.Ok? <==> a.cliente == cliente && a.status == EmAndamento(via)
                        && exists j :: 0 <= j < |a.itens| && a.itens[j].id == itemId)
            && (r.Ok? ==>
                  var k := FindItem(a.itens, itemId).value;
                  Accurate(r.value) && r.value.status == a.status && |r.value.itens| == |a.itens|
                  && r.value.itens[k].verificado && r.value.itens[k].dataVerificacao == Some(now)
                  && r.value.itens[k].verificadoPor == Some(usuario)
                  && (forall j :: 0 <= j < |a.itens| && j != k ==> r.value.itens[j] == a.itens[j])
                  && r.value.ativosVerificados == a.ativosVerificados + (if a.itens[k].verificado then 0 else 1)
                  && |r.value.historico| == |a.historico| + 1)
  {
    var r := Verificar(a, via, cliente, itemId, usuario, now, estado, local, obs);
    if r.Ok? {
      var k := FindItem(a.itens, itemId).value;
      CountUpdate(a.itens, k, r.value.itens[k]);
    }
  }

  /**
   * Unverifying succeeds under the same conditions and clears the flag,
   * the date and the user of that item alone.
   */
  lemma DesverificarSpec(a: Audit, via: Via, cliente: nat, itemId: nat, usuario: nat)
    requires Accurate(a)
    ensures var r := Desverificar(a, via, cliente, itemId, usuario);
            (r.Ok? <==> a.cliente == cliente && a.status == EmAndamento(via)
                        && exists j :: 0 <= j < |a.itens| && a.itens[j].id == itemId)
            && (r.Ok? ==>
                  var k := FindItem(a.itens, itemId).value;
                  Accurate(r.value) && r.value.status == a.status && |r.value.itens| == |a.itens|
                  && !r.value.itens[k].verificado && r.value.itens[k].dataVerificacao.None?
                  && r.value.itens[k].verificadoPor.None?
                  && (forall j :: 0 <= j < |a.itens| && j != k ==> r.value.itens[j] == a.itens[j])
                  && r.value.ativosVerificados == a.ativosVerificados - (if a.itens[k].verificado then 1 else 0))
  {
    var r := Desverificar(a, via, cliente, itemId, usuario);
    if r.Ok? {
      var k := FindItem(a.itens, itemId).value;
      CountUpdate(a.itens, k, r.value.itens[k]);
    }
  }

  /**
   * Unverifying undoes verifying: the item's flag, date and user are
   * cleared again and the verified count returns to what it was.
   */
  lemma VerifyThenUnverify(a: Audit, via: Via, cliente: nat, itemId: nat, usuario: nat, now: int,
                           estado: string, local: string, obs: string)
    requires Accurate(a)
    requires Verificar(a, via, cliente, itemId, usuario, now, estado, local, obs).Ok?
    ensures var v := Verificar(a, via, cliente, itemId, usuario, now, estado, local, obs).value;
            var k := FindItem(a.itens, itemId).value;
            var u := Desverificar(v, via, cliente, itemId, usuario);
            u.Ok? && !u.value.itens[k].verificado && u.value.itens[k].dataVerificacao.None?
            && u.value.itens[k].verificadoPor.None?
            && (!a.itens[k].verificado ==> u.value.ativosVerificados == a.ativosVerificados)
  {
    var v := Verificar(a, via, cliente, itemId, usuario, now, estado, local, obs).value;
    var k := FindItem(a.itens, itemId).value;
    VerificarSpec(a, via, cliente, itemId, usuario, now, estado, local, obs);
    assert v.itens[k].id == itemId;
    DesverificarSpec(v, via, cliente, itemId, usuario);
    assert FindItem(v.itens, itemId) == Some(k) by {
      FindItemFirst(a.itens, v.itens, itemId);
    }
  }

  /** Items with the same keys in the same places are found at the same place. */
  lemma {:induction false} FindItemFirst(xs: seq<Item>, ys: seq<Item>, id: nat)
    requires |xs| == |ys| && forall j :: 0 <= j < |xs| ==> xs[j].id == ys[j].id
    ensures FindItem(xs, id) == FindItem(ys, id)
  {
    if xs != [] && xs[0].id != id {
      FindItemFirst(xs[1..], ys[1..], id);
    }
  }

  /** The two front ends never agree that an audit is in progress. */
  lemma StatusVocabulariesDisjoint(a: Audit, cliente: nat, itemId: nat, usuario: nat, now: int,
                                   estado: string, local: string, obs: string)
    ensures Verificar(a, Html, cliente, itemId, usuario, now, estado, local, obs).Ok?
            ==> Verificar(a, Api, cliente, itemId, usuario, now, estado, local, obs) == Err(NaoEmAndamento)
    ensures Verificar(a, Api, cliente, itemId, usuario, now, estado, local, obs).Ok?
            ==> Verificar(a, Html, cliente, itemId, usuario, now, estado, local, obs) == Err(NoAuditoria)
  {
  }

  // ---------------------------------------------------------------- cancelling

  /** `AuditoriaCancelarView` and the API's `cancelar`. */
  function Cancelar(a: Audit, via: Via, cliente: nat, usuario: nat): Result<Audit>
  {
    if a.cliente != cliente then Err(NoAuditoria)
    else if a.status != EmAndamento(via) then
      Err(if via.Html? then "Auditoria não pode ser cancelada" else "Apenas auditorias em andamento podem ser canceladas")
    else Ok(a.(status := Cancelada(via),
               historico := a.historico + [Evento("Cancelamento", "Auditoria cancelada" + ViaSuffix(via), usuario)]))
  }

  /**
   * Cancelling succeeds only for an audit in progress; it changes the
   * status and the history and nothing else, and a cancelled audit
   * cannot be cancelled again.
   */
  lemma CancelarSpec(a: Audit, via: Via, cliente: nat, usuario: nat)
    ensures var r := Cancelar(a, via, cliente, usuario);
            (r.Ok? <==> a.cliente == cliente && a.status == EmAndamento(via))
            && (r.Ok? ==> r.value.status == Cancelada(via) && r.value.itens == a.itens
                          && r.value.observacoes == a.observacoes && r.value.dataFinalizacao == a.dataFinalizacao
                          && r.value.ativosVerificados == a.ativosVerificados
                          && |r.value.historico| == |a.historico| + 1
                          && Cancelar(r.value, via, cliente, usuario).Err?)
  {
  }

  // ---------------------------------------------------------------- finalising

  /** The closing note appended to the audit's notes. */
  const FinalTag: string := "Observações Finais: "

  function FinalNote(observacoes: string, nota: string): string {
    if nota == [] then observacoes
    else (if observacoes != [] then observacoes + "\n\n" else []) + FinalTag + nota
  }

  /**
   * An empty note changes nothing; otherwise the old notes are kept as a
   * prefix and the new text ends with the note.
   */
  lemma FinalNoteSpec(observacoes: string, nota: string)
    ensures var r := FinalNote(observacoes, nota);
            (nota == [] ==> r == observacoes)
            && (nota != [] ==> StartsWith(r, observacoes) && |r| > |observacoes| + |nota|
                               && r[|r| - |nota|..] == nota && Contains(r, FinalTag))
  {
    if nota != [] {
      var head := if observacoes != [] then observacoes + "\n\n" else [];
      assert head[..|observacoes|] == observacoes;
      PiecesOfThree(head, FinalTag, nota);
      ContainsMiddle(head, FinalTag, nota);
    }
  }

  /** The first and last pieces of a three-piece concatenation. */
  lemma PiecesOfThree(a: string, b: string, c: string)
    ensures var r := a + b + c;
            |r| == |a| + |b| + |c| && r[..|a|] == a && r[|r| - |c|..] == c
  {
  }

  /** `get_FOO_display`: the label of a choice, or the stored value when it has none. */
  function Display(choices: map<string, string>, value: string): string {
    if value in choices then choices[value] else value
  }

  /** The line stamped on a verified asset; `quando` is the finalisation time as `%d/%m/%Y %H:%M`. */
  function AuditLine(quando: string, quem: string, estado: string, choices: map<string, string>): (r: string)
    ensures StartsWith(r, "Auditoria realizada em ")
  {
    var base := "Auditoria realizada em " + quando + " " + "por " + quem;
    var r := if estado != [] then base + " - Estado: " + Display(choices, estado) else base;
    assert r == "Auditoria realizada em " + (r[|"Auditoria realizada em "|..]);
    r
  }

  /** The asset's `auditoria` text after the line is added. */
  function AppendLine(v: AtivoValue, line: string): AtivoValue {
    if v.Text? && v.text != [] then Text(v.text + "\n" + line) else Text(line)
  }

  /**
   * A non-empty text keeps its old lines and gains the new one after a
   * line break; an empty or missing text becomes the line.  Either way
   * the value changes when the line is not empty.
   */
  lemma AppendLineSpec(v: AtivoValue, line: string)
    requires line != []
    ensures var r := AppendLine(v, line);
            r.Text? && !PyEq(v, r)
            && (v.Text? && v.text != [] ==> StartsWith(r.text, v.text + "\n") && r.text[|v.text| + 1..] == line)
            && (!(v.Text? && v.text != []) ==> r.text == line)
  {
  }

  /** The asset table: each asset's monitored values, and `AtivoHistorico`. */
  datatype Assets = Assets(valores: map<nat, seq<AtivoValue>>, historico: seq<AtivoHistorico>)

  predicate WellFormed(t: Assets) {
    forall id :: id in t.valores ==> |t.valores[id]| == |CamposMonitorados|
  }

  predicate Covers(t: Assets, itens: seq<Item>) {
    forall j :: 0 <= j < |itens| ==> itens[j].ativo in t.valores
  }

  /** The position of `auditoria` among the monitored fields. */
  const AuditoriaField: nat := 16

  /** The values of an asset once its `auditoria` text has the line. */
  function Stamped(before: seq<AtivoValue>, line: string): (r: seq<AtivoValue>)
    requires |before| == |CamposMonitorados|
    ensures |r| == |before|
  {
    before[AuditoriaField := AppendLine(before[AuditoriaField], line)]
  }

  /** The row the view writes itself after saving the asset. */
  function AuditRow(ativo: nat, line: string, titulo: string, usuario: nat): AtivoHistorico {
    AtivoHistorico(ativo, Some("Auditoria"), None, Some(line),
                   "Ativo verificado na auditoria \"" + titulo + "\"", Some(usuario))
  }

  /**
   * One verified item: the asset saved with the stamped text, which runs
   * the asset's save signals, then the view's own history row.
   */
  function StampAsset(t: Assets, it: Item, titulo: string, quando: string, quem: string, usuario: nat,
                      choices: map<string, string>): (r: Assets)
    requires WellFormed(t) && it.ativo in t.valores
    ensures WellFormed(r) && r.valores.Keys == t.valores.Keys
  {
    var before := t.valores[it.ativo];
    var line := AuditLine(quando, quem, it.estadoFisico, choices);
    var after := Stamped(before, line);
    var pending := Registrar(Some(it.ativo), Some(before), after, None);
    Assets(t.valores[it.ativo := after],
           t.historico + PostSaveRows(it.ativo, "", false, pending) + [AuditRow(it.ativo, line, titulo, usuario)])
  }

  /**
   * Stamping an asset logs exactly two rows: the save signal's change of
   * the `Auditoria` field from its old rendering to its new text, then
   * the view's own row; no other asset changes.
   */
  lemma StampAssetRows(t: Assets, it: Item, titulo: string, quando: string, quem: string, usuario: nat,
                       choices: map<string, string>)
    requires WellFormed(t) && it.ativo in t.valores
    ensures var before := t.valores[it.ativo];
            var line := AuditLine(quando, quem, it.estadoFisico, choices);
            var r := StampAsset(t, it, titulo, quando, quem, usuario, choices);
            r.historico == t.historico
                           + [ChangeRow(it.ativo, Alteracao("Auditoria", "auditoria", Render(before[AuditoriaField]),
                                                             AppendLine(before[AuditoriaField], line).text))]
                           + [AuditRow(it.ativo, line, titulo, usuario)]
            && r.valores[it.ativo][AuditoriaField] == AppendLine(before[AuditoriaField], line)
            && (forall id :: id in t.valores && id != it.ativo ==> r.valores[id] == t.valores[id])
  {
    var before := t.valores[it.ativo];
    var line := AuditLine(quando, quem, it.estadoFisico, choices);
    var after := Stamped(before, line);
    AppendLineSpec(before[AuditoriaField], line);
    forall i | 0 <= i < |CamposMonitorados| && i != AuditoriaField
      ensures PyEq(before[i], after[i])
    {
      PyEqEquivalence(before[i], before[i], before[i]);
    }
    OnlyOneChanged(CamposMonitorados, before, after, AuditoriaField, |CamposMonitorados|);
    var alts := Alteracoes(before, after);
    assert alts == [Alteracao("Auditoria", "auditoria", Render(before[AuditoriaField]), Render(after[AuditoriaField]))];
    assert Render(after[AuditoriaField]) == AppendLine(before[AuditoriaField], line).text;
    PostSaveSpec(it.ativo, "", false, Some(alts));
    assert ChangeRows(it.ativo, alts) == [ChangeRow(it.ativo, alts[0])];
  }

  /** The finalising loop over the items, stamping the verified ones in order. */
  function StampAll(t: Assets, itens: seq<Item>, titulo: string, quando: string, quem: string, usuario: nat,
                    choices: map<string, string>): (r: Assets)
    requires WellFormed(t) && Covers(t, itens)
    ensures WellFormed(r) && r.valores.Keys == t.valores.Keys
    decreases |itens|
  {
    if itens == [] then t
    else
      var t1 := if itens[0].verificado then StampAsset(t, itens[0], titulo, quando, quem, usuario, choices) else t;
      StampAll(t1, itens[1..], titulo, quando, quem, usuario, choices)
  }

  /** No verified item refers to asset `id`. */
  predicate NotAudited(itens: seq<Item>, id: nat) {
    forall j :: 0 <= j < |itens| && itens[j].verificado ==> itens[j].ativo != id
  }

  /** Assets of unverified items, and assets outside the audit, keep their values. */
  lemma {:induction false} StampAllUntouched(t: Assets, itens: seq<Item>, titulo: string, quando: string, quem: string,
                                             usuario: nat, choices: map<string, string>, id: nat)
    requires WellFormed(t) && Covers(t, itens) && id in t.valores && NotAudited(itens, id)
    ensures StampAll(t, itens, titulo, quando, quem, usuario, choices).valores[id] == t.valores[id]
    decreases |itens|
  {
    if itens != [] {
      var t1 := if itens[0].verificado then StampAsset(t, itens[0], titulo, quando, quem, usuario, choices) else t;
      if itens[0].verificado {
        StampAssetRows(t, itens[0], titulo, quando, quem, usuario, choices);
      }
      assert NotAudited(itens[1..], id) by {
        forall j | 0 <= j < |itens[1..]| && itens[1..][j].verificado
          ensures itens[1..][j].ativo != id
        {
          assert itens[1..][j] == itens[j + 1];
        }
      }
      StampAllUntouched(t1, itens[1..], titulo, quando, quem, usuario, choices, id);
    }
  }

  /** Each item refers to a different asset, as creation makes them. */
  predicate DistinctAssets(itens: seq<Item>) {
    forall i, j :: 0 <= i < j < |itens| ==> itens[i].ativo != itens[j].ativo
  }

  /**
   * When items refer to different assets, the asset of each verified item
   * ends with exactly its own line added to the text it had.
   */
  lemma {:induction false} StampAllStamps(t: Assets, itens: seq<Item>, titulo: string, quando: string, quem: string,
                                          usuario: nat, choices: map<string, string>, k: nat)
    requires WellFormed(t) && Covers(t, itens) && DistinctAssets(itens) && k < |itens| && itens[k].verificado
    ensures var id := itens[k].ativo;
            StampAll(t, itens, titulo, quando, quem, usuario, choices).valores[id][AuditoriaField]
            == AppendLine(t.valores[id][AuditoriaField], AuditLine(quando, quem, itens[k].estadoFisico, choices))
    decreases |itens|
  {
    var id := itens[k].ativo;
    var t1 := if itens[0].verificado then StampAsset(t, itens[0], titulo, quando, quem, usuario, choices) else t;
    var rest := itens[1..];
    if itens[0].verificado {
      StampAssetRows(t, itens[0], titulo, quando, quem, usuario, choices);
    }
    if k == 0 {
      assert NotAudited(rest, id) by {
        forall j | 0 <= j < |rest| && rest[j].verificado
          ensures rest[j].ativo != id
        {
          assert rest[j] == itens[j + 1];
        }
      }
      StampAllUntouched(t1, rest, titulo, quando, quem, usuario, choices, id);
    } else {
      assert rest[k - 1] == itens[k];
      assert DistinctAssets(rest) by {
        forall i, j | 0 <= i < j < |rest|
          ensures rest[i].ativo != rest[j].ativo
        {
          assert rest[i] == itens[i + 1] && rest[j] == itens[j + 1];
        }
      }
      StampAllStamps(t1, rest, titulo, quando, quem, usuario, choices, k - 1);
    }
  }

  /** The history row of a finalisation. */
  function FinalEvento(a: Audit, via: Via, usuario: nat): Evento {
    Evento("Finalização", "Auditoria finalizada" + ViaSuffix(via) + " com " + NatToString(a.ativosVerificados)
                          + "/" + NatToString(a.totalAtivos) + " ativos verificados", usuario)
  }

  /** The audit and assets after a finalisation that went ahead. */
  function Finalised(a: Audit, t: Assets, via: Via, usuario: nat, now: int, quando: string, quem: string,
                     nota: string, choices: map<string, string>): (Audit, Assets)
    requires WellFormed(t) && Covers(t, a.itens)
  {
    (a.(status := Finalizada(via), dataFinalizacao := Some(now), observacoes := FinalNote(a.observacoes, nota),
        historico := a.historico + [FinalEvento(a, via, usuario)]),
     StampAll(t, a.itens, a.titulo, quando, quem, usuario, choices))
  }

  /**
   * `AuditoriaFinalizarView.post` and the API's `finalizar` as written:
   * the API refuses an audit not in progress, the HTML view checks only
   * the client.
   */
  function FinalizarAsWritten(a: Audit, t: Assets, via: Via, cliente: nat, usuario: nat, now: int, quando: string,
                              quem: string, nota: string, choices: map<string, string>): Result<(Audit, Assets)>
    requires WellFormed(t) && Covers(t, a.itens)
  {
    if a.cliente != cliente then Err(NoAuditoria)
    else if via.Api? && a.status != EmAndamento(via) then Err(NaoEmAndamento)
    else Ok(Finalised(a, t, via, usuario, now, quando, quem, nota, choices))
  }

  /**
   * As written, the HTML view finalises a cancelled audit: it becomes
   * finalised and its verified assets are stamped.
   */
  lemma CancelledAuditFinalised(a: Audit, t: Assets, cliente: nat, usuario: nat, now: int, quando: string,
                                quem: string, nota: string, choices: map<string, string>)
    requires WellFormed(t) && Covers(t, a.itens) && a.cliente == cliente && a.status == Cancelada(Html)
    ensures var r := FinalizarAsWritten(a, t, Html, cliente, usuario, now, quando, quem, nota, choices);
            r.Ok? && r.value.0.status == Finalizada(Html) && r.value.0.status != a.status
  {
  }

  /** The evidently intended finalisation: both front ends refuse an audit not in progress. */
  function Finalizar(a: Audit, t: Assets, via: Via, cliente: nat, usuario: nat, now: int, quando: string,
                     quem: string, nota: string, choices: map<string, string>): Result<(Audit, Assets)>
    requires WellFormed(t) && Covers(t, a.itens)
  {
    if a.cliente != cliente then Err(NoAuditoria)
    else if a.status != EmAndamento(via) then Err(NaoEmAndamento)
    else Ok(Finalised(a, t, via, usuario, now, quando, quem, nota, choices))
  }

  /**
   * Corrected, finalising succeeds only for an audit in progress, so a
   * cancelled or finalised audit stays as it is; it differs from the
   * code as written only on the HTML side.
   */
  lemma FinalizarSpec(a: Audit, t: Assets, via: Via, cliente: nat, usuario: nat, now: int, quando: string,
                      quem: string, nota: string, choices: map<string, string>)
    requires WellFormed(t) && Covers(t, a.itens)
    ensures var r := Finalizar(a, t, via, cliente, usuario, now, quando, quem, nota, choices);
            (r.Ok? <==> a.cliente == cliente && a.status == EmAndamento(via))
            && (r.Ok? ==> r.value.0.status == Finalizada(via) && r.value.0.dataFinalizacao == Some(now)
                          && r.value.0.itens == a.itens && |r.value.0.historico| == |a.historico| + 1
                          && Finalizar(r.value.0, r.value.1, via, cliente, usuario, now, quando, quem, nota, choices).Err?)
            && (via.Api? ==> r == FinalizarAsWritten(a, t, via, cliente, usuario, now, quando, quem, nota, choices))
            && (a.status == EmAndamento(via) ==> r == FinalizarAsWritten(a, t, via, cliente, usuario, now, quando, quem, nota, choices))
  {
  }

  /**
   * A finalisation that goes ahead touches no asset outside the verified
   * items, and stamps each verified item's asset with its line.
   */
  lemma FinalizarStampsVerified(a: Audit, t: Assets, via: Via, cliente: nat, usuario: nat, now: int, quando: string,
                                quem: string, nota: string, choices: map<string, string>, id: nat)
    requires WellFormed(t) && Covers(t, a.itens) && DistinctAssets(a.itens) && id in t.valores
    requires Finalizar(a, t, via, cliente, usuario, now, quando, quem, nota, choices).Ok?
    ensures var t2 := Finalizar(a, t, via, cliente, usuario, now, quando, quem, nota, choices).value.1;
            (NotAudited(a.itens, id) ==> t2.valores[id] == t.valores[id])
            && (forall k :: 0 <= k < |a.itens| && a.itens[k].verificado && a.itens[k].ativo == id ==>
                  t2.valores[id][AuditoriaField]
                  == AppendLine(t.valores[id][AuditoriaField], AuditLine(quando, quem, a.itens[k].estadoFisico, choices)))
  {
    if NotAudited(a.itens, id) {
      StampAllUntouched(t, a.itens, a.titulo, quando, quem, usuario, choices, id);
    }
    forall k | 0 <= k < |a.itens| && a.itens[k].verificado && a.itens[k].ativo == id
      ensures StampAll(t, a.itens, a.titulo, quando, quem, usuario, choices).valores[id][AuditoriaField]
              == AppendLine(t.valores[id][AuditoriaField], AuditLine(quando, quem, a.itens[k].estadoFisico, choices))
    {
      StampAllStamps(t, a.itens, a.titulo, quando, quem, usuario, choices, k);
    }
  }

  // ---------------------------------------------------------------- statistics

  /** `timedelta.days`, `seconds // 3600` and `(seconds % 3600) // 60` of a whole number of seconds. */
  function Partes(delta: int): (p: (int, nat, nat))
    ensures 0 <= p.1 < 24 && 0 <= p.2 < 60
    ensures 0 <= delta - (p.0 * 86400 + p.1 * 3600 + p.2 * 60) < 60
  {
    var secs := delta % 86400;
    (delta / 86400, secs / 3600, (secs % 3600) / 60)
  }

  /** `tempo_decorrido` of the statistics. */
  function TempoDecorrido(delta: int): string {
    var p := Partes(delta);
    if p.0 > 0 then NatToString(p.0) + " dias, " + NatToString(p.1) + "h " + NatToString(p.2) + "min"
    else if p.1 > 0 then NatToString(p.1) + "h " + NatToString(p.2) + "min"
    else NatToString(p.2) + " minutos"
  }

  /** From one full day on, the text starts with the number of days. */
  lemma TempoDecorridoDays(delta: int)
    requires delta >= 86400
    ensures StartsWith(TempoDecorrido(delta), NatToString(delta / 86400) + " dias, ")
  {
    var p := Partes(delta);
    assert p.0 == delta / 86400 >= 1;
    var d := NatToString(p.0) + " dias, ";
    assert TempoDecorrido(delta) == d + (NatToString(p.1) + "h " + NatToString(p.2) + "min");
  }

  /** Under a day, whole hours and minutes are shown from one full hour on. */
  lemma TempoDecorridoHours(delta: int)
    requires 3600 <= delta < 86400
    ensures TempoDecorrido(delta) == NatToString(delta / 3600) + "h " + NatToString((delta % 3600) / 60) + "min"
  {
    var p := Partes(delta);
    assert delta / 86400 == 0 && delta % 86400 == delta;
    assert p.0 == 0 && p.1 == delta / 3600 >= 1;
  }

  /** Anything shorter than an hour is given in whole minutes. */
  lemma TempoDecorridoMinutes(delta: int)
    requires 0 <= delta < 3600
    ensures TempoDecorrido(delta) == NatToString(delta / 60) + " minutos"
  {
    var p := Partes(delta);
    assert delta / 86400 == 0 && delta % 86400 == delta;
    assert delta / 3600 == 0 && delta % 3600 == delta;
    assert p.0 == 0 && p.1 == 0 && p.2 == delta / 60;
  }

  // ---------------------------------------------------------------- the records in place

  /** The audit being worked on and the asset table it stamps. */
  class AuditDesk {
    var audit: Audit
    var assets: Assets

    predicate Valid()
      reads this
    {
      WellFormed(assets) && Covers(assets, audit.itens)
    }

    /** `AuditoriaCreateView.form_valid`: one item per selected asset, created in order. */
    constructor (a: Audit, t: Assets, ativos: seq<AtivoRow>, firstId: nat, usuario: nat)
      requires WellFormed(t)
      requires forall x :: x in ativos ==> x.id in t.valores
      ensures Valid() && audit == Criada(a, ativos, firstId, usuario) && assets == t
    {
      var sel := Selecionados(ativos, a.cliente, a.localizacao);
      SelecionadosSpec(ativos, a.cliente, a.localizacao);
      var itens: seq<Item> := [];
      var i := 0;
      while i < |sel|
        invariant 0 <= i <= |sel|
        invariant itens == NovosItens(sel, firstId)[..i]
      {
        itens := itens + [Item(firstId + i, sel[i].id, sel[i].etiqueta, false, None, None, "", "", "")];
        i := i + 1;
      }
      assert itens == NovosItens(sel, firstId);
      audit := a.(itens := itens, totalAtivos := |sel|,
                  historico := a.historico + [Evento("Criação", "Auditoria criada com " + NatToString(|sel|) + " ativos", usuario)]);
      assets := t;
      new;
      assert forall j :: 0 <= j < |itens| ==> itens[j].ativo == sel[j].id && sel[j] in ativos;
    }

    method Verify(via: Via, cliente: nat, itemId: nat, usuario: nat, now: int, estado: string, local: string, obs: string)
      returns (res: Result<()>)
      requires Valid()
      modifies this`audit
      ensures Valid()
      ensures var r := Verificar(old(audit), via, cliente, itemId, usuario, now, estado, local, obs);
              (res.Ok? <==> r.Ok?) && (res.Err? ==> res.error == r.error)
              && audit == (if r.Ok? then r.value else old(audit))
    {
      var r := Verificar(audit, via, cliente, itemId, usuario, now, estado, local, obs);
      if r.Err? {
        return Err(r.error);
      }
      assert forall j :: 0 <= j < |r.value.itens| ==> r.value.itens[j].ativo == audit.itens[j].ativo;
      audit := r.value;
      return Ok(());
    }

    method Unverify(via: Via, cliente: nat, itemId: nat, usuario: nat) returns (res: Result<()>)
      requires Valid()
      modifies this`audit
      ensures Valid()
      ensures var r := Desverificar(old(audit), via, cliente, itemId, usuario);
              (res.Ok? <==> r.Ok?) && (res.Err? ==> res.error == r.error)
              && audit == (if r.Ok? then r.value else old(audit))
    {
      var r := Desverificar(audit, via, cliente, itemId, usuario);
      if r.Err? {
        return Err(r.error);
      }
      assert forall j :: 0 <= j < |r.value.itens| ==> r.value.itens[j].ativo == audit.itens[j].ativo;
      audit := r.value;
      return Ok(());
    }

    method Cancel(via: Via, cliente: nat, usuario: nat) returns (res: Result<()>)
      requires Valid()
      modifies this`audit
      ensures Valid()
      ensures var r := Cancelar(old(audit), via, cliente, usuario);
              (res.Ok? <==> r.Ok?) && (res.Err? ==> res.error == r.error)
              && audit == (if r.Ok? then r.value else old(audit))
    {
      var r := Cancelar(audit, via, cliente, usuario);
      if r.Err? {
        return Err(r.error);
      }
      audit := r.value;
      return Ok(());
    }

    /** The loop over the items of a finalisation, stamping the verified ones. */
    method StampVerified(itens: seq<Item>, titulo: string, quando: string, quem: string, usuario: nat,
                         choices: map<string, string>)
      requires WellFormed(assets) && Covers(assets, itens)
      modifies this`assets
      ensures WellFormed(assets) && assets.valores.Keys == old(assets).valores.Keys
      ensures assets == StampAll(old(assets), itens, titulo, quando, quem, usuario, choices)
    {
      var i := 0;
      while i < |itens|
        invariant 0 <= i <= |itens|
        invariant WellFormed(assets) && assets.valores.Keys == old(assets).valores.Keys
        invariant Covers(assets, itens[i..])
        invariant StampAll(assets, itens[i..], titulo, quando, quem, usuario, choices)
               == StampAll(old(assets), itens, titulo, quando, quem, usuario, choices)
      {
        assert itens[i..][1..] == itens[i + 1..];
        if itens[i].verificado {
          assets := StampAsset(assets, itens[i], titulo, quando, quem, usuario, choices);
        }
        i := i + 1;
      }
      assert itens[i..] == [];
    }

    /** Finalising, with the status check both front ends evidently intend. */
    method Finalize(via: Via, cliente: nat, usuario: nat, now: int, quando: string, quem: string,
                    nota: string, choices: map<string, string>) returns (res: Result<()>)
      requires Valid()
      modifies this
      ensures Valid()
      ensures var r := Finalizar(old(audit), old(assets), via, cliente, usuario, now, quando, quem, nota, choices);
              (res.Ok? <==> r.Ok?) && (res.Err? ==> res.error == r.error)
              && (audit, assets) == (if r.Ok? then r.value else (old(audit), old(assets)))
    {
      if audit.cliente != cliente {
        return Err(NoAuditoria);
      }
      if audit.status != EmAndamento(via) {
        return Err(NaoEmAndamento);
      }
      var a := audit;
      audit := a.(status := Finalizada(via), dataFinalizacao := Some(now), observacoes := FinalNote(a.observacoes, nota));
      StampVerified(a.itens, a.titulo, quando, quem, usuario, choices);
      audit := audit.(historico := a.historico + [FinalEvento(a, via, usuario)]);
      assert (audit, assets) == Finalised(a, old(assets), via, usuario, now, quando, quem, nota, choices);
      return Ok(());
    }
  }
}
