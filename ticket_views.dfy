/**
 * The help-desk views that change data or decide access: the per-tenant
 * object check, macro application, the field-by-field edit history, the
 * `ativo` toggle of the configuration tables, the urgencies offered for a
 * category, and the guard that keeps closed tickets from being deleted.
 */
module TicketViews {
  import opened Wrappers
  import opened Text
  import opened TicketModels
  import opened TicketForms

  /** A logged-in user; a tenant (cliente) is a user, so ids are user ids. */
  datatype User = User(id: nat, username: string, isStaff: bool, isSuperuser: bool)

  // ---------------------------------------------------------------- access

  /** `user if user.is_staff else user`: both branches name the user. */
  function ClienteOf(u: User): nat {
    if u.isStaff then u.id else u.id
  }

  /**
   * `ClienteObjectMixin.get_object`: a superuser sees everything; anyone
   * else is refused an object that has a cliente other than themselves.
   */
  function GetObject(u: User, objCliente: Option<nat>): (r: Result<()>)
    ensures r.Err? <==> !u.isSuperuser && objCliente.Some? && objCliente.value != u.id
  {
    if u.isSuperuser then Ok(())
    else if objCliente.Some? && objCliente.value != ClienteOf(u) then Err("PermissionDenied")
    else Ok(())
  }

  /** Staff and non-staff users get the same answer. */
  lemma StaffFlagIrrelevant(u: User, objCliente: Option<nat>)
    ensures GetObject(u.(isStaff := !u.isStaff), objCliente) == GetObject(u, objCliente)
  {
  }

  // ---------------------------------------------------------------- macros

  /** The keys of a macro's `acoes` JSON that the view understands. */
  datatype MacroAcoes = MacroAcoes(status: Option<nat>, responsavel: Option<nat>, adicionarAcao: Option<string>)

  datatype Macro = Macro(nome: string, acoes: MacroAcoes)

  datatype AcaoRow = AcaoRow(ticket: nat, tipo: TipoAcao, autor: nat, conteudo: string)

  datatype HistoricoRow = HistoricoRow(ticket: nat, usuario: nat, campo: string, valorAnterior: string, valorNovo: string)

  /** Every id the macro names exists (`objects.get` raises otherwise). */
  predicate MacroResolves(m: Macro, statuses: map<nat, Status>, users: map<nat, User>) {
    (m.acoes.status.Some? ==> m.acoes.status.value in statuses)
    && (m.acoes.responsavel.Some? ==> m.acoes.responsavel.value in users)
  }

  /** `campos_alterados`: one description per applied key, status first. */
  function MacroDescriptions(m: Macro, statuses: map<nat, Status>, users: map<nat, User>): seq<string>
    requires MacroResolves(m, statuses, users)
  {
    (if m.acoes.status.Some? then ["Status alterado para " + StatusLabel(statuses[m.acoes.status.value])] else [])
    + (if m.acoes.responsavel.Some? then ["Responsável alterado para " + users[m.acoes.responsavel.value].username] else [])
  }

  /** The internal action a macro with `adicionar_acao` creates. */
  function MacroAcao(ticketId: nat, m: Macro, usuario: User): seq<AcaoRow> {
    if m.acoes.adicionarAcao.Some? then
      [AcaoRow(ticketId, Interna, usuario.id, "[MACRO: " + m.nome + "] " + m.acoes.adicionarAcao.value)]
    else []
  }

  /** The history entry of a macro: only when some field was changed. */
  function MacroHistory(ticketId: nat, m: Macro, usuario: User, descs: seq<string>): seq<HistoricoRow> {
    if descs == [] then []
    else [HistoricoRow(ticketId, usuario.id, "macro_aplicada", "", "Macro '" + m.nome + "' aplicada: " + Join(descs, ", "))]
  }

  /** A macro that only adds an action changes no field and leaves no history entry. */
  lemma MacroOnlyActionNoHistory(ticketId: nat, m: Macro, usuario: User, statuses: map<nat, Status>, users: map<nat, User>)
    requires m.acoes.status.None? && m.acoes.responsavel.None?
    ensures MacroHistory(ticketId, m, usuario, MacroDescriptions(m, statuses, users)) == []
  {
  }

  /** With both keys, the entry lists the status change, then the responsible change. */
  lemma MacroHistoryOrder(ticketId: nat, m: Macro, usuario: User, statuses: map<nat, Status>, users: map<nat, User>)
    requires MacroResolves(m, statuses, users)
    requires m.acoes.status.Some? && m.acoes.responsavel.Some?
    ensures MacroHistory(ticketId, m, usuario, MacroDescriptions(m, statuses, users))
         == [HistoricoRow(ticketId, usuario.id, "macro_aplicada", "",
                          "Macro '" + m.nome + "' aplicada: "
                          + (("Status alterado para " + StatusLabel(statuses[m.acoes.status.value])) + ", "
                             + ("Responsável alterado para " + users[m.acoes.responsavel.value].username)))]
  {
    var descs := MacroDescriptions(m, statuses, users);
    assert descs[1..] == [descs[1]];
    assert Join(descs, ", ") == descs[0] + ", " + descs[1];
  }

  /** The macro's action is internal, by the user applying it, and tagged with the macro's name. */
  lemma MacroAcaoTagged(ticketId: nat, m: Macro, usuario: User)
    requires m.acoes.adicionarAcao.Some?
    ensures var a := MacroAcao(ticketId, m, usuario);
            |a| == 1 && a[0].tipo == Interna && a[0].autor == usuario.id
            && StartsWith(a[0].conteudo, "[MACRO: " + m.nome + "] ")
  {
    var a := MacroAcao(ticketId, m, usuario);
    assert a[0].conteudo[..|"[MACRO: " + m.nome + "] "|] == "[MACRO: " + m.nome + "] ";
  }

  // ---------------------------------------------------------------- edit history

  /** A tracked field's value; `Ref` and `Instant` carry the text `str()` gives them. */
  datatype TrackedValue = Null | Ref(id: nat, shown: string) | Plain(text: string) | Instant(at: int, shown: string)

  predicate Falsy(v: TrackedValue) { v.Null? || (v.Plain? && v.text == []) }

  /** `str(v) if v else ''`. */
  function Render(v: TrackedValue): (r: string)
    ensures Falsy(v) ==> r == ""
  {
    match v
    case Null => ""
    case Ref(_, s) => s
    case Plain(t) => t
    case Instant(_, s) => s
  }

  const TrackedFields: seq<string> :=
    ["status", "categoria", "urgencia", "servico", "justificativa", "responsavel", "assunto", "previsao_solucao"]

  /** The history rows for the first `n` of `fields`, in list order. */
  function DiffUpTo(ticketId: nat, usuario: nat, fields: seq<string>, before: seq<TrackedValue>, after: seq<TrackedValue>, n: nat): (rows: seq<HistoricoRow>)
    requires n <= |fields| == |before| == |after|
    ensures |rows| <= n
  {
    if n == 0 then []
    else
      DiffUpTo(ticketId, usuario, fields, before, after, n - 1)
      + (if before[n - 1] != after[n - 1]
         then [HistoricoRow(ticketId, usuario, fields[n - 1], Render(before[n - 1]), Render(after[n - 1]))]
         else [])
  }

  /** The rows `TicketUpdateView.form_valid` writes for an edit. */
  function FieldDiff(ticketId: nat, usuario: nat, before: seq<TrackedValue>, after: seq<TrackedValue>): seq<HistoricoRow>
    requires |TrackedFields| == |before| == |after|
  {
    DiffUpTo(ticketId, usuario, TrackedFields, before, after, |TrackedFields|)
  }

  /** The fields named by history rows. */
  function Campos(rows: seq<HistoricoRow>): (r: seq<string>)
    ensures |r| == |rows| && forall i :: 0 <= i < |rows| ==> r[i] == rows[i].campo
  {
    if rows == [] then [] else [rows[0].campo] + Campos(rows[1..])
  }

  lemma CamposAppend(a: seq<HistoricoRow>, b: seq<HistoricoRow>)
    ensures Campos(a + b) == Campos(a) + Campos(b)
  {
    assert Campos(a + b) == Campos(a) + Campos(b);
  }

  /** Tracked field names are distinct. */
  lemma TrackedFieldsDistinct()
    ensures Distinct(TrackedFields)
  {
  }

  /**
   * Among the first `n` of distinct `fields`, field `i` has a history row
   * exactly when its value changed.
   */
  lemma {:induction false} DiffUpToField(ticketId: nat, usuario: nat, fields: seq<string>,
                                         before: seq<TrackedValue>, after: seq<TrackedValue>, n: nat, i: nat)
    requires n <= |fields| == |before| == |after| && i < |fields| && Distinct(fields)
    ensures fields[i] in Campos(DiffUpTo(ticketId, usuario, fields, before, after, n)) <==> i < n && before[i] != after[i]
  {
    if n > 0 {
      DiffUpToField(ticketId, usuario, fields, before, after, n - 1, i);
      var prev := DiffUpTo(ticketId, usuario, fields, before, after, n - 1);
      var last := if before[n - 1] != after[n - 1]
                  then [HistoricoRow(ticketId, usuario, fields[n - 1], Render(before[n - 1]), Render(after[n - 1]))]
                  else [];
      CamposAppend(prev, last);
    }
  }

  /** One row per changed tracked field and none for an unchanged one. */
  lemma FieldDiffChangedOnly(ticketId: nat, usuario: nat, before: seq<TrackedValue>, after: seq<TrackedValue>)
    requires |TrackedFields| == |before| == |after|
    ensures forall i :: 0 <= i < |TrackedFields| ==>
              (TrackedFields[i] in Campos(FieldDiff(ticketId, usuario, before, after)) <==> before[i] != after[i])
  {
    TrackedFieldsDistinct();
    forall i | 0 <= i < |TrackedFields|
      ensures TrackedFields[i] in Campos(FieldDiff(ticketId, usuario, before, after)) <==> before[i] != after[i]
    {
      DiffUpToField(ticketId, usuario, TrackedFields, before, after, |TrackedFields|, i);
    }
  }

  /** An edit that changes no tracked field writes no history. */
  lemma {:induction false} UnchangedEditNoHistory(ticketId: nat, usuario: nat, fields: seq<string>, before: seq<TrackedValue>, n: nat)
    requires n <= |fields| == |before|
    ensures DiffUpTo(ticketId, usuario, fields, before, before, n) == []
  {
    if n > 0 {
      UnchangedEditNoHistory(ticketId, usuario, fields, before, n - 1);
    }
  }

  // ---------------------------------------------------------------- delete

  /**
   * `TicketDeleteView.delete`: the object check first, then the refusal of
   * a closed ticket, then the deletion.
   */
  function DeleteTicket(tickets: map<nat, TicketState>, u: User, pk: nat): (r: Result<map<nat, TicketState>>)
    ensures r.Ok? <==> pk in tickets && GetObject(u, Some(tickets[pk].cliente)).Ok? && tickets[pk].status.base != Fechado
    ensures r.Ok? ==> r.value == tickets - {pk}
  {
    if pk !in tickets then Err("Http404")
    else if GetObject(u, Some(tickets[pk].cliente)).Err? then Err("PermissionDenied")
    else if tickets[pk].status.base == Fechado then Err("Não é possível excluir tickets fechados")
    else Ok(tickets - {pk})
  }

  /** A closed ticket survives any delete request, whoever sends it. */
  lemma ClosedTicketNeverDeleted(tickets: map<nat, TicketState>, u: User, pk: nat, other: nat)
    requires pk in tickets && tickets[pk].status.base == Fechado
    ensures DeleteTicket(tickets, u, pk).Err?
    ensures DeleteTicket(tickets, u, other).Ok? ==> pk in DeleteTicket(tickets, u, other).value
  {
  }

  // ---------------------------------------------------------------- urgencies

  /** An urgency is offered for a category when active and allowed, or of the category's cliente when nothing is listed. */
  predicate Offered(c: Categoria, u: Urgencia) {
    u.ativo && (if c.urgenciasPermitidas != {} then u.id in c.urgenciasPermitidas else u.cliente == c.cliente)
  }

  /** The offered urgencies, in table order. */
  function OfferedUrgencias(c: Categoria, us: seq<Urgencia>): (r: seq<Urgencia>)
    ensures forall u :: u in r <==> u in us && Offered(c, u)
  {
    if us == [] then []
    else (if Offered(c, us[0]) then [us[0]] else []) + OfferedUrgencias(c, us[1..])
  }

  /** `urgencias_por_categoria`: 404 for an unknown category, else the offered urgencies. */
  function UrgenciasPorCategoria(categorias: map<nat, Categoria>, us: seq<Urgencia>, categoriaId: nat): (r: Result<seq<Urgencia>>)
    ensures r.Err? <==> categoriaId !in categorias
    ensures r.Ok? ==>
              var c := categorias[categoriaId];
              forall u :: u in r.value <==>
                u in us && u.ativo
                && (c.urgenciasPermitidas != {} ==> u.id in c.urgenciasPermitidas)
                && (c.urgenciasPermitidas == {} ==> u.cliente == c.cliente)
  {
    if categoriaId !in categorias then Err("Categoria não encontrada")
    else Ok(OfferedUrgencias(categorias[categoriaId], us))
  }

  // ---------------------------------------------------------------- toggle_ativo

  /** The names `toggle_ativo` accepts, each a configuration model with a cliente. */
  const ToggleModels: set<string> :=
    {"categoria", "urgencia", "status", "justificativa", "servico", "campo", "gatilho", "macro"}

  datatype ConfigRow = ConfigRow(cliente: nat, ativo: bool)

  datatype ToggleOutcome = ToggleOutcome(code: int, rows: map<(string, nat), ConfigRow>)

  /** `toggle_ativo`: the HTTP status it answers with and the table after the request. */
  function Toggle(rows: map<(string, nat), ConfigRow>, u: User, model: string, pk: nat): (r: ToggleOutcome)
  {
    if model !in ToggleModels then ToggleOutcome(400, rows)
    else if (model, pk) !in rows then ToggleOutcome(404, rows)
    else if GetObject(u, Some(rows[(model, pk)].cliente)).Err? then ToggleOutcome(403, rows)
    else ToggleOutcome(200, rows[(model, pk) := rows[(model, pk)].(ativo := !rows[(model, pk)].ativo)])
  }

  /**
   * The answer codes: 400 for an unknown model, 404 for a missing row, 403
   * for another tenant's row; only a 200 changes the table, and then only
   * the `ativo` flag of the one row.
   */
  lemma ToggleCodes(rows: map<(string, nat), ConfigRow>, u: User, model: string, pk: nat)
    ensures var r := Toggle(rows, u, model, pk);
            (r.code == 400 <==> model !in ToggleModels)
            && (r.code == 404 <==> model in ToggleModels && (model, pk) !in rows)
            && (r.code == 403 <==> model in ToggleModels && (model, pk) in rows
                                   && !u.isSuperuser && rows[(model, pk)].cliente != u.id)
            && (r.code != 200 ==> r.rows == rows)
            && (r.code == 200 ==> r.rows.Keys == rows.Keys && r.rows[(model, pk)].ativo == !rows[(model, pk)].ativo
                                  && forall k :: k in rows && k != (model, pk) ==> r.rows[k] == rows[k])
  {
  }

  /** Toggling twice restores the table. */
  lemma ToggleTwice(rows: map<(string, nat), ConfigRow>, u: User, model: string, pk: nat)
    ensures Toggle(Toggle(Toggle(rows, u, model, pk).rows, u, model, pk).rows, u, model, pk).code == Toggle(rows, u, model, pk).code
    ensures Toggle(Toggle(rows, u, model, pk).rows, u, model, pk).rows == rows
  {
    var r := Toggle(rows, u, model, pk);
    if r.code == 200 {
      var k := (model, pk);
      assert r.rows[k := r.rows[k].(ativo := !r.rows[k].ativo)] == rows;
    }
  }

  /** The configuration tables `toggle_ativo` writes to. */
  class ConfigTables {
    var rows: map<(string, nat), ConfigRow>

    constructor (rows: map<(string, nat), ConfigRow>)
      ensures this.rows == rows
    {
      this.rows := rows;
    }

    method ToggleAtivo(u: User, model: string, pk: nat) returns (code: int, ativo: Option<bool>)
      modifies this`rows
      ensures var r := Toggle(old(rows), u, model, pk);
              code == r.code && rows == r.rows
              && (code == 200 ==> ativo == Some(rows[(model, pk)].ativo))
              && (code != 200 ==> ativo.None?)
    {
      if model !in ToggleModels {
        return 400, None;
      }
      if (model, pk) !in rows {
        return 404, None;
      }
      var obj := rows[(model, pk)];
      if !u.isSuperuser && obj.cliente != ClienteOf(u) {
        return 403, None;
      }
      obj := obj.(ativo := !obj.ativo);
      rows := rows[(model, pk) := obj];
      return 200, Some(obj.ativo);
    }
  }

  // ---------------------------------------------------------------- the edited ticket

  /** The ticket in memory once the macro's status key is applied (a missing status is not applied). */
  function MacroTicket(t: TicketState, m: Macro, statuses: map<nat, Status>): (r: TicketState)
    ensures r == t.(status := r.status)
    ensures r.status == (if m.acoes.status.Some? && m.acoes.status.value in statuses
                         then statuses[m.acoes.status.value] else t.status)
  {
    if m.acoes.status.Some? && m.acoes.status.value in statuses then t.(status := statuses[m.acoes.status.value]) else t
  }

  /**
   * A macro that moves a numbered, stored ticket into RESOLVIDO, FECHADO or
   * CANCELADO from another base has `ticket.save()` stamp that closure
   * with the time of the save, and one that moves it into PARADO starts a
   * pause.
   */
  lemma MacroSaveStamps(t: TicketState, m: Macro, statuses: map<nat, Status>, now: int, year: nat,
                        numeros: seq<string>, original: StatusBase, contratos: seq<Contrato>, newPk: nat)
    requires t.pk.Some? && t.numero != []
    ensures var r := SaveTicket(MacroTicket(t, m, statuses), now, year, numeros, Some(original), contratos, newPk);
            var b := MacroTicket(t, m, statuses).status.base;
            r.Ok?
            && (b == Resolvido && original != Resolvido ==> r.value.resolvidoEm == Some(now))
            && (b == Fechado && original != Fechado ==> r.value.fechadoEm == Some(now))
            && (b == Cancelado && original != Cancelado ==> r.value.canceladoEm == Some(now))
            && (b == Parado && original != Parado ==> r.value.pausadoEm == Some(now))
            && r.value.status == MacroTicket(t, m, statuses).status
  {
    var t1 := MacroTicket(t, m, statuses);
    assert Numbered(t1, year, numeros) == Ok(t1);
    TransitionTimestamps(t1, original, now);
    PauseAccounting(t1, original, now);
    var moved := Transitioned(t1, original, now);
    assert Stored(moved, now, newPk) == moved;
  }

  /**
   * One ticket as the views handle it: the in-memory object and its
   * responsible user, the stored row, and the action and history tables
   * the views append to.
   */
  class TicketDesk {
    const ticketId: nat
    var ticket: TicketState
    var responsavel: Option<User>
    var stored: TicketState
    var storedResponsavel: Option<User>
    var acoes: seq<AcaoRow>
    var historico: seq<HistoricoRow>

    constructor (ticketId: nat, ticket: TicketState, responsavel: Option<User>)
      ensures this.ticketId == ticketId && this.ticket == ticket && this.responsavel == responsavel
      ensures stored == ticket && storedResponsavel == responsavel && acoes == [] && historico == []
    {
      this.ticketId := ticketId;
      this.ticket := ticket;
      this.responsavel := responsavel;
      stored := ticket;
      storedResponsavel := responsavel;
      acoes := [];
      historico := [];
    }

    /**
     * `aplicar_macro_ao_ticket`: True with the fields set, the action
     * written, the ticket saved through `Ticket.save` and the history
     * entry written. Any exception makes it False: a named status or user
     * that does not exist (nothing written), or a raising save (the action
     * already written stays). Fields assigned before the exception stay
     * assigned on the in-memory object. `now`, `year`, `numeros`,
     * `contratos` and `newPk` are what the save reads from the clock and
     * the database.
     */
    method AplicarMacro(m: Macro, usuario: User, statuses: map<nat, Status>, users: map<nat, User>,
                        now: int, year: nat, numeros: seq<string>, contratos: seq<Contrato>, newPk: nat)
      returns (ok: bool)
      modifies this`ticket, this`responsavel, this`stored, this`storedResponsavel, this`acoes, this`historico
      ensures var t1 := MacroTicket(old(ticket), m, statuses);
              var saved := SaveTicket(t1, now, year, numeros, Some(old(stored).status.base), contratos, newPk);
              (ok <==> MacroResolves(m, statuses, users) && saved.Ok?)
              && (!MacroResolves(m, statuses, users) ==>
                    ticket == t1 && responsavel == old(responsavel) && stored == old(stored)
                    && storedResponsavel == old(storedResponsavel) && acoes == old(acoes) && historico == old(historico))
              && (MacroResolves(m, statuses, users) ==>
                    responsavel == (if m.acoes.responsavel.Some? then Some(users[m.acoes.responsavel.value]) else old(responsavel))
                    && acoes == old(acoes) + MacroAcao(ticketId, m, usuario)
                    && (saved.Ok? ==>
                          ticket == saved.value && stored == saved.value && storedResponsavel == responsavel
                          && historico == old(historico) + MacroHistory(ticketId, m, usuario, MacroDescriptions(m, statuses, users)))
                    && (saved.Err? ==>
                          ticket == t1 && stored == old(stored) && storedResponsavel == old(storedResponsavel)
                          && historico == old(historico)))
    {
      var resolved, campos := ApplyKeys(m, usuario, statuses, users);
      if !resolved {
        return false;
      }
      var saved := SaveTicket(ticket, now, year, numeros, Some(stored.status.base), contratos, newPk);
      if saved.Err? {
        return false;
      }
      Commit(saved.value, m, usuario, campos);
      return true;
    }

    /** `ticket.save()` succeeded: the saved row and the history entry, if any field changed. */
    method Commit(saved: TicketState, m: Macro, usuario: User, campos: seq<string>)
      modifies this`ticket, this`stored, this`storedResponsavel, this`historico
      ensures ticket == saved && stored == saved && storedResponsavel == responsavel
      ensures historico == old(historico) + MacroHistory(ticketId, m, usuario, campos)
    {
      ticket := saved;
      stored := ticket;
      storedResponsavel := responsavel;
      if campos != [] {
        historico := historico + [HistoricoRow(ticketId, usuario.id, "macro_aplicada", "",
                                               "Macro '" + m.nome + "' aplicada: " + Join(campos, ", "))];
      }
    }

    /**
     * The part of `aplicar_macro_ao_ticket` before `ticket.save()`: the
     * status and responsible keys set the in-memory fields and the
     * action key writes the action, until a missing status or user
     * raises.
     */
    method ApplyKeys(m: Macro, usuario: User, statuses: map<nat, Status>, users: map<nat, User>)
      returns (resolved: bool, campos: seq<string>)
      modifies this`ticket, this`responsavel, this`acoes
      ensures ticket == MacroTicket(old(ticket), m, statuses)
      ensures resolved <==> MacroResolves(m, statuses, users)
      ensures !resolved ==> responsavel == old(responsavel) && acoes == old(acoes)
      ensures resolved ==>
                responsavel == (if m.acoes.responsavel.Some? then Some(users[m.acoes.responsavel.value]) else old(responsavel))
                && acoes == old(acoes) + MacroAcao(ticketId, m, usuario)
                && campos == MacroDescriptions(m, statuses, users)
    {
      campos := [];
      if m.acoes.status.Some? {
        if m.acoes.status.value !in statuses {
          return false, campos;
        }
        var st := statuses[m.acoes.status.value];
        ticket := ticket.(status := st);
        campos := campos + ["Status alterado para " + StatusLabel(st)];
      }
      if m.acoes.responsavel.Some? {
        if m.acoes.responsavel.value !in users {
          return false, campos;
        }
        var r := users[m.acoes.responsavel.value];
        responsavel := Some(r);
        campos := campos + ["Responsável alterado para " + r.username];
      }
      if m.acoes.adicionarAcao.Some? {
        acoes := acoes + [AcaoRow(ticketId, Interna, usuario.id, "[MACRO: " + m.nome + "] " + m.acoes.adicionarAcao.value)];
      }
      return true, campos;
    }

    /** The history loop of `TicketUpdateView.form_valid`. */
    method RecordEdits(usuario: nat, before: seq<TrackedValue>, after: seq<TrackedValue>)
      requires |TrackedFields| == |before| == |after|
      modifies this`historico
      ensures historico == old(historico) + FieldDiff(ticketId, usuario, before, after)
    {
      var i := 0;
      while i < |TrackedFields|
        invariant 0 <= i <= |TrackedFields|
        invariant historico == old(historico) + DiffUpTo(ticketId, usuario, TrackedFields, before, after, i)
      {
        if before[i] != after[i] {
          historico := historico + [HistoricoRow(ticketId, usuario, TrackedFields[i], Render(before[i]), Render(after[i]))];
        }
        i := i + 1;
      }
    }
  }
}
