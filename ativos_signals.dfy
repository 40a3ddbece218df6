/**
 * The asset change log: a history row when an asset is created, one per
 * monitored field whose value an update changed, and one when a user is
 * assigned to an asset.  The change list is computed before the save
 * (`registrar_alteracoes`), kept on the instance as `_alteracoes`, and
 * written after it (`salvar_historico_alteracoes`).
 */
module AtivosSignals {
  import opened Wrappers
  import opened Text

  // ---------------------------------------------------------------- field values

  /**
   * A monitored field's value as Python holds it: None, a string, a
   * related row (compared by primary key), a Decimal cost or a date
   * (compared by value); `shown` is the text `str()` gives.
   */
  datatype AtivoValue =
    | Null
    | Text(text: string)
    | Ref(pk: nat, shown: string)
    | Amount(cents: int, shown: string)
    | Day(ordinal: int, shown: string)

  /** Python `==` on two values of the same field. */
  predicate PyEq(a: AtivoValue, b: AtivoValue) {
    match a
    case Null => b.Null?
    case Text(x) => b.Text? && b.text == x
    case Ref(p, _) => b.Ref? && b.pk == p
    case Amount(c, _) => b.Amount? && b.cents == c
    case Day(d, _) => b.Day? && b.ordinal == d
  }

  /** Python truthiness: None, the empty string and a zero Decimal are false. */
  predicate Falsy(v: AtivoValue) {
    v.Null? || (v.Text? && v.text == []) || (v.Amount? && v.cents == 0)
  }

  /** `str(v) if v else '-'`. */
  function Render(v: AtivoValue): (r: string)
    ensures Falsy(v) ==> r == "-"
    ensures !Falsy(v) && v.Text? ==> r == v.text
  {
    if Falsy(v) then "-"
    else match v
      case Null => "-"
      case Text(t) => t
      case Ref(_, s) => s
      case Amount(_, s) => s
      case Day(_, s) => s
  }

  /** A zero cost is falsy in Python, so it is logged as '-' whatever its text. */
  lemma ZeroCostRendersDash(shown: string)
    ensures Render(Amount(0, shown)) == "-"
  {
  }

  /** `==` is an equivalence, and ignores the text of related rows. */
  lemma PyEqEquivalence(a: AtivoValue, b: AtivoValue, c: AtivoValue)
    ensures PyEq(a, a)
    ensures PyEq(a, b) ==> PyEq(b, a)
    ensures PyEq(a, b) && PyEq(b, c) ==> PyEq(a, c)
    ensures a.Ref? && b.Ref? && a.pk == b.pk ==> PyEq(a, b)
  {
  }

  // ---------------------------------------------------------------- the change list

  /** `campos_monitorados`: database name and label, in dictionary order. */
  const CamposMonitorados: seq<(string, string)> := [
    ("nome", "Nome"), ("etiqueta", "Etiqueta"), ("numero_serie", "Número de Série"),
    ("codigo_referencia", "Código Referência"), ("categoria", "Categoria"),
    ("fornecedor", "Fornecedor"), ("localizacao", "Localização"), ("marca", "Marca"),
    ("computador", "Computador"), ("status", "Status"), ("fabricante", "Fabricante"),
    ("modelo", "Modelo"), ("data_compra", "Data de Compra"), ("garantia_ate", "Garantia Até"),
    ("custo", "Custo"), ("descricao", "Descrição"), ("auditoria", "Auditoria")]

  /** The database names of the monitored fields. */
  function CampoDbs(campos: seq<(string, string)>): (r: seq<string>)
    ensures |r| == |campos| && forall i :: 0 <= i < |campos| ==> r[i] == campos[i].0
  {
    seq(|campos|, i requires 0 <= i < |campos| => campos[i].0)
  }

  lemma MonitoredFieldsDistinct()
    ensures |CamposMonitorados| == 17 && Distinct(CampoDbs(CamposMonitorados))
  {
  }

  /** One entry of `_alteracoes`. */
  datatype Alteracao = Alteracao(campo: string, campoDb: string, anterior: string, novo: string)

  /** The changes among the first `n` fields, in field order. */
  function AlteracoesUpTo(campos: seq<(string, string)>, before: seq<AtivoValue>, after: seq<AtivoValue>, n: nat): (r: seq<Alteracao>)
    requires n <= |campos| == |before| == |after|
    ensures |r| <= n
  {
    if n == 0 then []
    else
      AlteracoesUpTo(campos, before, after, n - 1)
      + (if !PyEq(before[n - 1], after[n - 1])
         then [Alteracao(campos[n - 1].1, campos[n - 1].0, Render(before[n - 1]), Render(after[n - 1]))]
         else [])
  }

  /** The database names the changes record. */
  function ChangedDbs(r: seq<Alteracao>): (d: seq<string>)
    ensures |d| == |r| && forall i :: 0 <= i < |r| ==> d[i] == r[i].campoDb
  {
    seq(|r|, i requires 0 <= i < |r| => r[i].campoDb)
  }

  /**
   * Among distinct fields, field `i` is recorded among the first `n`
   * exactly when its old and new values differ.
   */
  lemma {:induction false} AlteracoesField(campos: seq<(string, string)>, before: seq<AtivoValue>, after: seq<AtivoValue>, n: nat, i: nat)
    requires n <= |campos| == |before| == |after| && i < |campos| && Distinct(CampoDbs(campos))
    ensures campos[i].0 in ChangedDbs(AlteracoesUpTo(campos, before, after, n)) <==> i < n && !PyEq(before[i], after[i])
  {
    if n > 0 {
      AlteracoesField(campos, before, after, n - 1, i);
      var prev := AlteracoesUpTo(campos, before, after, n - 1);
      var last := if !PyEq(before[n - 1], after[n - 1])
                  then [Alteracao(campos[n - 1].1, campos[n - 1].0, Render(before[n - 1]), Render(after[n - 1]))]
                  else [];
      assert AlteracoesUpTo(campos, before, after, n) == prev + last;
      assert ChangedDbs(prev + last) == ChangedDbs(prev) + ChangedDbs(last);
      assert ChangedDbs(last) == if last == [] then [] else [campos[n - 1].0];
      if i != n - 1 {
        assert CampoDbs(campos)[i] != CampoDbs(campos)[n - 1];
        assert campos[i].0 != campos[n - 1].0;
      }
    }
  }

  /**
   * Every recorded change names a monitored field and carries its
   * rendered old and new values, so an unmonitored field is never logged.
   */
  lemma {:induction false} AlteracoesMonitored(campos: seq<(string, string)>, before: seq<AtivoValue>, after: seq<AtivoValue>, n: nat)
    requires n <= |campos| == |before| == |after|
    ensures forall k :: 0 <= k < |AlteracoesUpTo(campos, before, after, n)| ==>
              AlteracoesUpTo(campos, before, after, n)[k] in Recorded(campos, before, after)
  {
    if n > 0 {
      AlteracoesMonitored(campos, before, after, n - 1);
      if !PyEq(before[n - 1], after[n - 1]) {
        assert Alteracao(campos[n - 1].1, campos[n - 1].0, Render(before[n - 1]), Render(after[n - 1]))
            == Recorded(campos, before, after)[n - 1];
      }
    }
  }

  /** The entry each field would record. */
  function Recorded(campos: seq<(string, string)>, before: seq<AtivoValue>, after: seq<AtivoValue>): (r: seq<Alteracao>)
    requires |campos| == |before| == |after|
    ensures |r| == |campos|
  {
    seq(|campos|, i requires 0 <= i < |campos| => Alteracao(campos[i].1, campos[i].0, Render(before[i]), Render(after[i])))
  }

  /** Saving an asset whose monitored values all compare equal records nothing. */
  lemma {:induction false} UnchangedRecordsNothing(campos: seq<(string, string)>, before: seq<AtivoValue>, after: seq<AtivoValue>, n: nat)
    requires n <= |campos| == |before| == |after|
    requires forall i :: 0 <= i < |before| ==> PyEq(before[i], after[i])
    ensures AlteracoesUpTo(campos, before, after, n) == []
  {
    if n > 0 {
      UnchangedRecordsNothing(campos, before, after, n - 1);
    }
  }

  /** When field `j` alone changed, the list holds exactly its entry. */
  lemma {:induction false} OnlyOneChanged(campos: seq<(string, string)>, before: seq<AtivoValue>, after: seq<AtivoValue>, j: nat, n: nat)
    requires n <= |campos| == |before| == |after| && j < |campos|
    requires forall i :: 0 <= i < |campos| && i != j ==> PyEq(before[i], after[i])
    requires !PyEq(before[j], after[j])
    ensures AlteracoesUpTo(campos, before, after, n)
         == if n <= j then [] else [Alteracao(campos[j].1, campos[j].0, Render(before[j]), Render(after[j]))]
  {
    if n > 0 {
      OnlyOneChanged(campos, before, after, j, n - 1);
    }
  }

  /** `registrar_alteracoes`'s list for an update of the stored values `before`. */
  function Alteracoes(before: seq<AtivoValue>, after: seq<AtivoValue>): seq<Alteracao>
    requires |before| == |after| == |CamposMonitorados|
  {
    AlteracoesUpTo(CamposMonitorados, before, after, |CamposMonitorados|)
  }

  /**
   * `registrar_alteracoes`: the `_alteracoes` attribute after the pre-save
   * handler.  A new asset, or one whose stored row is gone, keeps what it had.
   */
  function Registrar(pk: Option<nat>, stored: Option<seq<AtivoValue>>, valores: seq<AtivoValue>, prev: Option<seq<Alteracao>>): Option<seq<Alteracao>>
    requires |valores| == |CamposMonitorados|
    requires stored.Some? ==> |stored.value| == |CamposMonitorados|
  {
    if pk.None? || stored.None? then prev else Some(Alteracoes(stored.value, valores))
  }

  // ---------------------------------------------------------------- history rows

  /** An `AtivoHistorico` row. */
  datatype AtivoHistorico = AtivoHistorico(
    ativo: nat, campoAlterado: Option<string>, valorAnterior: Option<string>, valorNovo: Option<string>,
    descricao: string, usuario: Option<nat>)

  function Descricao(a: Alteracao): string {
    a.campo + " alterado de '" + a.anterior + "' para '" + a.novo + "'"
  }

  /** The description names the field and both rendered values. */
  lemma DescricaoMentions(a: Alteracao)
    ensures Contains(Descricao(a), a.campo) && Contains(Descricao(a), a.anterior) && Contains(Descricao(a), a.novo)
  {
    var p2, p3, p4 := " alterado de '", "' para '", "'";
    var m := Descricao(a);
    assert m == a.campo + (p2 + a.anterior + p3 + a.novo + p4);
    assert m[0..|a.campo|] == a.campo;
    assert OccursAt(m, a.campo, 0);
    assert m == (a.campo + p2) + a.anterior + (p3 + a.novo + p4);
    ContainsMiddle(a.campo + p2, a.anterior, p3 + a.novo + p4);
    assert m == (a.campo + p2 + a.anterior + p3) + a.novo + p4;
    ContainsMiddle(a.campo + p2 + a.anterior + p3, a.novo, p4);
  }

  function ChangeRow(ativo: nat, a: Alteracao): AtivoHistorico {
    AtivoHistorico(ativo, Some(a.campo), Some(a.anterior), Some(a.novo), Descricao(a), None)
  }

  /** The rows written for a list of changes, one each, in order. */
  function ChangeRows(ativo: nat, alts: seq<Alteracao>): (r: seq<AtivoHistorico>)
    ensures |r| == |alts| && forall k :: 0 <= k < |alts| ==> r[k] == ChangeRow(ativo, alts[k])
  {
    seq(|alts|, k requires 0 <= k < |alts| => ChangeRow(ativo, alts[k]))
  }

  /** `criar_historico_criacao`. */
  function CriacaoRows(ativo: nat, nome: string, created: bool): seq<AtivoHistorico> {
    if created then [AtivoHistorico(ativo, None, None, None, "Ativo criado: " + nome, None)] else []
  }

  /** `salvar_historico_alteracoes`: one row per pending change, for updates only. */
  function SalvarRows(ativo: nat, created: bool, pending: Option<seq<Alteracao>>): seq<AtivoHistorico> {
    if !created && pending.Some? && pending.value != [] then ChangeRows(ativo, pending.value) else []
  }

  /** Both post-save handlers of an asset, in registration order. */
  function PostSaveRows(ativo: nat, nome: string, created: bool, pending: Option<seq<Alteracao>>): seq<AtivoHistorico> {
    CriacaoRows(ativo, nome, created) + SalvarRows(ativo, created, pending)
  }

  /**
   * Creating an asset writes exactly its one creation row, whatever
   * changes are pending; an update writes one row per pending change.
   */
  lemma PostSaveSpec(ativo: nat, nome: string, created: bool, pending: Option<seq<Alteracao>>)
    ensures created ==> PostSaveRows(ativo, nome, created, pending)
                        == [AtivoHistorico(ativo, None, None, None, "Ativo criado: " + nome, None)]
    ensures !created ==> PostSaveRows(ativo, nome, created, pending)
                         == (if pending.Some? then ChangeRows(ativo, pending.value) else [])
  {
    if !created && pending.Some? && pending.value == [] {
      assert ChangeRows(ativo, []) == [];
    }
  }

  /**
   * An update of a stored asset logs exactly the monitored fields that
   * changed: field `i` has a row iff its values differ.
   */
  lemma UpdateLogsChangedFields(ativo: nat, nome: string, stored: seq<AtivoValue>, valores: seq<AtivoValue>,
                                pk: nat, prev: Option<seq<Alteracao>>, i: nat)
    requires |stored| == |valores| == |CamposMonitorados| && i < |CamposMonitorados|
    ensures var pending := Registrar(Some(pk), Some(stored), valores, prev);
            var rows := PostSaveRows(ativo, nome, false, pending);
            pending.Some?
            && |rows| == |pending.value|
            && (CamposMonitorados[i].0 in ChangedDbs(pending.value) <==> !PyEq(stored[i], valores[i]))
  {
    MonitoredFieldsDistinct();
    AlteracoesField(CamposMonitorados, stored, valores, |CamposMonitorados|, i);
    PostSaveSpec(ativo, nome, false, Registrar(Some(pk), Some(stored), valores, prev));
  }

  /** `criar_historico_utilizador`: the user's full name, or the username when it is empty. */
  function UtilizadorRows(ativo: nat, fullName: string, username: string, created: bool): (r: seq<AtivoHistorico>)
    ensures created ==> |r| == 1 && Contains(r[0].descricao, if fullName != [] then fullName else username)
    ensures !created ==> r == []
  {
    if created then
      var quem := if fullName != [] then fullName else username;
      ContainsMiddle("Ativo atribuído a ", quem, []);
      assert "Ativo atribuído a " + quem + [] == "Ativo atribuído a " + quem;
      [AtivoHistorico(ativo, None, None, None, "Ativo atribuído a " + quem, None)]
    else []
  }

  // ---------------------------------------------------------------- the instance and the table

  /** An `Ativo` being saved: the `_alteracoes` attribute lives on the instance. */
  class AtivoInstance {
    var pk: Option<nat>
    var valores: seq<AtivoValue>
    var alteracoes: Option<seq<Alteracao>>

    constructor (pk: Option<nat>, valores: seq<AtivoValue>)
      ensures this.pk == pk && this.valores == valores && alteracoes.None?
    {
      this.pk := pk;
      this.valores := valores;
      alteracoes := None;
    }

    /** `registrar_alteracoes`, given the stored row (None when it is gone). */
    method RegistrarAlteracoes(stored: Option<seq<AtivoValue>>)
      requires |valores| == |CamposMonitorados|
      requires stored.Some? ==> |stored.value| == |CamposMonitorados|
      modifies this`alteracoes
      ensures alteracoes == Registrar(pk, stored, valores, old(alteracoes))
    {
      if pk.None? || stored.None? {
        return;
      }
      var antes := stored.value;
      var lista: seq<Alteracao> := [];
      var i := 0;
      while i < |CamposMonitorados|
        invariant 0 <= i <= |CamposMonitorados|
        invariant lista == AlteracoesUpTo(CamposMonitorados, antes, valores, i)
      {
        var (campo, nomeCampo) := CamposMonitorados[i];
        var anterior := Render(antes[i]);
        var novo := Render(valores[i]);
        if !PyEq(antes[i], valores[i]) {
          lista := lista + [Alteracao(nomeCampo, campo, anterior, novo)];
        }
        i := i + 1;
      }
      alteracoes := Some(lista);
    }
  }

  /** The `AtivoHistorico` table. */
  class HistoricoTable {
    var rows: seq<AtivoHistorico>

    constructor ()
      ensures rows == []
    {
      rows := [];
    }

    /** The two post-save handlers of an asset. */
    method PostSave(ativo: nat, nome: string, created: bool, pending: Option<seq<Alteracao>>)
      modifies this
      ensures rows == old(rows) + PostSaveRows(ativo, nome, created, pending)
    {
      if created {
        rows := rows + [AtivoHistorico(ativo, None, None, None, "Ativo criado: " + nome, None)];
      }
      if !created && pending.Some? && pending.value != [] {
        var alts := pending.value;
        var i := 0;
        while i < |alts|
          invariant 0 <= i <= |alts|
          invariant rows == old(rows) + ChangeRows(ativo, alts[..i])
        {
          assert ChangeRows(ativo, alts[..i + 1]) == ChangeRows(ativo, alts[..i]) + [ChangeRow(ativo, alts[i])];
          rows := rows + [ChangeRow(ativo, alts[i])];
          i := i + 1;
        }
        assert alts[..i] == alts;
      }
    }

    /** `criar_historico_utilizador`. */
    method UtilizadorSaved(ativo: nat, fullName: string, username: string, created: bool)
      modifies this
      ensures rows == old(rows) + UtilizadorRows(ativo, fullName, username, created)
    {
      if created {
        var quem := if fullName != [] then fullName else username;
        rows := rows + [AtivoHistorico(ativo, None, None, None, "Ativo atribuído a " + quem, None)];
      }
    }
  }
}
