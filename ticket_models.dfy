/**
 * The ticket lifecycle and SLA engine of the help desk: status bases,
 * SLA contracts and their rules, year-scoped ticket numbering, the
 * timestamps and pause accounting kept by `Ticket.save`, and the one-time
 * first-response mark set by a new public action.
 *
 * Instants and durations are whole seconds; the clock is the parameter
 * `now`.  Foreign keys to categories, urgencies and services are ids.
 */
module TicketModels {
  import opened Wrappers
  import opened Text

  datatype StatusBase = Novo | EmAtendimento | Parado | Resolvido | Cancelado | Fechado

  /** A tenant-defined status; `pk` is None until the row is first saved. */
  datatype Status = Status(
    pk: Option<nat>, nome: string, base: StatusBase, cliente: nat,
    requerJustificativa: bool, ativo: bool)

  /** `get_status_base_display()`. */
  function BaseLabel(b: StatusBase): string {
    match b
    case Novo => "Novo"
    case EmAtendimento => "Em Atendimento"
    case Parado => "Parado/Aguardando"
    case Resolvido => "Resolvido"
    case Cancelado => "Cancelado"
    case Fechado => "Fechado"
  }

  /** `str(status)`: the name followed by the base's label in parentheses. */
  function StatusLabel(s: Status): string {
    s.nome + " (" + BaseLabel(s.base) + ")"
  }

  // ---------------------------------------------------------------- Status.save

  /**
   * Saving a status row: an existing row may not change its status base
   * (ValueError), a pk with no stored row raises DoesNotExist, a new row
   * is inserted under the id the database hands out.
   */
  function SaveStatus(table: map<nat, Status>, s: Status, newPk: nat): (r: Result<map<nat, Status>>)
    requires newPk !in table
    ensures r.Ok? <==> (s.pk.None? || (s.pk.value in table && table[s.pk.value].base == s.base))
    ensures r.Ok? ==> forall id :: id in table ==> id in r.value && r.value[id].base == table[id].base
    ensures r.Ok? && s.pk.Some? ==> r.value.Keys == table.Keys && r.value[s.pk.value] == s
    ensures r.Ok? && s.pk.None? ==> r.value == table[newPk := s.(pk := Some(newPk))]
  {
    match s.pk
    case None => Ok(table[newPk := s.(pk := Some(newPk))])
    case Some(id) =>
      if id !in table then Err("Status matching query does not exist.")
      else if table[id].base != s.base then Err("Não é possível alterar o status base após a criação")
      else Ok(table[id := s])
  }

  // ---------------------------------------------------------------- SLA rules

  datatype Regra = Regra(
    id: nat, nome: string, ordem: int,
    categorias: set<nat>, urgencias: set<nat>, servicos: set<nat>,
    prazoSolucao: int, ativo: bool)

  /** A contract; `regras` are its rule rows in table order. */
  datatype Contrato = Contrato(
    id: nat, nome: string, cliente: nat, isPadrao: bool, ativo: bool, regras: seq<Regra>)

  /** Condition sets are wildcards when empty; otherwise the value must be listed. */
  predicate Admits(allowed: set<nat>, v: Option<nat>) {
    allowed == {} || (v.Some? && v.value in allowed)
  }

  // ---------------------------------------------------------------- Ticket values

  datatype TicketState = TicketState(
    pk: Option<nat>, numero: string, cliente: nat, status: Status,
    categoria: Option<nat>, urgencia: Option<nat>, servico: Option<nat>,
    criadoEm: int, resolvidoEm: Option<int>, fechadoEm: Option<int>, canceladoEm: Option<int>,
    pausadoEm: Option<int>, tempoPausado: int,
    previsaoSolucao: Option<int>, previsaoManual: bool,
    regraSlaAplicada: Option<Regra>, contratoSla: Option<Contrato>,
    primeiraRespostaEm: Option<int>)

  /** `RegraSLA.aplica_ao_ticket`. */
  function AplicaAoTicket(r: Regra, t: TicketState): (b: bool)
    ensures b <==> Admits(r.categorias, t.categoria) && Admits(r.urgencias, t.urgencia)
                   && Admits(r.servicos, t.servico)
  {
    if r.categorias != {} && !(t.categoria.Some? && t.categoria.value in r.categorias) then false
    else if r.urgencias != {} && !(t.urgencia.Some? && t.urgencia.value in r.urgencias) then false
    else if r.servicos != {} && !(t.servico.Some? && t.servico.value in r.servicos) then false
    else true
  }

  /** A rule with no conditions applies to every ticket. */
  lemma WildcardRuleApplies(r: Regra, t: TicketState)
    requires r.categorias == {} && r.urgencias == {} && r.servicos == {}
    ensures AplicaAoTicket(r, t)
  {
  }

  /** A ticket without a category fails every rule that lists categories. */
  lemma NoCategoryFailsListedRule(r: Regra, t: TicketState)
    requires r.categorias != {} && t.categoria.None?
    ensures !AplicaAoTicket(r, t)
  {
  }

  predicate SortedByOrdem(rs: seq<Regra>) {
    forall i, j :: 0 <= i < j < |rs| ==> rs[i].ordem <= rs[j].ordem
  }

  /** Inserts `r` before the first rule whose ordem is not smaller. */
  function InsertByOrdem(r: Regra, rs: seq<Regra>): (out: seq<Regra>)
    ensures multiset(out) == multiset(rs) + multiset{r}
  {
    if rs == [] || r.ordem <= rs[0].ordem then [r] + rs
    else
      assert rs == [rs[0]] + rs[1..];
      [rs[0]] + InsertByOrdem(r, rs[1..])
  }

  /** Insertion keeps a list sorted by ordem. */
  lemma {:induction false} InsertByOrdemSorted(r: Regra, rs: seq<Regra>)
    requires SortedByOrdem(rs)
    ensures SortedByOrdem(InsertByOrdem(r, rs))
  {
    if rs == [] || r.ordem <= rs[0].ordem {
      var out := [r] + rs;
      forall i, j | 0 <= i < j < |out| ensures out[i].ordem <= out[j].ordem {
        if i == 0 {
          assert out[j] == rs[j - 1];
          assert rs[0].ordem <= rs[j - 1].ordem;
        } else {
          assert out[i] == rs[i - 1] && out[j] == rs[j - 1];
        }
      }
    } else {
      var tail := InsertByOrdem(r, rs[1..]);
      InsertByOrdemSorted(r, rs[1..]);
      var out := [rs[0]] + tail;
      forall i, j | 0 <= i < j < |out| ensures out[i].ordem <= out[j].ordem {
        if i == 0 {
          assert out[j] == tail[j - 1];
          HeadBoundsInserted(r, rs, tail[j - 1]);
        } else {
          assert out[i] == tail[i - 1] && out[j] == tail[j - 1];
        }
      }
    }
  }

  /** Every rule of the insertion into the tail is at least the head's ordem. */
  lemma HeadBoundsInserted(r: Regra, rs: seq<Regra>, x: Regra)
    requires SortedByOrdem(rs) && rs != [] && rs[0].ordem < r.ordem
    requires x in InsertByOrdem(r, rs[1..])
    ensures rs[0].ordem <= x.ordem
  {
    assert x in multiset(InsertByOrdem(r, rs[1..]));
    if x != r {
      assert x in multiset(rs[1..]);
      var k :| 0 <= k < |rs[1..]| && rs[1..][k] == x;
      assert rs[k + 1] == x;
    }
  }

  /** `regras.filter(ativo=True).order_by('ordem')`. */
  function ActiveByOrdem(rs: seq<Regra>): (out: seq<Regra>)
    ensures SortedByOrdem(out)
    ensures forall x :: x in out <==> x in rs && x.ativo
  {
    if rs == [] then []
    else
      var rest := ActiveByOrdem(rs[1..]);
      assert rs == [rs[0]] + rs[1..];
      if rs[0].ativo then
        InsertByOrdemSorted(rs[0], rest);
        var out := InsertByOrdem(rs[0], rest);
        assert forall x :: x in out <==> x in multiset(rest) + multiset{rs[0]};
        out
      else rest
  }

  /** The first rule of `rs` that applies to `t`. */
  function FirstMatch(rs: seq<Regra>, t: TicketState): (r: Option<Regra>)
    ensures r.Some? ==> r.value in rs && AplicaAoTicket(r.value, t)
    ensures r.None? ==> forall x :: x in rs ==> !AplicaAoTicket(x, t)
  {
    if rs == [] then None
    else if AplicaAoTicket(rs[0], t) then Some(rs[0])
    else FirstMatch(rs[1..], t)
  }

  /** The first match in a list sorted by ordem has the least ordem among the matches. */
  lemma {:induction false} FirstMatchLeastOrdem(rs: seq<Regra>, t: TicketState, x: Regra)
    requires SortedByOrdem(rs)
    requires x in rs && AplicaAoTicket(x, t)
    ensures FirstMatch(rs, t).Some? && FirstMatch(rs, t).value.ordem <= x.ordem
  {
    if !AplicaAoTicket(rs[0], t) {
      assert x in rs[1..];
      FirstMatchLeastOrdem(rs[1..], t, x);
    } else {
      var j :| 0 <= j < |rs| && rs[j] == x;
      assert j == 0 || rs[0].ordem <= rs[j].ordem;
    }
  }

  /** The rule calcular_sla picks from a contract. */
  function SelectRule(c: Contrato, t: TicketState): Option<Regra> {
    FirstMatch(ActiveByOrdem(c.regras), t)
  }

  /**
   * The chosen rule is an active rule of the contract that applies, no
   * active applicable rule has a smaller ordem, and nothing is chosen
   * exactly when no active rule applies.
   */
  lemma SelectRuleSpec(c: Contrato, t: TicketState)
    ensures var r := SelectRule(c, t);
            (r.Some? ==> r.value in c.regras && r.value.ativo && AplicaAoTicket(r.value, t)
                         && forall x :: x in c.regras && x.ativo && AplicaAoTicket(x, t) ==> r.value.ordem <= x.ordem)
            && (r.None? <==> forall x :: x in c.regras && x.ativo ==> !AplicaAoTicket(x, t))
  {
    var sorted := ActiveByOrdem(c.regras);
    forall x | x in c.regras && x.ativo && AplicaAoTicket(x, t)
      ensures SelectRule(c, t).Some? && SelectRule(c, t).value.ordem <= x.ordem
    {
      FirstMatchLeastOrdem(sorted, t, x);
    }
  }

  /** The cliente's first active default contract, in table order. */
  function DefaultContrato(contratos: seq<Contrato>, cliente: nat): (r: Option<Contrato>)
    ensures r.Some? ==> r.value in contratos && r.value.cliente == cliente && r.value.isPadrao && r.value.ativo
    ensures r.None? <==> forall c :: c in contratos ==> !(c.cliente == cliente && c.isPadrao && c.ativo)
  {
    if contratos == [] then None
    else if contratos[0].cliente == cliente && contratos[0].isPadrao && contratos[0].ativo then Some(contratos[0])
    else DefaultContrato(contratos[1..], cliente)
  }

  /** `self.contrato_sla or <the cliente's default>`. */
  function ContratoFor(t: TicketState, contratos: seq<Contrato>): Option<Contrato> {
    if t.contratoSla.Some? then t.contratoSla else DefaultContrato(contratos, t.cliente)
  }

  const SecondsPerHour: int := 3600

  /** The state `Ticket.calcular_sla` leaves behind. */
  function SlaApplied(t: TicketState, contratos: seq<Contrato>): (r: TicketState)
    ensures r == t.(regraSlaAplicada := r.regraSlaAplicada, contratoSla := r.contratoSla,
                    previsaoSolucao := r.previsaoSolucao)
  {
    if t.previsaoManual then t
    else match ContratoFor(t, contratos)
      case None => t
      case Some(c) =>
        match SelectRule(c, t)
        case None => t
        case Some(rg) =>
          t.(regraSlaAplicada := Some(rg), contratoSla := Some(c),
             previsaoSolucao := Some(t.criadoEm + rg.prazoSolucao * SecondsPerHour))
  }

  /**
   * calcular_sla: a manual deadline, a missing contract or a contract with
   * no applicable active rule leaves the ticket as it is; otherwise the
   * least-ordem applicable active rule sets the deadline to the creation
   * instant plus its hours, ignoring the time spent paused.
   */
  lemma SlaAppliedSpec(t: TicketState, contratos: seq<Contrato>)
    ensures var r := SlaApplied(t, contratos);
            (t.previsaoManual || ContratoFor(t, contratos).None? ==> r == t)
            && (!t.previsaoManual && ContratoFor(t, contratos).Some?
                && (exists x :: x in ContratoFor(t, contratos).value.regras && x.ativo && AplicaAoTicket(x, t)) ==>
                  exists c, rg :: ContratoFor(t, contratos) == Some(c) && rg in c.regras
                    && rg.ativo && AplicaAoTicket(rg, t)
                    && (forall x :: x in c.regras && x.ativo && AplicaAoTicket(x, t) ==> rg.ordem <= x.ordem)
                    && r == t.(regraSlaAplicada := Some(rg), contratoSla := Some(c),
                               previsaoSolucao := Some(t.criadoEm + rg.prazoSolucao * 3600)))
            && r.tempoPausado == t.tempoPausado
  {
    if !t.previsaoManual && ContratoFor(t, contratos).Some? {
      var c := ContratoFor(t, contratos).value;
      SelectRuleSpec(c, t);
      if SelectRule(c, t).Some? {
        var rg := SelectRule(c, t).value;
        SlaAppliedByRule(t, contratos, c, rg);
        assert ContratoFor(t, contratos) == Some(c) && rg in c.regras && rg.ativo && AplicaAoTicket(rg, t);
      }
    }
  }

  lemma SlaAppliedByRule(t: TicketState, contratos: seq<Contrato>, c: Contrato, rg: Regra)
    requires !t.previsaoManual && ContratoFor(t, contratos) == Some(c) && SelectRule(c, t) == Some(rg)
    ensures SlaApplied(t, contratos)
         == t.(regraSlaAplicada := Some(rg), contratoSla := Some(c),
               previsaoSolucao := Some(t.criadoEm + rg.prazoSolucao * SecondsPerHour))
  {
  }

  lemma SlaAppliedUnchanged(t: TicketState, contratos: seq<Contrato>)
    requires t.previsaoManual || ContratoFor(t, contratos).None?
    ensures SlaApplied(t, contratos) == t
  {
  }

  lemma SlaAppliedNoRule(t: TicketState, contratos: seq<Contrato>, c: Contrato)
    requires ContratoFor(t, contratos) == Some(c) && SelectRule(c, t) == None
    ensures SlaApplied(t, contratos) == t
  {
  }

  /** The deadline does not depend on how long the ticket was paused. */
  lemma DeadlineIgnoresPause(t: TicketState, contratos: seq<Contrato>, paused: int)
    ensures SlaApplied(t.(tempoPausado := paused), contratos).previsaoSolucao
         == SlaApplied(t, contratos).previsaoSolucao
  {
    var u := t.(tempoPausado := paused);
    assert ContratoFor(u, contratos) == ContratoFor(t, contratos);
    if ContratoFor(t, contratos).Some? {
      var c := ContratoFor(t, contratos).value;
      FirstMatchSameTickets(ActiveByOrdem(c.regras), t, u);
      assert SelectRule(c, u) == SelectRule(c, t);
    }
  }

  lemma {:induction false} FirstMatchSameTickets(rs: seq<Regra>, t: TicketState, u: TicketState)
    requires forall r :: AplicaAoTicket(r, u) == AplicaAoTicket(r, t)
    ensures FirstMatch(rs, u) == FirstMatch(rs, t)
  {
    if rs != [] {
      FirstMatchSameTickets(rs[1..], t, u);
    }
  }

  /** `esta_vencido`: a deadline exists and has passed. */
  function EstaVencido(t: TicketState, now: int): (b: bool)
    ensures b <==> t.previsaoSolucao.Some? && now > t.previsaoSolucao.value
    ensures t.previsaoSolucao.None? ==> !b
  {
    match t.previsaoSolucao
    case None => false
    case Some(p) => now > p
  }

  // ---------------------------------------------------------------- ContratoSLA.save

  /** Each cliente has at most one default contract. */
  predicate OneDefaultPerCliente(rows: seq<Contrato>) {
    forall i, j ::
      (0 <= i < |rows| && 0 <= j < |rows| && rows[i].isPadrao && rows[j].isPadrao
       && rows[i].cliente == rows[j].cliente) ==> i == j
  }

  /** The bulk `update(is_padrao=False)` over the cliente's other defaults. */
  function Demoted(row: Contrato, c: Contrato): Contrato {
    if c.isPadrao && row.cliente == c.cliente && row.isPadrao && row.id != c.id
    then row.(isPadrao := false) else row
  }

  /** Position of the row with id `id`, if any. */
  function RowIndex(rows: seq<Contrato>, id: nat): (k: Option<nat>)
    ensures k.Some? ==> k.value < |rows| && rows[k.value].id == id
    ensures k.None? ==> forall i :: 0 <= i < |rows| ==> rows[i].id != id
  {
    if rows == [] then None
    else if rows[0].id == id then Some(0)
    else match RowIndex(rows[1..], id)
      case None => None
      case Some(k) => Some(k + 1)
  }

  /** The table after saving `c`: demotions, then an update in place or an insert at the end. */
  function SavedContratos(rows: seq<Contrato>, c: Contrato): seq<Contrato> {
    var demoted := seq(|rows|, i requires 0 <= i < |rows| => Demoted(rows[i], c));
    match RowIndex(demoted, c.id)
    case Some(k) => demoted[k := c]
    case None => demoted + [c]
  }

  /** Ids are unique in the table. */
  predicate UniqueIds(rows: seq<Contrato>) {
    forall i, j :: 0 <= i < |rows| && 0 <= j < |rows| && rows[i].id == rows[j].id ==> i == j
  }

  /**
   * After a default contract is saved it is its cliente's only default,
   * and the one-default rule keeps holding for every cliente.
   */
  lemma SavedDefaultIsUnique(rows: seq<Contrato>, c: Contrato)
    requires OneDefaultPerCliente(rows) && UniqueIds(rows)
    ensures var out := SavedContratos(rows, c);
            OneDefaultPerCliente(out)
            && (c.isPadrao ==> forall x :: x in out && x.isPadrao && x.cliente == c.cliente ==> x == c)
  {
    var out := SavedContratos(rows, c);
    var demoted := seq(|rows|, i requires 0 <= i < |rows| => Demoted(rows[i], c));
    var k := match RowIndex(demoted, c.id) case Some(k) => k case None => |rows|;
    assert |out| == |rows| || |out| == |rows| + 1;
    assert k < |out| && out[k] == c;
    assert forall i :: 0 <= i < |out| && i != k ==> i < |rows| && out[i] == Demoted(rows[i], c);
    forall i | 0 <= i < |out| && i != k && c.isPadrao && out[i].isPadrao
      ensures out[i].cliente != c.cliente
    {
      OtherRowNotDefault(rows, c, k, i);
    }
  }

  /**
   * A row other than the saved one that is still a default after the save
   * belongs to another cliente.
   */
  lemma OtherRowNotDefault(rows: seq<Contrato>, c: Contrato, k: nat, i: nat)
    requires UniqueIds(rows) && c.isPadrao && i < |rows| && i != k
    requires k == |rows| || (k < |rows| && rows[k].id == c.id)
    requires k == |rows| ==> forall j :: 0 <= j < |rows| ==> rows[j].id != c.id
    requires Demoted(rows[i], c).isPadrao
    ensures rows[i].cliente != c.cliente
  {
    if rows[i].cliente == c.cliente {
      assert false;
    }
  }

  /** The contract table; `Save` is `ContratoSLA.save`. */
  class ContratoTable {
    var rows: seq<Contrato>

    constructor ()
      ensures rows == []
    {
      rows := [];
    }

    method Save(c: Contrato)
      modifies this
      ensures rows == SavedContratos(old(rows), c)
    {
      var before := rows;
      var demoted: seq<Contrato> := [];
      var found: Option<nat> := None;
      var i := 0;
      while i < |before|
        invariant 0 <= i <= |before| && |demoted| == i
        invariant forall k :: 0 <= k < i ==> demoted[k] == Demoted(before[k], c)
        invariant found == RowIndex(demoted, c.id)
      {
        var row := before[i];
        if c.isPadrao && row.cliente == c.cliente && row.isPadrao && row.id != c.id {
          row := row.(isPadrao := false);
        }
        RowIndexSnoc(demoted, row, c.id);
        if found.None? && row.id == c.id {
          found := Some(i);
        }
        demoted := demoted + [row];
        i := i + 1;
      }
      assert demoted == seq(|before|, k requires 0 <= k < |before| => Demoted(before[k], c));
      match found
      case Some(k) => rows := demoted[k := c];
      case None => rows := demoted + [c];
    }
  }

  lemma {:induction false} RowIndexSnoc(rows: seq<Contrato>, x: Contrato, id: nat)
    ensures RowIndex(rows + [x], id)
         == match RowIndex(rows, id)
            case Some(k) => Some(k)
            case None => if x.id == id then Some(|rows|) else None
  {
    if rows != [] {
      assert (rows + [x])[1..] == rows[1..] + [x];
      RowIndexSnoc(rows[1..], x, id);
    }
  }

  // ---------------------------------------------------------------- numbering

  /** Code-point lexicographic order, the ordering of `order_by('-numero')`. */
  predicate LexLess(a: string, b: string) {
    (a == [] && b != []) || (a != [] && b != [] && (a[0] < b[0] || (a[0] == b[0] && LexLess(a[1..], b[1..]))))
  }

  /** `str(year)`, the prefix the lookup filters on. */
  function YearPrefix(year: nat): string { NatToString(year) }

  /** `int(numero.split('-')[1])`: IndexError without a '-', ValueError on a non-numeric piece. */
  function NumeroSuffix(numero: string): (r: Result<nat>)
    ensures r.Ok? ==> var parts := SplitOn(numero, '-');
                      |parts| >= 2 && parts[1] != [] && AllDigits(parts[1]) && r.value == DigitsValue(parts[1])
    ensures r.Err? ==> var parts := SplitOn(numero, '-');
                       r.error == (if |parts| < 2 then "list index out of range" else IntLiteralError(parts[1]))
  {
    var parts := SplitOn(numero, '-');
    if |parts| < 2 then Err("list index out of range")
    else if parts[1] == [] || !AllDigits(parts[1]) then Err(IntLiteralError(parts[1]))
    else Ok(DigitsValue(parts[1]))
  }

  /** `f"{ano}-{n:06d}"`. */
  function FormatNumero(year: nat, n: nat): string {
    YearPrefix(year) + "-" + FormatPadded(n, 6)
  }

  /** The piece after the year of a formatted number reads back as the counter. */
  lemma FormatNumeroSuffix(year: nat, n: nat)
    ensures NumeroSuffix(FormatNumero(year, n)) == Ok(n)
  {
    var y := YearPrefix(year);
    var d := FormatPadded(n, 6);
    assert '-' !in y by { assert forall i :: 0 <= i < |y| ==> IsDigit(y[i]); }
    assert '-' !in d by { assert forall i :: 0 <= i < |d| ==> IsDigit(d[i]); }
    SplitJoin([y, d], '-');
    assert Join([y, d], "-") == FormatNumero(year, n);
  }

  /** The numbers of the year's tickets: those starting with `str(ano)`. */
  function YearNumeros(numeros: seq<string>, year: nat): (r: seq<string>)
    ensures forall x :: x in r <==> x in numeros && StartsWith(x, YearPrefix(year))
  {
    if numeros == [] then []
    else if StartsWith(numeros[0], YearPrefix(year)) then [numeros[0]] + YearNumeros(numeros[1..], year)
    else YearNumeros(numeros[1..], year)
  }

  /** The code-point-greatest string of `xs` (the first of equal ones). */
  function LexMax(xs: seq<string>): (r: Option<string>)
    ensures r.Some? <==> xs != []
    ensures r.Some? ==> r.value in xs
  {
    if xs == [] then None
    else match LexMax(xs[1..])
      case None => Some(xs[0])
      case Some(m) => if LexLess(xs[0], m) then Some(m) else Some(xs[0])
  }

  /**
   * The number `Ticket.save` gives a new ticket, as written: the suffix of
   * the code-point-greatest number starting with the year, plus one.
   */
  function NextNumeroAsWritten(year: nat, numeros: seq<string>): (r: Result<string>)
    ensures YearNumeros(numeros, year) == [] ==> r == Ok(FormatNumero(year, 1))
  {
    match LexMax(YearNumeros(numeros, year))
    case None => Ok(FormatNumero(year, 1))
    case Some(last) =>
      match NumeroSuffix(last)
      case Err(e) => Err(e)
      case Ok(n) => Ok(FormatNumero(year, n + 1))
  }

  /**
   * Once the counter passes 999999 the seven-digit number sorts below the
   * six-digit ones, so the next number repeats an existing one and the
   * unique `numero` column rejects every later ticket of the year.
   */
  lemma NumberingRepeatsAfterMillion()
    ensures var numeros := ["2024-999999", "2024-1000000"];
            NextNumeroAsWritten(2024, numeros) == Ok("2024-1000000")
            && "2024-1000000" in numeros
  {
    var numeros := ["2024-999999", "2024-1000000"];
    Prefix2024();
    assert YearNumeros(numeros, 2024) == numeros by {
      assert StartsWith(numeros[0], "2024") && StartsWith(numeros[1], "2024");
    }
    SevenDigitsSortLow();
    assert LexMax(numeros) == Some("2024-999999");
    SuffixOfMaxSixDigits();
    MillionRendering();
  }

  lemma Prefix2024()
    ensures YearPrefix(2024) == "2024"
  {
    assert NatToString(2) == "2";
    assert NatToString(20) == "20";
    assert NatToString(202) == "202";
  }

  lemma SevenDigitsSortLow()
    ensures LexLess("2024-1000000", "2024-999999") && !LexLess("2024-999999", "2024-1000000")
  {
    assert "2024-1000000"[5..] == "1000000";
    assert "2024-999999"[5..] == "999999";
  }

  lemma SuffixOfMaxSixDigits()
    ensures NumeroSuffix("2024-999999") == Ok(999999)
  {
    SplitMaxSixDigits();
    NineNines();
  }

  lemma SplitMaxSixDigits()
    ensures SplitOn("2024-999999", '-') == ["2024", "999999"]
  {
    var xs := ["2024", "999999"];
    assert '-' !in xs[0] && '-' !in xs[1];
    SplitJoin(xs, '-');
    assert Join(xs[1..], "-") == "999999";
    assert Join(xs, "-") == "2024-999999";
  }

  lemma NineNines()
    ensures AllDigits("999999") && DigitsValue("999999") == 999999
  {
    assert "999999"[..5] == "99999";
    assert "99999"[..4] == "9999";
    assert "9999"[..3] == "999";
    assert "999"[..2] == "99";
    assert "99"[..1] == "9";
    assert "9"[..0] == "";
  }

  lemma MillionRendering()
    ensures FormatNumero(2024, 1000000) == "2024-1000000"
  {
    Prefix2024();
    MillionText();
    FormatNumeroWide(2024, 1000000);
    MillionJoined();
  }

  lemma MillionJoined()
    ensures "2024" + "-" + "1000000" == "2024-1000000"
  {
  }

  /** A counter of six digits or more is written without padding. */
  lemma FormatNumeroWide(year: nat, n: nat)
    requires |NatToString(n)| >= 6
    ensures FormatNumero(year, n) == NatToString(year) + "-" + NatToString(n)
  {
  }

  lemma MillionText()
    ensures NatToString(1000000) == "1000000"
  {
    assert NatToString(1) == "1";
    NatToStringTimesTen(1);
    assert NatToString(10) == "10";
    NatToStringTimesTen(10);
    assert NatToString(100) == "100";
    NatToStringTimesTen(100);
    assert NatToString(1000) == "1000";
    NatToStringTimesTen(1000);
    assert NatToString(10000) == "10000";
    NatToStringTimesTen(10000);
    assert NatToString(100000) == "100000";
    NatToStringTimesTen(100000);
  }

  /**
   * The largest counter among the year's numbers, or None when there are
   * none; a number whose suffix does not parse raises as `int()` would.
   */
  function MaxSuffix(xs: seq<string>): (r: Result<Option<nat>>)
    ensures r == Ok(None) <==> xs == []
    ensures r.Ok? && r.value.Some? ==> forall x :: x in xs ==> NumeroSuffix(x).Ok? && NumeroSuffix(x).value <= r.value.value
    ensures r.Ok? && r.value.Some? ==> exists x :: x in xs && NumeroSuffix(x) == Ok(r.value.value)
    ensures r.Err? <==> exists x :: x in xs && NumeroSuffix(x).Err?
  {
    if xs == [] then Ok(None)
    else match NumeroSuffix(xs[0])
      case Err(e) => Err(e)
      case Ok(n) =>
        match MaxSuffix(xs[1..])
        case Err(e) => Err(e)
        case Ok(None) => Ok(Some(n))
        case Ok(Some(m)) => Ok(Some(if n < m then m else n))
  }

  /** The next number: the successor of the year's numerically greatest counter, 1 if none. */
  function NextNumero(year: nat, numeros: seq<string>): Result<string> {
    match MaxSuffix(YearNumeros(numeros, year))
    case Err(e) => Err(e)
    case Ok(None) => Ok(FormatNumero(year, 1))
    case Ok(Some(m)) => Ok(FormatNumero(year, m + 1))
  }

  /** A generated number never repeats an existing one. */
  lemma NextNumeroFresh(year: nat, numeros: seq<string>)
    ensures NextNumero(year, numeros).Ok? ==> NextNumero(year, numeros).value !in numeros
  {
    var ys := YearNumeros(numeros, year);
    var ms := MaxSuffix(ys);
    if ms.Ok? {
      var n := if ms.value.Some? then ms.value.value + 1 else 1;
      var r := FormatNumero(year, n);
      assert NextNumero(year, numeros) == Ok(r);
      FormatNumeroYear(year, n);
      if ms.value.Some? {
        FormatNumeroSuffix(year, n);
        AboveMaxAbsent(ys, ms.value.value, r);
      }
      assert r !in ys;
    }
  }

  /** A number whose counter exceeds the largest counter is not among the numbers. */
  lemma AboveMaxAbsent(xs: seq<string>, m: nat, r: string)
    requires MaxSuffix(xs) == Ok(Some(m))
    requires NumeroSuffix(r) == Ok(m + 1)
    ensures r !in xs
  {
  }

  /** Every formatted number starts with its year. */
  lemma FormatNumeroYear(year: nat, n: nat)
    ensures StartsWith(FormatNumero(year, n), YearPrefix(year))
  {
    var r := FormatNumero(year, n);
    assert r[..|YearPrefix(year)|] == YearPrefix(year);
  }

  /** Python's `ano` from `datetime.now().year` and the `f"{ano}-..."` prefix of every generated number. */
  lemma NextNumeroShape(year: nat, numeros: seq<string>)
    ensures var r := NextNumero(year, numeros);
            r.Ok? ==> NumeroSuffix(r.value).Ok? && NumeroSuffix(r.value).value >= 1
                      && r.value == FormatNumero(year, NumeroSuffix(r.value).value)
  {
    var ms := MaxSuffix(YearNumeros(numeros, year));
    if ms.Ok? {
      var n := if ms.value.Some? then ms.value.value + 1 else 1;
      assert NextNumero(year, numeros) == Ok(FormatNumero(year, n));
      FormatNumeroSuffix(year, n);
    }
  }

  /** With no number for the year yet, the next number is the year's first. */
  lemma NextNumeroFirst(year: nat, numeros: seq<string>)
    requires YearNumeros(numeros, year) == []
    ensures NextNumero(year, numeros) == Ok(FormatNumero(year, 1))
  {
    assert MaxSuffix(YearNumeros(numeros, year)) == Ok(None);
  }

  /**
   * Otherwise it is one past the counter of a number of the year that no
   * other number of the year exceeds.
   */
  lemma NextNumeroSuccessor(year: nat, numeros: seq<string>)
    requires YearNumeros(numeros, year) != [] && NextNumero(year, numeros).Ok?
    ensures exists x :: x in YearNumeros(numeros, year)
                        && (forall y :: y in YearNumeros(numeros, year) ==> NumeroSuffix(y).Ok? && NumeroSuffix(y).value <= NumeroSuffix(x).value)
                        && NextNumero(year, numeros) == Ok(FormatNumero(year, NumeroSuffix(x).value + 1))
  {
    var ys := YearNumeros(numeros, year);
    var m := MaxSuffix(ys).value.value;
    var x :| x in ys && NumeroSuffix(x) == Ok(m);
    assert NextNumero(year, numeros) == Ok(FormatNumero(year, m + 1));
  }

  /** It raises exactly when a number of the year has a counter `int()` refuses. */
  lemma NextNumeroRaises(year: nat, numeros: seq<string>)
    ensures NextNumero(year, numeros).Err? <==> exists x :: x in YearNumeros(numeros, year) && NumeroSuffix(x).Err?
  {
    assert NextNumero(year, numeros).Err? <==> MaxSuffix(YearNumeros(numeros, year)).Err?;
  }

  // ---------------------------------------------------------------- Ticket.save

  /** Entering RESOLVIDO, FECHADO or CANCELADO stamps the matching field with `now`. */
  function Stamped(t: TicketState, original: StatusBase, now: int): TicketState {
    var b := t.status.base;
    t.(resolvidoEm := if b == Resolvido && original != Resolvido then Some(now) else t.resolvidoEm,
       fechadoEm := if b == Fechado && original != Fechado then Some(now) else t.fechadoEm,
       canceladoEm := if b == Cancelado && original != Cancelado then Some(now) else t.canceladoEm)
  }

  /** Entering PARADO starts a pause; leaving it closes the pause under way. */
  function PauseStepped(t: TicketState, original: StatusBase, now: int): TicketState {
    var b := t.status.base;
    if b == Parado && original != Parado then t.(pausadoEm := Some(now))
    else if b != Parado && original == Parado && t.pausadoEm.Some? then
      t.(tempoPausado := t.tempoPausado + (now - t.pausadoEm.value), pausadoEm := None)
    else t
  }

  /** The timestamp and pause bookkeeping `save` does on an existing ticket. */
  function Transitioned(t: TicketState, original: StatusBase, now: int): (r: TicketState)
    ensures r == t.(resolvidoEm := r.resolvidoEm, fechadoEm := r.fechadoEm, canceladoEm := r.canceladoEm,
                    pausadoEm := r.pausadoEm, tempoPausado := r.tempoPausado)
  {
    PauseStepped(Stamped(t, original, now), original, now)
  }

  /**
   * Entering RESOLVIDO, FECHADO or CANCELADO stamps the matching field with
   * `now`; no other transition touches it; staying in the same base
   * changes nothing at all.
   */
  lemma TransitionTimestamps(t: TicketState, original: StatusBase, now: int)
    ensures var r := Transitioned(t, original, now);
            var b := t.status.base;
            r.resolvidoEm == (if b == Resolvido && original != Resolvido then Some(now) else t.resolvidoEm)
            && r.fechadoEm == (if b == Fechado && original != Fechado then Some(now) else t.fechadoEm)
            && r.canceladoEm == (if b == Cancelado && original != Cancelado then Some(now) else t.canceladoEm)
            && (b == original ==> r == t)
  {
  }

  /**
   * Entering PARADO starts a pause at `now`; leaving it with a pause under
   * way adds the pause's length to tempo_pausado and clears it, so the
   * total never decreases while the clock runs forward.
   */
  lemma PauseAccounting(t: TicketState, original: StatusBase, now: int)
    ensures var r := Transitioned(t, original, now);
            var b := t.status.base;
            (b == Parado && original != Parado ==> r.pausadoEm == Some(now) && r.tempoPausado == t.tempoPausado)
            && (b != Parado && original == Parado && t.pausadoEm.Some? ==>
                  r.pausadoEm.None? && r.tempoPausado == t.tempoPausado + (now - t.pausadoEm.value))
            && (t.pausadoEm.Some? && t.pausadoEm.value <= now ==> r.tempoPausado >= t.tempoPausado)
            && (t.pausadoEm.None? ==> r.tempoPausado == t.tempoPausado)
  {
  }

  /** Field-by-field reading of `Transitioned`, the order in which `save` writes them. */
  lemma TransitionedFields(t: TicketState, original: StatusBase, now: int)
    ensures var r := Transitioned(t, original, now);
            var b := t.status.base;
            var paused := b == Parado && original != Parado;
            var resumed := b != Parado && original == Parado && t.pausadoEm.Some?;
            r.resolvidoEm == (if b == Resolvido && original != Resolvido then Some(now) else t.resolvidoEm)
            && r.fechadoEm == (if b == Fechado && original != Fechado then Some(now) else t.fechadoEm)
            && r.canceladoEm == (if b == Cancelado && original != Cancelado then Some(now) else t.canceladoEm)
            && r.pausadoEm == (if paused then Some(now) else if resumed then None else t.pausadoEm)
            && r.tempoPausado == (if resumed then t.tempoPausado + (now - t.pausadoEm.value) else t.tempoPausado)
  {
  }

  /** `if not self.numero`: a missing number is generated, an existing one kept. */
  function Numbered(t: TicketState, year: nat, numeros: seq<string>): (r: Result<TicketState>)
    ensures t.numero != [] ==> r == Ok(t)
    ensures t.numero == [] && r.Ok? ==> r.value == t.(numero := r.value.numero) && r.value.numero !in numeros
  {
    NextNumeroFresh(year, numeros);
    if t.numero != [] then Ok(t)
    else match NextNumero(year, numeros)
      case Err(e) => Err(e)
      case Ok(n) => Ok(t.(numero := n))
  }

  /** The row write: a new ticket gets its pk and `criado_em`. */
  function Stored(t: TicketState, now: int, newPk: nat): TicketState {
    if t.pk.None? then t.(pk := Some(newPk), criadoEm := now) else t
  }

  /** The whole of `Ticket.save`: the resulting ticket, or the exception it raises. */
  function SaveTicket(t: TicketState, now: int, year: nat, numeros: seq<string>,
                      original: Option<StatusBase>, contratos: seq<Contrato>, newPk: nat): Result<TicketState>
  {
    match Numbered(t, year, numeros)
    case Err(e) => Err(e)
    case Ok(n) =>
      if n.pk.Some? && original.None? then Err("Ticket matching query does not exist.")
      else
        var moved := if n.pk.Some? then Transitioned(n, original.value, now) else n;
        var stored := Stored(moved, now, newPk);
        Ok(if stored.previsaoManual then stored else SlaApplied(stored, contratos))
  }

  /** Saving keeps an assigned number. */
  lemma SaveKeepsNumero(t: TicketState, now: int, year: nat, numeros: seq<string>,
                        original: Option<StatusBase>, contratos: seq<Contrato>, newPk: nat)
    requires t.numero != []
    ensures var r := SaveTicket(t, now, year, numeros, original, contratos, newPk);
            r.Ok? ==> r.value.numero == t.numero
  {
  }

  /** A ticket saved without a number gets one that no existing ticket has. */
  lemma SaveNumbersFresh(t: TicketState, now: int, year: nat, numeros: seq<string>,
                         original: Option<StatusBase>, contratos: seq<Contrato>, newPk: nat)
    requires t.numero == []
    ensures var r := SaveTicket(t, now, year, numeros, original, contratos, newPk);
            r.Ok? ==> r.value.numero !in numeros
  {
  }

  /**
   * Creating a ticket assigns its pk and `criado_em = now`; none of the
   * transition bookkeeping runs on creation.
   */
  lemma SaveNewTicket(t: TicketState, now: int, year: nat, numeros: seq<string>,
                      original: Option<StatusBase>, contratos: seq<Contrato>, newPk: nat)
    requires t.pk.None?
    ensures var r := SaveTicket(t, now, year, numeros, original, contratos, newPk);
            r.Ok? ==>
              r.value.pk == Some(newPk) && r.value.criadoEm == now
              && r.value.resolvidoEm == t.resolvidoEm && r.value.fechadoEm == t.fechadoEm
              && r.value.canceladoEm == t.canceladoEm && r.value.pausadoEm == t.pausadoEm
              && r.value.tempoPausado == t.tempoPausado
  {
  }

  /** `Ticket.objects.get(pk=...)` raises when the stored row is gone. */
  lemma SaveMissingRowRaises(t: TicketState, now: int, year: nat, numeros: seq<string>,
                             contratos: seq<Contrato>, newPk: nat)
    requires t.pk.Some?
    ensures SaveTicket(t, now, year, numeros, None, contratos, newPk).Err?
  {
  }

  datatype TipoAcao = Publica | Interna | Mensagem

  /**
   * `AcaoTicket.save`: the first public action by a staff author, on its
   * creation, stamps `primeira_resposta_em` with the action's creation
   * instant; once stamped the value never changes.
   */
  function FirstResponse(current: Option<int>, isNew: bool, tipo: TipoAcao, autorIsStaff: bool, acaoCriadaEm: int): (r: Option<int>)
    ensures current.Some? ==> r == current
    ensures r != current <==> current.None? && isNew && tipo == Publica && autorIsStaff
    ensures r != current ==> r == Some(acaoCriadaEm)
  {
    if isNew && tipo == Publica && current.None? && autorIsStaff then Some(acaoCriadaEm) else current
  }

  /** The loop of `calcular_sla`: the first rule of `regras` that applies to `t`. */
  method FirstApplicable(regras: seq<Regra>, t: TicketState) returns (found: Option<Regra>)
    ensures found == FirstMatch(regras, t)
  {
    var i := 0;
    while i < |regras|
      invariant 0 <= i <= |regras|
      invariant FirstMatch(regras, t) == FirstMatch(regras[i..], t)
    {
      assert regras[i..] == [regras[i]] + regras[i + 1..];
      if AplicaAoTicket(regras[i], t) {
        return Some(regras[i]);
      }
      i := i + 1;
    }
    return None;
  }

  /** A ticket row as `Ticket.save` and `calcular_sla` update it in place. */
  class Ticket {
    var pk: Option<nat>
    var numero: string
    var cliente: nat
    var status: Status
    var categoria: Option<nat>
    var urgencia: Option<nat>
    var servico: Option<nat>
    var criadoEm: int
    var resolvidoEm: Option<int>
    var fechadoEm: Option<int>
    var canceladoEm: Option<int>
    var pausadoEm: Option<int>
    var tempoPausado: int
    var previsaoSolucao: Option<int>
    var previsaoManual: bool
    var regraSlaAplicada: Option<Regra>
    var contratoSla: Option<Contrato>
    var primeiraRespostaEm: Option<int>

    function State(): TicketState
      reads this
    {
      TicketState(pk, numero, cliente, status, categoria, urgencia, servico,
                  criadoEm, resolvidoEm, fechadoEm, canceladoEm, pausadoEm, tempoPausado,
                  previsaoSolucao, previsaoManual, regraSlaAplicada, contratoSla, primeiraRespostaEm)
    }

    /** An unsaved ticket: no pk, no number, no timestamps, no pause. */
    constructor (cliente: nat, status: Status, categoria: Option<nat>, urgencia: Option<nat>, servico: Option<nat>)
      ensures State() == TicketState(None, "", cliente, status, categoria, urgencia, servico,
                                     0, None, None, None, None, 0, None, false, None, None, None)
    {
      this.pk := None;
      this.numero := "";
      this.cliente := cliente;
      this.status := status;
      this.categoria := categoria;
      this.urgencia := urgencia;
      this.servico := servico;
      this.criadoEm := 0;
      this.resolvidoEm := None;
      this.fechadoEm := None;
      this.canceladoEm := None;
      this.pausadoEm := None;
      this.tempoPausado := 0;
      this.previsaoSolucao := None;
      this.previsaoManual := false;
      this.regraSlaAplicada := None;
      this.contratoSla := None;
      this.primeiraRespostaEm := None;
    }

    /** `calcular_sla`: walks the contract's active rules by ordem and stops at the first that applies. */
    method CalcularSla(contratos: seq<Contrato>)
      modifies this`regraSlaAplicada, this`contratoSla, this`previsaoSolucao
      ensures State() == SlaApplied(old(State()), contratos)
    {
      var t := State();
      if previsaoManual {
        SlaAppliedUnchanged(t, contratos);
        return;
      }
      var contrato := ContratoFor(t, contratos);
      if contrato.None? {
        SlaAppliedUnchanged(t, contratos);
        return;
      }
      var regra := FirstApplicable(ActiveByOrdem(contrato.value.regras), t);
      if regra.None? {
        SlaAppliedNoRule(t, contratos, contrato.value);
        return;
      }
      SlaAppliedByRule(t, contratos, contrato.value, regra.value);
      ApplyRule(contrato.value, regra.value);
    }

    /** The three assignments `calcular_sla` makes once a rule applies. */
    method ApplyRule(c: Contrato, rg: Regra)
      modifies this`regraSlaAplicada, this`contratoSla, this`previsaoSolucao
      ensures State() == old(State()).(regraSlaAplicada := Some(rg), contratoSla := Some(c),
                                       previsaoSolucao := Some(criadoEm + rg.prazoSolucao * SecondsPerHour))
    {
      regraSlaAplicada := Some(rg);
      contratoSla := Some(c);
      previsaoSolucao := Some(criadoEm + rg.prazoSolucao * SecondsPerHour);
    }

    /** The timestamp and pause block of `save`, run on an existing ticket. */
    method RecordTransition(orig: StatusBase, now: int)
      modifies this`resolvidoEm, this`fechadoEm, this`canceladoEm, this`pausadoEm, this`tempoPausado
      ensures State() == Transitioned(old(State()), orig, now)
    {
      StampClosures(orig, now);
      TrackPause(orig, now);
    }

    /** The three `*_em` stamps of `save`. */
    method StampClosures(orig: StatusBase, now: int)
      modifies this`resolvidoEm, this`fechadoEm, this`canceladoEm
      ensures State() == Stamped(old(State()), orig, now)
    {
      var b := status.base;
      if b == Resolvido && orig != Resolvido {
        resolvidoEm := Some(now);
      }
      if b == Fechado && orig != Fechado {
        fechadoEm := Some(now);
      }
      if b == Cancelado && orig != Cancelado {
        canceladoEm := Some(now);
      }
    }

    /** The pause bookkeeping of `save`. */
    method TrackPause(orig: StatusBase, now: int)
      modifies this`pausadoEm, this`tempoPausado
      ensures State() == PauseStepped(old(State()), orig, now)
    {
      var b := status.base;
      if b == Parado && orig != Parado {
        pausadoEm := Some(now);
      } else if b != Parado && orig == Parado {
        if pausadoEm.Some? {
          tempoPausado := tempoPausado + (now - pausadoEm.value);
          pausadoEm := None;
        }
      }
    }

    /** The numbering step of `save`: a ticket without a number gets the next one. */
    method AssignNumero(year: nat, numeros: seq<string>) returns (res: Result<()>)
      modifies this`numero
      ensures var r := Numbered(old(State()), year, numeros);
              (res.Ok? <==> r.Ok?) && (r.Ok? ==> State() == r.value) && (r.Err? ==> State() == old(State()))
    {
      if numero == [] {
        var n := NextNumero(year, numeros);
        if n.Err? {
          return Err(n.error);
        }
        numero := n.value;
      }
      return Ok(());
    }

    /** The row write of `save`: a new ticket gets its pk and `criado_em`. */
    method Store(now: int, newPk: nat)
      modifies this`pk, this`criadoEm
      ensures State() == Stored(old(State()), now, newPk)
    {
      if pk.None? {
        pk := Some(newPk);
        criadoEm := now;
      }
    }

    /** `Ticket.save`; `original` is the stored row's status base when the ticket has a pk. */
    method Save(now: int, year: nat, numeros: seq<string>, original: Option<StatusBase>,
                contratos: seq<Contrato>, newPk: nat) returns (res: Result<()>)
      modifies this
      ensures var r := SaveTicket(old(State()), now, year, numeros, original, contratos, newPk);
              (res.Ok? <==> r.Ok?) && (r.Ok? ==> State() == r.value)
      ensures Numbered(old(State()), year, numeros).Err? ==> State() == old(State())
    {
      ghost var t0 := State();
      res := AssignNumero(year, numeros);
      if res.Err? {
        return;
      }
      ghost var t1 := State();
      if pk.Some? {
        if original.None? {
          return Err("Ticket matching query does not exist.");
        }
        RecordTransition(original.value, now);
      }
      ghost var t2 := State();
      assert t2 == if t1.pk.Some? then Transitioned(t1, original.value, now) else t1;
      Store(now, newPk);
      ghost var t3 := State();
      if !previsaoManual {
        CalcularSla(contratos);
      }
      assert State() == if t3.previsaoManual then t3 else SlaApplied(t3, contratos);
    }

    /** The first-response update `AcaoTicket.save` makes on this ticket. */
    method MarcarPrimeiraResposta(isNew: bool, tipo: TipoAcao, autorIsStaff: bool, acaoCriadaEm: int)
      modifies this`primeiraRespostaEm
      ensures primeiraRespostaEm == FirstResponse(old(primeiraRespostaEm), isNew, tipo, autorIsStaff, acaoCriadaEm)
    {
      if isNew && tipo == Publica {
        if primeiraRespostaEm.None? && autorIsStaff {
          primeiraRespostaEm := Some(acaoCriadaEm);
        }
      }
    }
  }
}
