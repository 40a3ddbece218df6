/**
 * The ticket form validators: which edits must carry a justification,
 * `TicketForm.clean` (category/urgency compatibility, the required
 * justification, the comma-separated `tags` and `cc` lists), the 25 MiB
 * attachment limit and the merge-selection guard.
 */
module TicketForms {
  import opened Wrappers
  import opened Text
  import opened TicketModels

  /** A category with the ids of its allowed urgencies (`urgencias_permitidas`). */
  datatype Categoria = Categoria(id: nat, nome: string, cliente: nat, urgenciasPermitidas: set<nat>, ativo: bool)

  // ---------------------------------------------------------------- __init__

  /**
   * `TicketForm.__init__`: the justification field is required exactly when
   * an existing ticket is edited and its current status requires one.
   */
  predicate JustificativaRequired(instancePk: Option<nat>, instanceStatus: Option<Status>) {
    instancePk.Some? && instanceStatus.Some? && instanceStatus.value.requerJustificativa
  }

  // ---------------------------------------------------------------- comma lists

  /** `[p.strip() for p in pieces if p.strip()]`. */
  function StrippedNonBlank(pieces: seq<string>): (r: seq<string>)
    ensures |r| <= |pieces|
  {
    if pieces == [] then []
    else
      var t := Strip(pieces[0]);
      (if t == [] then [] else [t]) + StrippedNonBlank(pieces[1..])
  }

  /** The list `clean` makes of a comma-separated string. */
  function CommaItems(s: string): seq<string> {
    StrippedNonBlank(SplitOn(s, ','))
  }

  /** An item as `clean` leaves it: non-empty, already stripped, comma-free. */
  predicate CleanItem(x: string) {
    x != [] && Strip(x) == x && ',' !in x
  }

  /** Stripping only removes characters. */
  lemma StripChars(s: string, c: char)
    requires c in Strip(s)
    ensures c in s
  {
    var l := TrimLeft(s);
    TrimLeftSpec(s);
    TrimRightSpec(l);
    var r := Strip(s);
    var i :| 0 <= i < |r| && r[i] == c;
    assert l[i] == c;
    assert s[|s| - |l| + i] == c;
  }

  /** Every item that survives is a clean item. */
  lemma {:induction false} StrippedNonBlankClean(pieces: seq<string>)
    requires forall i :: 0 <= i < |pieces| ==> ',' !in pieces[i]
    ensures forall i :: 0 <= i < |StrippedNonBlank(pieces)| ==> CleanItem(StrippedNonBlank(pieces)[i])
  {
    if pieces != [] {
      var t := Strip(pieces[0]);
      StrippedNonBlankClean(pieces[1..]);
      if t != [] {
        StripIdempotent(pieces[0]);
        if ',' in t {
          StripChars(pieces[0], ',');
        }
      }
    }
  }

  /** The items of a comma list are clean items. */
  lemma CommaItemsClean(s: string)
    ensures forall i :: 0 <= i < |CommaItems(s)| ==> CleanItem(CommaItems(s)[i])
  {
    StrippedNonBlankClean(SplitOn(s, ','));
  }

  /** Clean items pass through unchanged and in order. */
  lemma {:induction false} StrippedNonBlankKeeps(xs: seq<string>)
    requires forall i :: 0 <= i < |xs| ==> CleanItem(xs[i])
    ensures StrippedNonBlank(xs) == xs
  {
    if xs != [] {
      StrippedNonBlankKeeps(xs[1..]);
    }
  }

  /** Writing clean items back as a comma list and cleaning it gives the same items. */
  lemma CommaItemsRoundTrip(xs: seq<string>)
    requires forall i :: 0 <= i < |xs| ==> CleanItem(xs[i])
    ensures CommaItems(Join(xs, [','])) == xs
  {
    if xs == [] {
      assert SplitOn([], ',') == [[]];
      assert Strip([]) == [];
    } else {
      SplitJoin(xs, ',');
      StrippedNonBlankKeeps(xs);
    }
  }

  /** Cleaning a comma list is idempotent. */
  lemma CommaItemsIdempotent(s: string)
    ensures CommaItems(Join(CommaItems(s), [','])) == CommaItems(s)
  {
    CommaItemsClean(s);
    CommaItemsRoundTrip(CommaItems(s));
  }

  // ---------------------------------------------------------------- clean

  /** A `cleaned_data` entry for `tags` or `cc`: absent, a string, or already a list. */
  datatype FieldValue = Missing | Text(text: string) | Items(items: seq<string>)

  /** An urgency level of a cliente; its text form is its name. */
  datatype Urgencia = Urgencia(id: nat, nome: string, nivel: int, cliente: nat, ativo: bool)

  /** The part of `cleaned_data` that `clean` reads and rewrites. */
  datatype TicketData = TicketData(
    categoria: Option<Categoria>, urgencia: Option<Urgencia>, status: Option<Status>,
    justificativa: Option<nat>, tags: FieldValue, cc: FieldValue)

  /** A category with an allowed-urgency list admits only the urgencies on it. */
  predicate UrgenciaAllowed(d: TicketData) {
    d.categoria.None? || d.urgencia.None?
    || d.categoria.value.urgenciasPermitidas == {}
    || d.urgencia.value.id in d.categoria.value.urgenciasPermitidas
  }

  /** A status that requires a justification has one. */
  predicate JustificativaGiven(d: TicketData) {
    d.status.None? || !d.status.value.requerJustificativa || d.justificativa.Some?
  }

  /** `isinstance(v, str)`: a string becomes its comma list; anything else is kept. */
  function ListField(v: FieldValue): (r: FieldValue)
    ensures !r.Text?
    ensures v.Text? ==> r == Items(CommaItems(v.text))
    ensures !v.Text? ==> r == v
  {
    match v
    case Text(s) => Items(CommaItems(s))
    case _ => v
  }

  /** `TicketForm.clean`: the cleaned data, or the validation error it raises. */
  function Clean(d: TicketData): (r: Result<TicketData>)
  {
    if !UrgenciaAllowed(d) then
      Err("A urgência '" + d.urgencia.value.nome + "' não é permitida para a categoria '" + d.categoria.value.nome + "'")
    else if !JustificativaGiven(d) then
      Err("O status '" + StatusLabel(d.status.value) + "' requer uma justificativa")
    else
      Ok(d.(tags := ListField(d.tags), cc := ListField(d.cc)))
  }

  /**
   * `clean` accepts exactly the data whose urgency fits the category and
   * whose status has its justification; it rewrites only `tags` and `cc`.
   */
  lemma CleanSpec(d: TicketData)
    ensures Clean(d).Ok? <==> UrgenciaAllowed(d) && JustificativaGiven(d)
    ensures Clean(d).Ok? ==>
              var o := Clean(d).value;
              o.categoria == d.categoria && o.urgencia == d.urgencia && o.status == d.status
              && o.justificativa == d.justificativa && !o.tags.Text? && !o.cc.Text?
  {
  }

  /** An urgency missing from a non-empty allowed list is refused. */
  lemma UrgenciaOutsideListRejected(d: TicketData)
    requires d.categoria.Some? && d.urgencia.Some?
    requires d.categoria.value.urgenciasPermitidas != {}
    requires d.urgencia.value.id !in d.categoria.value.urgenciasPermitidas
    ensures Clean(d) == Err("A urgência '" + d.urgencia.value.nome + "' não é permitida para a categoria '" + d.categoria.value.nome + "'")
  {
  }

  /** A category with no allowed list accepts any urgency: the outcome does not depend on it. */
  lemma EmptyListAcceptsAnyUrgencia(d: TicketData, u: Option<Urgencia>)
    requires d.categoria.Some? && d.categoria.value.urgenciasPermitidas == {}
    ensures Clean(d.(urgencia := u)).Ok? <==> Clean(d).Ok?
  {
  }

  /** A status that requires a justification, submitted without one, is refused. */
  lemma JustificativaMissingRejected(d: TicketData)
    requires d.status.Some? && d.status.value.requerJustificativa && d.justificativa.None?
    ensures Clean(d).Err?
    ensures UrgenciaAllowed(d) ==> Clean(d) == Err("O status '" + StatusLabel(d.status.value) + "' requer uma justificativa")
  {
  }

  /** Cleaning cleaned data changes nothing more. */
  lemma CleanIdempotent(d: TicketData)
    requires Clean(d).Ok?
    ensures Clean(Clean(d).value) == Clean(d)
  {
  }

  /**
   * The field flag and `clean` agree: on an edit whose status is kept, a
   * required justification left empty is refused.
   */
  lemma RequiredFlagMatchesClean(instancePk: Option<nat>, st: Status, d: TicketData)
    requires JustificativaRequired(instancePk, Some(st))
    requires d.status == Some(st) && d.justificativa.None?
    ensures Clean(d).Err?
  {
  }

  /** A new ticket never has the justification field required. */
  lemma NewTicketNeverRequired(st: Option<Status>)
    ensures !JustificativaRequired(None, st)
  {
  }

  /** The form object; `clean` rewrites its `cleaned_data` in place. */
  class TicketForm {
    var justificativaRequired: bool
    var cleanedData: TicketData

    constructor (instancePk: Option<nat>, instanceStatus: Option<Status>, data: TicketData)
      ensures justificativaRequired == JustificativaRequired(instancePk, instanceStatus)
      ensures cleanedData == data
    {
      if instancePk.Some? && instanceStatus.Some? && instanceStatus.value.requerJustificativa {
        justificativaRequired := true;
      } else {
        justificativaRequired := false;
      }
      cleanedData := data;
    }

    /** `clean`: raises before touching the data, or rewrites `tags` and `cc`. */
    method CleanData() returns (res: Result<()>)
      modifies this`cleanedData
      ensures var r := Clean(old(cleanedData));
              res == (if r.Ok? then Ok(()) else Err(r.error))
              && cleanedData == (if r.Ok? then r.value else old(cleanedData))
    {
      var d := cleanedData;
      if !UrgenciaAllowed(d) {
        return Err("A urgência '" + d.urgencia.value.nome + "' não é permitida para a categoria '" + d.categoria.value.nome + "'");
      }
      if !JustificativaGiven(d) {
        return Err("O status '" + StatusLabel(d.status.value) + "' requer uma justificativa");
      }
      if d.tags.Text? {
        cleanedData := cleanedData.(tags := Items(CommaItems(d.tags.text)));
      }
      if d.cc.Text? {
        cleanedData := cleanedData.(cc := Items(CommaItems(d.cc.text)));
      }
      return Ok(());
    }
  }

  // ---------------------------------------------------------------- attachments

  const MaxUploadBytes: nat := 25 * 1024 * 1024

  /** `AnexoTicketForm.clean_arquivo`; `size` is None when no file was sent. */
  function CleanArquivo(size: Option<nat>): (r: Result<Option<nat>>)
    ensures r.Err? <==> size.Some? && size.value > MaxUploadBytes
    ensures r.Ok? ==> r.value == size
  {
    if size.Some? && size.value > 25 * 1024 * 1024 then Err("O arquivo não pode exceder 25MB")
    else Ok(size)
  }

  /** The limit is inclusive: a file of exactly 25 MiB passes, one byte more fails. */
  lemma ArquivoLimitInclusive()
    ensures CleanArquivo(Some(26214400)).Ok? && CleanArquivo(Some(26214401)).Err?
  {
  }

  // ---------------------------------------------------------------- merge

  /** Position of the first FECHADO ticket of the selection. */
  function FirstClosed(ts: seq<TicketState>): (k: Option<nat>)
    ensures k.Some? ==> k.value < |ts| && ts[k.value].status.base == Fechado
                        && forall i :: 0 <= i < k.value ==> ts[i].status.base != Fechado
    ensures k.None? ==> forall i :: 0 <= i < |ts| ==> ts[i].status.base != Fechado
  {
    if ts == [] then None
    else if ts[0].status.base == Fechado then Some(0)
    else match FirstClosed(ts[1..])
      case None => None
      case Some(k) => Some(k + 1)
  }

  /** `MesclarTicketsForm.clean_tickets_mesclar`. */
  function CleanTicketsMesclar(ts: seq<TicketState>): (r: Result<seq<TicketState>>)
    ensures r.Ok? <==> ts != [] && forall i :: 0 <= i < |ts| ==> ts[i].status.base != Fechado
    ensures r.Ok? ==> r.value == ts
    ensures ts != [] && r.Err? ==>
              r.error == "Não é possível mesclar o ticket #" + ts[FirstClosed(ts).value].numero + " porque ele está fechado"
  {
    if ts == [] then Err("Selecione pelo menos um ticket para mesclar")
    else match FirstClosed(ts)
      case Some(k) => Err("Não é possível mesclar o ticket #" + ts[k].numero + " porque ele está fechado")
      case None => Ok(ts)
  }
}
