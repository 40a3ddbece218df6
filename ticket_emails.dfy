/**
 * The mailbox command that turns incoming e-mail into tickets and ticket
 * actions: subject cleaning, the ticket lookup that threads a reply onto
 * an existing ticket, body cleaning, username derivation for unknown
 * senders, header decoding, the duplicate window, the attachment size
 * filter and the status change a requester's reply triggers.
 *
 * Regular expressions are hand-coded for the few patterns used; `\d` and
 * `\s` are ASCII digits and whitespace.  Instants are whole seconds.
 */
module TicketEmails {
  import opened Wrappers
  import opened Text
  import opened TicketModels

  // ---------------------------------------------------------------- subject

  /** The reply/forward prefixes, lower-cased: `Re:|RE:|Fwd:|FW:|RES:|ENC:` under IGNORECASE. */
  const ReplyPrefixes: seq<string> := ["re:", "fwd:", "fw:", "res:", "enc:"]

  /** The first alternative, from the `k`-th on, that `s` starts with (the regex tries them in order). */
  function FirstPrefix(s: string, k: nat): (r: Option<nat>)
    ensures r.Some? ==> k <= r.value < |ReplyPrefixes| && IStartsWith(s, ReplyPrefixes[r.value])
                        && forall j :: k <= j < r.value ==> !IStartsWith(s, ReplyPrefixes[j])
    ensures r.None? ==> forall j :: k <= j < |ReplyPrefixes| ==> !IStartsWith(s, ReplyPrefixes[j])
    decreases |ReplyPrefixes| - k
  {
    if k >= |ReplyPrefixes| then None
    else if IStartsWith(s, ReplyPrefixes[k]) then Some(k)
    else FirstPrefix(s, k + 1)
  }

  /** Length of the reply prefix `s` starts with (case-insensitively), 0 if none. */
  function ReplyPrefixLength(s: string): (n: nat)
    ensures n <= |s|
    ensures n == 0 <==> forall k :: 0 <= k < |ReplyPrefixes| ==> !IStartsWith(s, ReplyPrefixes[k])
    ensures n > 0 ==> exists k :: 0 <= k < |ReplyPrefixes| && |ReplyPrefixes[k]| == n && IStartsWith(s, ReplyPrefixes[k])
  {
    match FirstPrefix(s, 0)
    case Some(k) => |ReplyPrefixes[k]|
    case None => 0
  }

  /** No string starts with two different alternatives: their first three characters differ. */
  lemma PrefixesExclusive(s: string, j: nat, k: nat)
    requires j < |ReplyPrefixes| && k < |ReplyPrefixes|
    requires IStartsWith(s, ReplyPrefixes[j]) && IStartsWith(s, ReplyPrefixes[k])
    ensures j == k
  {
    var a, b := ReplyPrefixes[j], ReplyPrefixes[k];
    assert a[0] == LowerChar(s[0]) == b[0];
    assert a[1] == LowerChar(s[1]) == b[1];
    assert a[2] == LowerChar(s[2]) == b[2];
  }

  /** `re.sub(r'^(Re:|...)\s*', '', s, flags=re.IGNORECASE)`: one prefix and the blanks after it. */
  function StripReplyPrefix(s: string): (r: string)
    ensures |r| <= |s|
    ensures ReplyPrefixLength(s) == 0 ==> r == s
  {
    var n := ReplyPrefixLength(s);
    if n > 0 then TrimLeft(s[n..]) else s
  }

  /**
   * The prefix `p` (any case variant of one of the alternatives) and the
   * blanks after it go, once; what follows is kept verbatim.
   */
  lemma ReplyPrefixRemovedOnce(k: nat, p: string, blanks: string, rest: string)
    requires k < |ReplyPrefixes| && |p| == |ReplyPrefixes[k]| && IStartsWith(p, ReplyPrefixes[k])
    requires AllSpace(blanks)
    requires rest == [] || !IsSpace(rest[0])
    ensures StripReplyPrefix(p + blanks + rest) == rest
  {
    var s := p + blanks + rest;
    assert s == p + (blanks + rest);
    PrefixLengthOf(k, p, blanks + rest);
    assert s[|p|..] == blanks + rest;
    TrimLeftBlanks(blanks, rest);
    assert StripReplyPrefix(s) == TrimLeft(s[|p|..]);
  }

  /** A string that starts with a reply prefix is recognised with exactly that prefix's length. */
  lemma PrefixLengthOf(k: nat, p: string, tail: string)
    requires k < |ReplyPrefixes| && |p| == |ReplyPrefixes[k]| && IStartsWith(p, ReplyPrefixes[k])
    ensures ReplyPrefixLength(p + tail) == |p|
  {
    var s := p + tail;
    assert forall i :: 0 <= i < |p| ==> s[i] == p[i];
    assert IStartsWith(s, ReplyPrefixes[k]);
    var m := FirstPrefix(s, 0);
    PrefixesExclusive(s, m.value, k);
  }

  lemma {:induction false} TrimLeftBlanks(blanks: string, rest: string)
    requires AllSpace(blanks)
    requires rest == [] || !IsSpace(rest[0])
    ensures TrimLeft(blanks + rest) == rest
    decreases |blanks|
  {
    if blanks != [] {
      assert (blanks + rest)[1..] == blanks[1..] + rest;
      TrimLeftBlanks(blanks[1..], rest);
    } else {
      assert blanks + rest == rest;
    }
  }

  /** `[Ticket #DDDD-DDDDDD]`, matched case-insensitively. */
  predicate IsTag(t: string) {
    |t| == 21 && IStartsWith(t, "[ticket #")
    && AllDigits(t[9..13]) && t[13] == '-' && AllDigits(t[14..20]) && t[20] == ']'
  }

  /** A tag starts `s`. */
  predicate TagAt(s: string) { 21 <= |s| && IsTag(s[..21]) }

  /** `re.sub(r'\[Ticket #\d{4}-\d{6}\]\s*', '', s, flags=re.IGNORECASE)`: every tag, left to right. */
  function RemoveTags(s: string): (r: string)
    ensures |r| <= |s|
    decreases |s|
  {
    if s == [] then []
    else if TagAt(s) then RemoveTags(TrimLeft(s[21..]))
    else [s[0]] + RemoveTags(s[1..])
  }

  /** A subject without '[' holds no tag and is left as it is. */
  lemma {:induction false} RemoveTagsNoBracket(s: string)
    requires '[' !in s
    ensures RemoveTags(s) == s
  {
    if s != [] {
      assert s[0] != '[';
      assert !TagAt(s);
      assert '[' !in s[1..];
      RemoveTagsNoBracket(s[1..]);
    }
  }

  /** Removing a tag drops exactly the tag and the blanks after it. */
  lemma RemoveTagsAtTag(tag: string, blanks: string, rest: string)
    requires IsTag(tag)
    requires AllSpace(blanks)
    requires rest == [] || !IsSpace(rest[0])
    ensures RemoveTags(tag + blanks + rest) == RemoveTags(rest)
  {
    var s := tag + (blanks + rest);
    assert tag + blanks + rest == s;
    assert s[..21] == tag;
    assert s[21..] == blanks + rest;
    TrimLeftBlanks(blanks, rest);
  }

  /** `clean_subject`. */
  function CleanSubject(subject: string): string
  {
    Strip(RemoveTags(StripReplyPrefix(subject)))
  }

  /** Only one prefix goes: "Re: Re: x" keeps its second "Re:". */
  lemma CleanSubjectRemovesOnePrefix()
    ensures CleanSubject("Re: Re: x") == "Re: x"
  {
    StripOnePrefixExample();
    CleanRestExample();
  }

  lemma StripOnePrefixExample()
    ensures StripReplyPrefix("Re: Re: x") == "Re: x"
  {
    assert IStartsWith("Re:", ReplyPrefixes[0]);
    ReplyPrefixRemovedOnce(0, "Re:", " ", "Re: x");
    assert "Re:" + " " + "Re: x" == "Re: Re: x";
  }

  lemma CleanRestExample()
    ensures Strip(RemoveTags("Re: x")) == "Re: x"
  {
    assert '[' !in "Re: x";
    RemoveTagsNoBracket("Re: x");
    assert TrimLeft("Re: x") == "Re: x";
    assert TrimRight("Re: x") == "Re: x";
  }

  // ---------------------------------------------------------------- ticket number in the subject

  /** `#DDDD-DDDDDD` starts at position `i`. */
  predicate NumberAt(s: string, i: nat) {
    i + 12 <= |s| && s[i] == '#' && AllDigits(s[i + 1..i + 5]) && s[i + 5] == '-' && AllDigits(s[i + 6..i + 12])
  }

  /** The leftmost position at or after `from` where the number pattern matches. */
  function FindNumberFrom(s: string, from: nat): (k: Option<nat>)
    ensures k.Some? ==> from <= k.value && NumberAt(s, k.value)
                        && forall j :: from <= j < k.value ==> !NumberAt(s, j)
    ensures k.None? ==> forall j :: from <= j ==> !NumberAt(s, j)
    decreases |s| - from
  {
    if from + 12 > |s| then None
    else if NumberAt(s, from) then Some(from)
    else FindNumberFrom(s, from + 1)
  }

  /** `re.search(r'#(\d{4}-\d{6})', subject).group(1)`. */
  function SubjectNumber(subject: string): (r: Option<string>)
    ensures r.Some? ==> |r.value| == 11 && exists k :: NumberAt(subject, k) && r.value == subject[k + 1..k + 12]
    ensures r.None? <==> forall j :: !NumberAt(subject, j)
  {
    match FindNumberFrom(subject, 0)
    case None => None
    case Some(k) => Some(subject[k + 1..k + 12])
  }

  // ---------------------------------------------------------------- ticket lookup

  /** What the lookup sees of a ticket row. */
  datatype MailTicket = MailTicket(
    numero: string, messageId: Option<string>, assunto: string,
    solicitanteEmail: string, criadoEm: int, base: StatusBase)

  /** `Ticket.objects.get(numero=...)`, None on DoesNotExist. */
  function TicketByNumero(tickets: seq<MailTicket>, numero: string): (r: Option<MailTicket>)
    ensures r.Some? ==> r.value in tickets && r.value.numero == numero
    ensures r.None? ==> forall t :: t in tickets ==> t.numero != numero
  {
    if tickets == [] then None
    else if tickets[0].numero == numero then Some(tickets[0])
    else TicketByNumero(tickets[1..], numero)
  }

  /** `Ticket.objects.filter(tags__email_message_id=id).first()`. */
  function TicketByMessageId(tickets: seq<MailTicket>, id: string): (r: Option<MailTicket>)
    ensures r.Some? ==> r.value in tickets && r.value.messageId == Some(id)
    ensures r.None? ==> forall t :: t in tickets ==> t.messageId != Some(id)
  {
    if tickets == [] then None
    else if tickets[0].messageId == Some(id) then Some(tickets[0])
    else TicketByMessageId(tickets[1..], id)
  }

  /** The References ids tried left to right; the first one that names a ticket wins. */
  function TicketByReferences(tickets: seq<MailTicket>, ids: seq<string>): (r: Option<MailTicket>)
    ensures r.Some? ==> r.value in tickets
                        && exists i :: 0 <= i < |ids| && r.value.messageId == Some(ids[i])
                                       && forall j, t :: 0 <= j < i && t in tickets ==> t.messageId != Some(ids[j])
    ensures r.None? ==> forall i, t :: 0 <= i < |ids| && t in tickets ==> t.messageId != Some(ids[i])
  {
    if ids == [] then None
    else match TicketByMessageId(tickets, ids[0])
      case Some(t) => Some(t)
      case None =>
        var r := TicketByReferences(tickets, ids[1..]);
        assert r.Some? ==> exists i :: 0 <= i < |ids| && r.value.messageId == Some(ids[i])
                                       && forall j, t :: 0 <= j < i && t in tickets ==> t.messageId != Some(ids[j]) by {
          if r.Some? {
            var i :| 0 <= i < |ids[1..]| && r.value.messageId == Some(ids[1..][i])
                     && forall j, t :: 0 <= j < i && t in tickets ==> t.messageId != Some(ids[1..][j]);
            assert ids[1..][i] == ids[i + 1];
            assert forall j :: 1 <= j < i + 1 ==> ids[j] == ids[1..][j - 1];
          }
        }
        r
  }

  const SevenDays: int := 7 * 24 * 3600
  const OneDay: int := 24 * 3600

  /** The filter of the similar-subject search (method 4). */
  predicate SimilarRecent(t: MailTicket, clean: string, fromEmail: string, cutoff: int) {
    IContains(t.assunto, Take(clean, 100)) && t.solicitanteEmail == fromEmail && t.criadoEm >= cutoff
    && t.base != Fechado && t.base != Cancelado
  }

  /** The newest ticket passing the filter (the first of equally new ones). */
  function NewestSimilar(tickets: seq<MailTicket>, clean: string, fromEmail: string, cutoff: int): (r: Option<MailTicket>)
    ensures r.Some? ==> r.value in tickets && SimilarRecent(r.value, clean, fromEmail, cutoff)
                        && forall t :: t in tickets && SimilarRecent(t, clean, fromEmail, cutoff) ==> t.criadoEm <= r.value.criadoEm
    ensures r.None? ==> forall t :: t in tickets ==> !SimilarRecent(t, clean, fromEmail, cutoff)
  {
    if tickets == [] then None
    else
      var rest := NewestSimilar(tickets[1..], clean, fromEmail, cutoff);
      assert forall t :: t in tickets ==> t == tickets[0] || t in tickets[1..];
      if !SimilarRecent(tickets[0], clean, fromEmail, cutoff) then rest
      else if rest.Some? && rest.value.criadoEm > tickets[0].criadoEm then rest
      else Some(tickets[0])
  }

  /** How a reply was threaded onto a ticket. */
  datatype Lookup =
    | ByNumberInSubject(ticket: MailTicket)
    | ByInReplyTo(ticket: MailTicket)
    | ByReferences(ticket: MailTicket)
    | BySimilarSubject(ticket: MailTicket)
    | NotFound

  /** Method 1: the `#YYYY-NNNNNN` number in the subject names a ticket. */
  function ByNumber(subject: string, tickets: seq<MailTicket>): (r: Option<MailTicket>)
    ensures r.Some? ==> r.value in tickets && SubjectNumber(subject) == Some(r.value.numero)
    ensures r.None? ==> forall t :: t in tickets ==> SubjectNumber(subject) != Some(t.numero)
  {
    match SubjectNumber(subject)
    case Some(n) => TicketByNumero(tickets, n)
    case None => None
  }

  /** Method 2: the In-Reply-To header names a ticket's Message-ID. */
  function ByReply(inReplyTo: string, tickets: seq<MailTicket>): (r: Option<MailTicket>)
    ensures r.Some? ==> inReplyTo != [] && r.value in tickets && r.value.messageId == Some(inReplyTo)
    ensures r.None? ==> inReplyTo == [] || forall t :: t in tickets ==> t.messageId != Some(inReplyTo)
  {
    if inReplyTo != [] then TicketByMessageId(tickets, inReplyTo) else None
  }

  /** Method 3: one of the References ids names a ticket. */
  function ByRefs(references: string, tickets: seq<MailTicket>): (r: Option<MailTicket>)
    ensures r.Some? ==> references != [] && r.value in tickets
                        && exists i :: 0 <= i < |Words(references)| && r.value.messageId == Some(Words(references)[i])
                                       && forall j, t :: 0 <= j < i && t in tickets ==> t.messageId != Some(Words(references)[j])
    ensures r.None? ==> references == [] || forall i, t :: 0 <= i < |Words(references)| && t in tickets
                                                         ==> t.messageId != Some(Words(references)[i])
  {
    if references != [] then TicketByReferences(tickets, Words(references)) else None
  }

  /** `find_existing_ticket`: the four methods, in order; the first that finds a ticket wins. */
  function FindExistingTicket(subject: string, inReplyTo: string, references: string, fromEmail: string,
                              tickets: seq<MailTicket>, now: int): Lookup
  {
    if ByNumber(subject, tickets).Some? then ByNumberInSubject(ByNumber(subject, tickets).value)
    else if ByReply(inReplyTo, tickets).Some? then ByInReplyTo(ByReply(inReplyTo, tickets).value)
    else if ByRefs(references, tickets).Some? then ByReferences(ByRefs(references, tickets).value)
    else match NewestSimilar(tickets, CleanSubject(subject), fromEmail, now - SevenDays)
      case Some(t) => BySimilarSubject(t)
      case None => NotFound
  }

  /** A number in the subject that names a ticket wins over every header. */
  lemma LookupNumberWins(subject: string, inReplyTo: string, references: string, fromEmail: string,
                         tickets: seq<MailTicket>, now: int, t: MailTicket)
    requires t in tickets && SubjectNumber(subject) == Some(t.numero)
    ensures var r := FindExistingTicket(subject, inReplyTo, references, fromEmail, tickets, now);
            r.ByNumberInSubject? && r.ticket.numero == t.numero
  {
  }

  /**
   * In-Reply-To is consulted only when the subject names no ticket (an
   * unknown number falls through), and then the ticket it names wins.
   */
  lemma LookupInReplyTo(subject: string, inReplyTo: string, references: string, fromEmail: string,
                        tickets: seq<MailTicket>, now: int, t: MailTicket)
    requires forall x :: x in tickets ==> SubjectNumber(subject) != Some(x.numero)
    requires inReplyTo != [] && t in tickets && t.messageId == Some(inReplyTo)
    ensures var r := FindExistingTicket(subject, inReplyTo, references, fromEmail, tickets, now);
            r.ByInReplyTo? && r.ticket.messageId == Some(inReplyTo)
  {
  }

  /** References are consulted only when In-Reply-To names no ticket. */
  lemma LookupReferencesAfterReply(subject: string, inReplyTo: string, references: string, fromEmail: string,
                                   tickets: seq<MailTicket>, now: int)
    ensures var r := FindExistingTicket(subject, inReplyTo, references, fromEmail, tickets, now);
            r.ByReferences? ==>
              references != [] && (inReplyTo == [] || forall t :: t in tickets ==> t.messageId != Some(inReplyTo))
              && exists i :: 0 <= i < |Words(references)| && r.ticket.messageId == Some(Words(references)[i])
                             && forall j, t :: 0 <= j < i && t in tickets ==> t.messageId != Some(Words(references)[j])
  {
  }

  /**
   * The similar-subject search runs only when no header names a ticket; it
   * yields the newest open ticket of the same sender from the last seven
   * days whose subject contains the cleaned subject.
   */
  lemma LookupSimilarLast(subject: string, inReplyTo: string, references: string, fromEmail: string,
                          tickets: seq<MailTicket>, now: int)
    ensures var r := FindExistingTicket(subject, inReplyTo, references, fromEmail, tickets, now);
            r.BySimilarSubject? ==>
              (inReplyTo == [] || forall t :: t in tickets ==> t.messageId != Some(inReplyTo))
              && (references == [] || forall i, t :: 0 <= i < |Words(references)| && t in tickets
                                                     ==> t.messageId != Some(Words(references)[i]))
              && SimilarRecent(r.ticket, CleanSubject(subject), fromEmail, now - SevenDays)
              && forall t :: t in tickets && SimilarRecent(t, CleanSubject(subject), fromEmail, now - SevenDays)
                             ==> t.criadoEm <= r.ticket.criadoEm
  {
  }

  /** Nothing is found only when no open ticket of the sender from the last seven days is similar. */
  lemma {:induction false} LookupNotFound(subject: string, inReplyTo: string, references: string,
                                          fromEmail: string, tickets: seq<MailTicket>, now: int)
    ensures FindExistingTicket(subject, inReplyTo, references, fromEmail, tickets, now).NotFound? ==>
              forall t :: t in tickets ==> !SimilarRecent(t, CleanSubject(subject), fromEmail, now - SevenDays)
  {
    var found := NewestSimilar(tickets, CleanSubject(subject), fromEmail, now - SevenDays);
    if found.Some? && ByNumber(subject, tickets).None? && ByReply(inReplyTo, tickets).None?
       && ByRefs(references, tickets).None? {
      assert FindExistingTicket(subject, inReplyTo, references, fromEmail, tickets, now)
          == BySimilarSubject(found.value);
    }
  }

  // ---------------------------------------------------------------- duplicate window

  /** `is_duplicate`: the `.exists()` scan over the ticket table. */
  function IsDuplicate(subject: string, fromEmail: string, tickets: seq<MailTicket>, now: int): (b: bool)
    ensures b <==> exists t :: t in tickets && IContains(t.assunto, Take(subject, 100))
                              && t.solicitanteEmail == fromEmail && t.criadoEm >= now - OneDay
  {
    if tickets == [] then false
    else
      var t := tickets[0];
      assert forall x :: x in tickets ==> x == t || x in tickets[1..];
      (IContains(t.assunto, Take(subject, 100)) && t.solicitanteEmail == fromEmail && t.criadoEm >= now - OneDay)
      || IsDuplicate(subject, fromEmail, tickets[1..], now)
  }

  // ---------------------------------------------------------------- body

  /** The first position at or after `from` where `sep` occurs in `s`, or `|s|`. */
  function FindFrom(s: string, sep: string, from: nat): (k: nat)
    requires sep != [] && from <= |s|
    ensures from <= k <= |s|
    ensures k < |s| ==> OccursAt(s, sep, k)
    ensures forall j :: from <= j < k ==> !OccursAt(s, sep, j)
    ensures k == |s| ==> forall j :: from <= j ==> !OccursAt(s, sep, j)
    decreases |s| - from
  {
    if from + |sep| > |s| then |s|
    else if OccursAt(s, sep, from) then from
    else FindFrom(s, sep, from + 1)
  }

  /** `s.split(sep)[0]`: everything before the first occurrence of `sep`. */
  function Before(s: string, sep: string): (r: string)
    requires sep != []
    ensures StartsWith(s, r)
    ensures forall j :: 0 <= j < |r| ==> !OccursAt(s, sep, j)
    ensures |r| < |s| ==> OccursAt(s, sep, |r|)
    ensures !Contains(s, sep) ==> r == s
  {
    var k := FindFrom(s, sep, 0);
    s[..k]
  }

  /** RFC 3676 section 4.3 signature separator, framed by the newlines around it. */
  const SignatureSeparator: string := "\n-- \n"

  /** `line.strip().startswith('>')`. */
  predicate IsQuoteLine(line: string) { StartsWith(Strip(line), ">") }

  /** `re.match(r'^(On|Em) .* wrote:', line)`. */
  predicate IsReplyHeader(line: string) {
    (StartsWith(line, "On ") || StartsWith(line, "Em ")) && Contains(line[3..], " wrote:")
  }

  /** The lines the body keeps: quotes skipped, everything from the first reply header dropped. */
  function KeptLines(lines: seq<string>): (r: seq<string>)
  {
    if lines == [] then []
    else if IsQuoteLine(lines[0]) then KeptLines(lines[1..])
    else if IsReplyHeader(lines[0]) then []
    else [lines[0]] + KeptLines(lines[1..])
  }

  /** Every kept line is a line of the body that is neither a quote nor a reply header. */
  lemma {:induction false} KeptLinesFiltered(lines: seq<string>)
    ensures forall x :: x in KeptLines(lines) ==> x in lines && !IsQuoteLine(x) && !IsReplyHeader(x)
  {
    if lines != [] {
      KeptLinesFiltered(lines[1..]);
      assert forall x :: x in lines[1..] ==> x in lines;
    }
  }

  /** Nothing after the first (unquoted) reply header survives. */
  lemma {:induction false} KeptLinesStopAtHeader(lines: seq<string>, k: nat, rest: seq<string>)
    requires k < |lines| && IsReplyHeader(lines[k]) && !IsQuoteLine(lines[k])
    ensures KeptLines(lines[..k + 1] + rest) == KeptLines(lines[..k])
  {
    if k == 0 {
      assert (lines[..1] + rest)[0] == lines[0];
    } else {
      var whole := lines[..k + 1] + rest;
      assert whole[0] == lines[0];
      assert whole[1..] == lines[1..][..k] + rest;
      assert lines[..k][1..] == lines[1..][..k - 1];
      KeptLinesStopAtHeader(lines[1..], k - 1, rest);
    }
  }

  /** One step of `KeptLines` taken from position `i`. */
  lemma KeptLinesStep(lines: seq<string>, i: nat)
    requires i < |lines|
    ensures KeptLines(lines[i..])
         == if IsQuoteLine(lines[i]) then KeptLines(lines[i + 1..])
            else if IsReplyHeader(lines[i]) then []
            else [lines[i]] + KeptLines(lines[i + 1..])
  {
    assert lines[i..][1..] == lines[i + 1..];
  }

  /** `clean_email_body` as a value. */
  function CleanedBody(body: string): string {
    Strip(Join(KeptLines(SplitOn(Before(body, SignatureSeparator), '\n')), "\n"))
  }

  /** The line loop of `clean_email_body`, with its `continue` and `break`. */
  method KeepLines(lines: seq<string>) returns (cleaned: seq<string>)
    ensures cleaned == KeptLines(lines)
  {
    cleaned := [];
    var i := 0;
    while i < |lines|
      invariant 0 <= i <= |lines|
      invariant cleaned + KeptLines(lines[i..]) == KeptLines(lines)
    {
      var line := lines[i];
      KeptLinesStep(lines, i);
      if IsQuoteLine(line) {
        i := i + 1;
        continue;
      }
      if IsReplyHeader(line) {
        assert cleaned + [] == cleaned;
        return;
      }
      assert cleaned + KeptLines(lines[i..]) == (cleaned + [line]) + KeptLines(lines[i + 1..]);
      cleaned := cleaned + [line];
      i := i + 1;
    }
  }

  /** `clean_email_body`: the signature cut, the line loop, the join and the strip. */
  method CleanEmailBody(body: string) returns (r: string)
    ensures r == CleanedBody(body)
  {
    var text := body;
    if Contains(body, SignatureSeparator) {
      text := Before(body, SignatureSeparator);
    }
    var cleaned := KeepLines(SplitOn(text, '\n'));
    r := Strip(Join(cleaned, "\n"));
  }

  // ---------------------------------------------------------------- unknown senders

  /** The n-th username tried for a base: the base itself, then base1, base2, ... */
  function Candidate(base: string, n: nat): string {
    if n == 0 then base else base + NatToString(n)
  }

  lemma CandidatesDistinct(base: string, a: nat, b: nat)
    requires Candidate(base, a) == Candidate(base, b)
    ensures a == b
  {
    if a != 0 && b != 0 {
      assert Candidate(base, a)[|base|..] == NatToString(a);
      assert Candidate(base, b)[|base|..] == NatToString(b);
      NatToStringInjective(a, b);
    }
  }

  /** `email_address.split('@')[0]`. */
  function LocalPart(email: string): string {
    SplitOn(email, '@')[0]
  }

  /**
   * The username loop of `get_or_create_user`: the first candidate not
   * already taken.
   */
  method UniqueUsername(email: string, taken: set<string>) returns (username: string)
    ensures username !in taken
    ensures exists n: nat :: username == Candidate(LocalPart(email), n)
              && forall j: nat :: j < n ==> Candidate(LocalPart(email), j) in taken
    ensures LocalPart(email) !in taken ==> username == LocalPart(email)
  {
    var base := LocalPart(email);
    username := base;
    var counter: nat := 1;
    ghost var seen: set<string> := {};
    while username in taken
      invariant username == Candidate(base, counter - 1)
      invariant seen <= taken
      invariant forall j: nat :: j < counter - 1 ==> Candidate(base, j) in seen
      invariant forall x :: x in seen ==> exists j: nat :: j < counter - 1 && x == Candidate(base, j)
      decreases |taken - seen|
    {
      assert username !in seen by {
        if username in seen {
          var j: nat :| j < counter - 1 && username == Candidate(base, j);
          CandidatesDistinct(base, j, counter - 1);
        }
      }
      assert taken - (seen + {username}) < taken - seen;
      forall j: nat | j < counter
        ensures Candidate(base, j) in seen + {username}
      {
        if j == counter - 1 {
          assert Candidate(base, j) == username;
        }
      }
      seen := seen + {username};
      username := base + NatToString(counter);
      assert username == Candidate(base, counter);
      counter := counter + 1;
    }
  }

  // ---------------------------------------------------------------- header decoding

  /** One piece of `email.header.decode_header(value)`. */
  datatype HeaderPart = TextPart(text: string) | BytesPart(data: seq<bv8>, charset: Option<string>)

  /**
   * `part.decode(encoding or 'utf-8')`, falling back to the lossy UTF-8
   * decoding when the codec fails; the codecs themselves are parameters.
   */
  function DecodePart(p: HeaderPart, decode: (seq<bv8>, string) -> Option<string>, lossy: seq<bv8> -> string): string {
    match p
    case TextPart(t) => t
    case BytesPart(data, cs) =>
      var enc := if cs.Some? && cs.value != [] then cs.value else "utf-8";
      match decode(data, enc)
      case Some(s) => s
      case None => lossy(data)
  }

  function DecodeParts(ps: seq<HeaderPart>, decode: (seq<bv8>, string) -> Option<string>, lossy: seq<bv8> -> string): (r: seq<string>)
    ensures |r| == |ps|
    ensures forall i :: 0 <= i < |ps| ==> r[i] == DecodePart(ps[i], decode, lossy)
  {
    if ps == [] then [] else [DecodePart(ps[0], decode, lossy)] + DecodeParts(ps[1..], decode, lossy)
  }

  /**
   * `decode_header_value`: '' for an empty header, otherwise the decoded
   * pieces joined by single spaces; `parts` is what `decode_header`
   * returned for `value`.
   */
  method DecodeHeaderValue(value: string, parts: seq<HeaderPart>,
                           decode: (seq<bv8>, string) -> Option<string>, lossy: seq<bv8> -> string)
    returns (r: string)
    ensures value == [] ==> r == []
    ensures value != [] ==> r == Join(DecodeParts(parts, decode, lossy), " ")
  {
    if value == [] {
      return [];
    }
    var pieces: seq<string> := [];
    var i := 0;
    while i < |parts|
      invariant 0 <= i <= |parts|
      invariant pieces == DecodeParts(parts[..i], decode, lossy)
    {
      assert parts[..i + 1] == parts[..i] + [parts[i]];
      DecodePartsSnoc(parts[..i], parts[i], decode, lossy);
      pieces := pieces + [DecodePart(parts[i], decode, lossy)];
      i := i + 1;
    }
    assert parts[..|parts|] == parts;
    r := Join(pieces, " ");
  }

  lemma DecodePartsSnoc(ps: seq<HeaderPart>, p: HeaderPart,
                        decode: (seq<bv8>, string) -> Option<string>, lossy: seq<bv8> -> string)
    ensures DecodeParts(ps + [p], decode, lossy) == DecodeParts(ps, decode, lossy) + [DecodePart(p, decode, lossy)]
  {
  }

  /** Space-free plain pieces come back out of the joined header one by one. */
  lemma DecodedHeaderSplits(ts: seq<string>, decode: (seq<bv8>, string) -> Option<string>, lossy: seq<bv8> -> string)
    requires |ts| >= 1 && forall i :: 0 <= i < |ts| ==> ' ' !in ts[i]
    ensures var parts := seq(|ts|, i requires 0 <= i < |ts| => TextPart(ts[i]));
            SplitOn(Join(DecodeParts(parts, decode, lossy), " "), ' ') == ts
  {
    var parts := seq(|ts|, i requires 0 <= i < |ts| => TextPart(ts[i]));
    assert DecodeParts(parts, decode, lossy) == ts;
    SplitJoin(ts, ' ');
  }

  // ---------------------------------------------------------------- attachments

  const MaxAttachmentBytes: int := 25 * 1024 * 1024

  /**
   * A MIME part as the attachment loop sees it; `filenameParts` is what
   * `decode_header` returns for its file name.
   */
  datatype MailPart = MailPart(disposition: Option<string>, filename: Option<string>,
                               filenameParts: seq<HeaderPart>, payload: seq<bv8>)

  /** An `AnexoTicket` row created from a part. */
  datatype Anexo = Anexo(nomeOriginal: string, tamanho: nat)

  /** `"attachment" in str(part.get("Content-Disposition"))` and a non-empty filename. */
  predicate IsAttachment(p: MailPart) {
    var disposition := if p.disposition.Some? then p.disposition.value else "None";
    Contains(disposition, "attachment") && p.filename.Some? && p.filename.value != []
  }

  /** The stored name of an attachment: its file name through `decode_header_value`. */
  function AttachmentName(p: MailPart, decode: (seq<bv8>, string) -> Option<string>, lossy: seq<bv8> -> string): string
    requires IsAttachment(p)
  {
    Join(DecodeParts(p.filenameParts, decode, lossy), " ")
  }

  /** The rows the attachment loop creates, in part order. */
  function StoredAttachments(parts: seq<MailPart>, decode: (seq<bv8>, string) -> Option<string>, lossy: seq<bv8> -> string)
    : (r: seq<Anexo>)
    ensures forall a :: a in r <==> exists p :: p in parts && IsAttachment(p) && |p.payload| <= MaxAttachmentBytes
                                                 && a == Anexo(AttachmentName(p, decode, lossy), |p.payload|)
  {
    if parts == [] then []
    else
      var p := parts[0];
      var rest := StoredAttachments(parts[1..], decode, lossy);
      assert forall q :: q in parts ==> q == p || q in parts[1..];
      if IsAttachment(p) && |p.payload| <= MaxAttachmentBytes then [Anexo(AttachmentName(p, decode, lossy), |p.payload|)] + rest
      else rest
  }

  /** Every stored attachment is within 25 MiB and records its byte length. */
  lemma StoredAttachmentsBounded(parts: seq<MailPart>, decode: (seq<bv8>, string) -> Option<string>, lossy: seq<bv8> -> string)
    ensures forall a :: a in StoredAttachments(parts, decode, lossy) ==> a.tamanho <= MaxAttachmentBytes
  {
  }

  /** The rows of one more part come after those of the parts before it. */
  lemma {:induction false} StoredAttachmentsSnoc(ps: seq<MailPart>, p: MailPart,
                                                 decode: (seq<bv8>, string) -> Option<string>, lossy: seq<bv8> -> string)
    ensures StoredAttachments(ps + [p], decode, lossy)
            == StoredAttachments(ps, decode, lossy)
               + (if IsAttachment(p) && |p.payload| <= MaxAttachmentBytes then [Anexo(AttachmentName(p, decode, lossy), |p.payload|)] else [])
  {
    if ps != [] {
      assert (ps + [p])[1..] == ps[1..] + [p];
      StoredAttachmentsSnoc(ps[1..], p, decode, lossy);
    }
  }

  /** The attachment loop of `process_attachments` / `add_action_to_ticket`, over `walk()` in order. */
  method ProcessAttachments(parts: seq<MailPart>, decode: (seq<bv8>, string) -> Option<string>, lossy: seq<bv8> -> string)
    returns (anexos: seq<Anexo>)
    ensures anexos == StoredAttachments(parts, decode, lossy)
  {
    anexos := [];
    var i := 0;
    while i < |parts|
      invariant 0 <= i <= |parts|
      invariant anexos == StoredAttachments(parts[..i], decode, lossy)
    {
      var p := parts[i];
      assert parts[..i + 1] == parts[..i] + [p];
      StoredAttachmentsSnoc(parts[..i], p, decode, lossy);
      if IsAttachment(p) && |p.payload| <= MaxAttachmentBytes {
        var name := DecodeHeaderValue(p.filename.value, p.filenameParts, decode, lossy);
        anexos := anexos + [Anexo(name, |p.payload|)];
      }
      i := i + 1;
    }
    assert parts[..|parts|] == parts;
  }

  // ---------------------------------------------------------------- replies

  /** `Status.objects.filter(cliente=..., status_base=...).first()`. */
  function FirstStatus(statuses: seq<Status>, cliente: nat, base: StatusBase): (r: Option<Status>)
    ensures r.Some? ==> r.value in statuses && r.value.cliente == cliente && r.value.base == base
    ensures r.None? ==> forall s :: s in statuses ==> !(s.cliente == cliente && s.base == base)
  {
    if statuses == [] then None
    else if statuses[0].cliente == cliente && statuses[0].base == base then Some(statuses[0])
    else FirstStatus(statuses[1..], cliente, base)
  }

  /**
   * The status a reply moves a ticket to: only the requester's reply to a
   * PARADO ticket, and only when the cliente has an EM_ATENDIMENTO status.
   */
  function ReplyStatus(current: StatusBase, fromSolicitante: bool, statuses: seq<Status>, cliente: nat): (r: Option<Status>)
    ensures r.Some? ==> current == Parado && fromSolicitante && r.value.base == EmAtendimento
                        && r.value.cliente == cliente && r.value in statuses
    ensures r.None? <==> current != Parado || !fromSolicitante
                         || forall s :: s in statuses ==> !(s.cliente == cliente && s.base == EmAtendimento)
  {
    if current == Parado && fromSolicitante then FirstStatus(statuses, cliente, EmAtendimento) else None
  }

  /**
   * The status step of `add_action_to_ticket`: switch the ticket to the
   * EM_ATENDIMENTO status and save it (which also closes the pause).
   */
  method UpdateStatusOnReply(ticket: Ticket, usuario: nat, solicitante: nat, statuses: seq<Status>,
                             now: int, year: nat, numeros: seq<string>, contratos: seq<Contrato>, newPk: nat)
    returns (res: Result<()>)
    modifies ticket
    ensures var next := ReplyStatus(old(ticket.status.base), usuario == solicitante, statuses, old(ticket.cliente));
            (next.None? ==> ticket.State() == old(ticket.State()) && res.Ok?)
            && (next.Some? ==>
                  var r := SaveTicket(old(ticket.State()).(status := next.value), now, year, numeros,
                                      Some(old(ticket.status.base)), contratos, newPk);
                  (res.Ok? <==> r.Ok?) && (r.Ok? ==> ticket.State() == r.value))
  {
    var next := ReplyStatus(ticket.status.base, usuario == solicitante, statuses, ticket.cliente);
    if next.None? {
      return Ok(());
    }
    var original := ticket.status.base;
    ticket.status := next.value;
    res := ticket.Save(now, year, numeros, Some(original), contratos, newPk);
  }

  /** A requester's reply to a paused ticket that has been saved before ends the pause. */
  lemma ReplyEndsPause(t: TicketState, s: Status, now: int, year: nat, numeros: seq<string>,
                       contratos: seq<Contrato>, newPk: nat)
    requires t.status.base == Parado && s.base == EmAtendimento && t.pk.Some? && t.numero != []
    requires t.pausadoEm.Some?
    ensures var r := SaveTicket(t.(status := s), now, year, numeros, Some(Parado), contratos, newPk);
            r.Ok? && r.value.pausadoEm.None? && r.value.tempoPausado == t.tempoPausado + (now - t.pausadoEm.value)
            && r.value.status == s
  {
    var u := t.(status := s);
    var moved := Transitioned(u, Parado, now);
    TransitionedFields(u, Parado, now);
    var stored := Stored(moved, now, newPk);
    if !stored.previsaoManual {
      SlaAppliedSpec(stored, contratos);
    }
  }
}
