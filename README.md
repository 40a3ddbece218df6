# A verified model of the help-desk, stock, asset and inventory core

This Dafny project models the core of a Django service-desk and asset-management system.
Each module follows one source file and states what that file promises as contracts and lemmas.

- **Tickets** (`TicketModels`, `TicketEmails`, `TicketForms`, `TicketViews`):
  - the ticket lifecycle and SLA engine: status bases, SLA rules, year-scoped numbering, pause accounting, the first-response mark;
  - the mailbox command that threads incoming e-mail onto tickets;
  - the ticket form's cleaning;
  - the views that check tenants, apply macros, record field history, toggle configuration rows and guard deletion.
- **Stock** (`StockValues`, `NotificacaoSignals`, `MovimentacaoSignals`, `ProdutosSignals`, `MovimentacaoForms`):
  - Decimal quantities held as ten-thousandths;
  - the ledger of variations, stock history and notifications that the signal handlers write;
  - low-stock notices, movements and lots, barcode regeneration, kit assembly and disassembly;
  - the movement form's checks.
- **Assets** (`AtivosSignals`, `AuditoriaViews`):
  - the asset change log;
  - the audit workflow of the HTML views and the REST API.
- **Inventory** (`InventorySignals`, `InventoryViews`):
  - the online/offline pre-save rule;
  - machine check-in, agent tokens and the update check.
- **Agents** (`AgentNotifications`, `Agent`, `AgentTray`, `Installer`):
  - the notification manager shared by the console agent and the tray agent;
  - the connectivity monitor, the command line and start-up;
  - the tray icon and its menu;
  - the installer wizard and the service command it builds.
- `Wrappers` and `Text` are shared helpers: Option/Result, stripping, splitting, decimal text.

Modelling conventions:
- Instants and durations are whole seconds, and the clock is a parameter `now`.
- Database tables are sequences or maps of rows; foreign keys are ids.
- Objects whose fields the source updates in place are classes. Their methods are proved against the functions that specify them.
- Where a source file behaves differently from what its surrounding code evidently expects, the model keeps both: the code as written, and the corrected behaviour that the rest of the model uses (see "## Findings").

## Model

| member | source | states |
|---|---|---|
| TicketModels.SaveStatus | apps/tickets/models.py:139-145 | Saving succeeds exactly for a new status or one whose base equals the stored base; no stored base ever changes; an update keeps the keys, an insert adds the row under its new id |
| TicketModels.AplicaAoTicket | apps/tickets/models.py:315-329 | A rule applies exactly when each of its category, urgency and service sets is empty or lists the ticket's value |
| TicketModels.WildcardRuleApplies | apps/tickets/models.py:315-329 | A rule with no category, urgency or service listed applies to every ticket |
| TicketModels.NoCategoryFailsListedRule | apps/tickets/models.py:318-319 | A ticket without a category fails every rule that lists categories |
| TicketModels.InsertByOrdem | apps/tickets/models.py:747 | Insertion into the by-ordem list adds exactly the one rule (multiset) |
| TicketModels.InsertByOrdemSorted | apps/tickets/models.py:747 | Insertion keeps the rule list sorted by ordem |
| TicketModels.ActiveByOrdem | apps/tickets/models.py:747 | `filter(ativo=True).order_by('ordem')`: sorted by ordem and holding exactly the active rules |
| TicketModels.FirstMatch | apps/tickets/models.py:747-748 | The rule found applies and is in the list; none found means no rule of the list applies |
| TicketModels.FirstMatchLeastOrdem | apps/tickets/models.py:747-761 | In a list sorted by ordem the first applicable rule has the least ordem of all applicable rules |
| TicketModels.SelectRule | apps/tickets/models.py:747-761 | The contract's active rule chosen for the ticket; stated by SelectRuleSpec |
| TicketModels.SelectRuleSpec | apps/tickets/models.py:747-761 | The chosen rule is an active applicable rule of the contract with least ordem; none is chosen exactly when no active rule applies |
| TicketModels.DefaultContrato | apps/tickets/models.py:735-739 | The cliente's default is an active default contract of that cliente; none exactly when the cliente has no active default |
| TicketModels.SlaApplied | apps/tickets/models.py:727-761 | calcular_sla changes only the applied rule, the contract and the deadline |
| TicketModels.SlaAppliedSpec | apps/tickets/models.py:727-761 | A manual deadline or no contract leaves the ticket unchanged; whenever the contract has an active applicable rule, the least-ordem such rule, the contract and criado_em plus its hours are recorded; the pause time never changes |
| TicketModels.SlaAppliedByRule | apps/tickets/models.py:748-756 | With a contract and a chosen rule, the rule, the contract and criado_em + prazo hours are recorded |
| TicketModels.SlaAppliedUnchanged | apps/tickets/models.py:729-742 | A manual deadline or a missing contract leaves the ticket unchanged |
| TicketModels.SlaAppliedNoRule | apps/tickets/models.py:747-761 | A contract with no applicable active rule leaves the ticket unchanged |
| TicketModels.DeadlineIgnoresPause | apps/tickets/models.py:753-756 | The deadline does not depend on tempo_pausado |
| TicketModels.FirstMatchSameTickets | apps/tickets/models.py:747-748 | Two tickets that every rule treats alike get the same first rule |
| TicketModels.EstaVencido | apps/tickets/models.py:764-769 | Overdue exactly when a deadline exists and now is strictly past it; never without a deadline |
| TicketModels.SavedContratos | apps/tickets/models.py:222-229 | The contract table after `ContratoSLA.save`: the cliente's other defaults demoted, then the row updated in place or appended; stated by SavedDefaultIsUnique and OtherRowNotDefault |
| TicketModels.SavedDefaultIsUnique | apps/tickets/models.py:222-229 | After saving a default contract it is its cliente's only default, and every cliente still has at most one |
| TicketModels.OtherRowNotDefault | apps/tickets/models.py:224-228 | A row other than the saved one that is still a default after the save belongs to another cliente |
| TicketModels.ContratoTable.constructor | apps/tickets/models.py:194-229 | An empty contract table |
| TicketModels.ContratoTable.Save | apps/tickets/models.py:222-229 | The table after `ContratoSLA.save` is the demotions followed by the update or insert of the row |
| TicketModels.NumeroSuffix | apps/tickets/models.py:690 | `int(numero.split('-')[1])` succeeds only with a second piece of ASCII digits and returns its value; a missing piece raises IndexError, and a non-numeric piece raises ValueError naming it |
| TicketModels.FormatNumeroSuffix | apps/tickets/models.py:690-695 | The counter of a formatted number reads back as the counter (round trip) |
| TicketModels.YearNumeros | apps/tickets/models.py:684-686 | Exactly the numbers starting with the year |
| TicketModels.LexMax | apps/tickets/models.py:686 | `order_by('-numero').first()`: a member of the list, present exactly when the list is not empty |
| TicketModels.NextNumeroAsWritten | apps/tickets/models.py:681-695 | As written: with no number for the year the next one is YYYY-000001 |
| TicketModels.NumberingRepeatsAfterMillion | apps/tickets/models.py:684-695 | As written: with 2024-999999 and 2024-1000000 stored, the next number is 2024-1000000 again |
| TicketModels.MaxSuffix | apps/tickets/models.py:688-691 | The result is the counter of one of the year's numbers and no counter exceeds it; none exactly when there are no numbers; it raises exactly when some counter is not an integer |
| TicketModels.NextNumero | apps/tickets/models.py:681-695 | Corrected numbering; stated by NextNumeroFresh, NextNumeroShape, NextNumeroFirst, NextNumeroSuccessor and NextNumeroRaises |
| TicketModels.NextNumeroFresh | apps/tickets/models.py:681-695 | Corrected numbering never repeats an existing number |
| TicketModels.NextNumeroShape | apps/tickets/models.py:681-695 | The generated number is the year, '-', and a counter of at least 1 that reads back from it |
| TicketModels.NextNumeroFirst | apps/tickets/models.py:693-695 | With no number for the year yet, the next number is the year's first, YYYY-000001 |
| TicketModels.NextNumeroSuccessor | apps/tickets/models.py:688-692 | Corrected: with numbers for the year, the next number is one past the counter of a number of the year that no other number of the year exceeds |
| TicketModels.NextNumeroRaises | apps/tickets/models.py:688-692 | Generating raises exactly when some number of the year has a counter int() refuses |
| TicketModels.Transitioned | apps/tickets/models.py:698-721 | The save bookkeeping changes only the three closure stamps, pausado_em and tempo_pausado |
| TicketModels.TransitionTimestamps | apps/tickets/models.py:701-711 | Entering RESOLVIDO, FECHADO or CANCELADO stamps its field with now; other transitions leave it; staying in the same base changes nothing |
| TicketModels.PauseAccounting | apps/tickets/models.py:713-721 | Entering PARADO sets pausado_em = now; leaving it adds now - pausado_em to tempo_pausado and clears it, so the total never decreases |
| TicketModels.TransitionedFields | apps/tickets/models.py:698-721 | Field-by-field reading of the transition bookkeeping |
| TicketModels.Numbered | apps/tickets/models.py:681-695 | An existing number is kept; a missing one is filled with a number no ticket has, nothing else changing |
| TicketModels.SaveKeepsNumero | apps/tickets/models.py:681 | Saving never changes an assigned number |
| TicketModels.SaveNumbersFresh | apps/tickets/models.py:681-695 | A ticket saved without a number gets a fresh one |
| TicketModels.SaveNewTicket | apps/tickets/models.py:698-725 | Creating a ticket gives it its pk and criado_em and runs none of the transition bookkeeping |
| TicketModels.SaveMissingRowRaises | apps/tickets/models.py:698-699 | Saving a ticket whose stored row is gone raises |
| TicketModels.FirstResponse | apps/tickets/models.py:830-839 | primeira_resposta_em changes only for a new public action by staff while unset, and then becomes the action's criado_em |
| TicketModels.FirstApplicable | apps/tickets/models.py:747-748 | The loop returns the first rule that applies |
| TicketModels.Ticket.constructor | apps/tickets/models.py:484-663 | An unsaved ticket: no pk, no number, no timestamps, no pause |
| TicketModels.Ticket.CalcularSla | apps/tickets/models.py:727-761 | The ticket's new state is SlaApplied of the old one |
| TicketModels.Ticket.ApplyRule | apps/tickets/models.py:749-756 | Records the rule, the contract and criado_em + prazo hours |
| TicketModels.Ticket.RecordTransition | apps/tickets/models.py:698-721 | The ticket's new state is Transitioned of the old one |
| TicketModels.Ticket.StampClosures | apps/tickets/models.py:701-711 | The three closure stamps as in Transitioned |
| TicketModels.Ticket.TrackPause | apps/tickets/models.py:713-721 | The pause bookkeeping as in Transitioned |
| TicketModels.Ticket.AssignNumero | apps/tickets/models.py:681-695 | The number step as in Numbered, or its error |
| TicketModels.Ticket.Store | apps/tickets/models.py:723 | A new ticket gets its pk and criado_em |
| TicketModels.SaveTicket | apps/tickets/models.py:679-725 | The whole of Ticket.save: the saved ticket or the exception; stated by SaveKeepsNumero, SaveNumbersFresh, SaveNewTicket and SaveMissingRowRaises |
| TicketModels.Ticket.Save | apps/tickets/models.py:679-725 | The ticket after `save` is SaveTicket of the old one; a numbering error leaves it unchanged |
| TicketModels.Ticket.MarcarPrimeiraResposta | apps/tickets/models.py:830-839 | primeira_resposta_em becomes FirstResponse of its old value |
| TicketEmails.FirstPrefix | apps/tickets/management/commands/process_ticket_emails.py:302 | The alternative found is a reply prefix the subject starts with (ignoring case); none found means no alternative from there matches |
| TicketEmails.ReplyPrefixLength | apps/tickets/management/commands/process_ticket_emails.py:302 | Zero exactly when the subject starts with none of Re:, RE:, Fwd:, FW:, RES:, ENC:; otherwise the length of the one it starts with |
| TicketEmails.PrefixesExclusive | apps/tickets/management/commands/process_ticket_emails.py:302 | At most one of the alternatives matches a given subject, so the regex's choice is unambiguous |
| TicketEmails.StripReplyPrefix | apps/tickets/management/commands/process_ticket_emails.py:302 | Never longer than the subject; a subject with no reply prefix is unchanged |
| TicketEmails.ReplyPrefixRemovedOnce | apps/tickets/management/commands/process_ticket_emails.py:302 | A prefix, its following blanks and nothing more are removed |
| TicketEmails.PrefixLengthOf | apps/tickets/management/commands/process_ticket_emails.py:302 | A subject starting with an alternative has that alternative's length as prefix length |
| TicketEmails.TrimLeftBlanks | apps/tickets/management/commands/process_ticket_emails.py:302 | `\s*` consumes exactly the leading blanks |
| TicketEmails.RemoveTags | apps/tickets/management/commands/process_ticket_emails.py:305 | Removing `[Ticket #YYYY-NNNNNN]` tags never lengthens the subject |
| TicketEmails.RemoveTagsNoBracket | apps/tickets/management/commands/process_ticket_emails.py:305 | A subject without '[' has no tag and is unchanged |
| TicketEmails.RemoveTagsAtTag | apps/tickets/management/commands/process_ticket_emails.py:305 | A tag (any case) and the blanks after it are removed, and the search continues after them |
| TicketEmails.CleanSubject | apps/tickets/management/commands/process_ticket_emails.py:297-307 | The subject without one reply prefix and ticket tags; stated by StripReplyPrefix, RemoveTags and CleanSubjectRemovesOnePrefix |
| TicketEmails.CleanSubjectRemovesOnePrefix | apps/tickets/management/commands/process_ticket_emails.py:297-307 | The prefix regex is anchored: "Re: Re: x" cleans to "Re: x" |
| TicketEmails.StripOnePrefixExample | apps/tickets/management/commands/process_ticket_emails.py:302 | The prefix step alone removes one "Re: " from "Re: Re: x" |
| TicketEmails.CleanRestExample | apps/tickets/management/commands/process_ticket_emails.py:305-307 | The tag step and the final strip leave "Re: x" as it is |
| TicketEmails.FindNumberFrom | apps/tickets/management/commands/process_ticket_emails.py:236 | The position found holds `#dddd-dddddd`; none found means no later position does |
| TicketEmails.SubjectNumber | apps/tickets/management/commands/process_ticket_emails.py:236-238 | The number read is the eleven characters after some `#` that starts a match; none exactly when the subject has no match |
| TicketEmails.TicketByNumero | apps/tickets/management/commands/process_ticket_emails.py:240 | `Ticket.objects.get(numero=...)`: a ticket with that number, or none exactly when no ticket has it |
| TicketEmails.TicketByMessageId | apps/tickets/management/commands/process_ticket_emails.py:250-252 | A ticket tagged with the message id, or none exactly when no ticket is |
| TicketEmails.TicketByReferences | apps/tickets/management/commands/process_ticket_emails.py:262-270 | The ticket of the leftmost References id that names a ticket, no earlier id naming any; none exactly when no ticket carries any of the ids |
| TicketEmails.NewestSimilar | apps/tickets/management/commands/process_ticket_emails.py:277-286 | An open ticket of the sender from after the cutoff whose subject contains the cleaned subject, or none exactly when there is no such ticket |
| TicketEmails.ByNumber | apps/tickets/management/commands/process_ticket_emails.py:236-245 | Method 1: a ticket whose number is the one in the subject, or none exactly when none matches |
| TicketEmails.ByReply | apps/tickets/management/commands/process_ticket_emails.py:249-257 | Method 2: only with a non-empty In-Reply-To, the ticket it names |
| TicketEmails.ByRefs | apps/tickets/management/commands/process_ticket_emails.py:260-270 | Method 3: only with non-empty References, the ticket of the leftmost whitespace-separated id that names a ticket |
| TicketEmails.FindExistingTicket | apps/tickets/management/commands/process_ticket_emails.py:222-295 | The four lookup methods in order; stated by the Lookup lemmas |
| TicketEmails.LookupNumberWins | apps/tickets/management/commands/process_ticket_emails.py:236-245 | A number in the subject that names a ticket wins over every header |
| TicketEmails.LookupInReplyTo | apps/tickets/management/commands/process_ticket_emails.py:236-257 | In-Reply-To is consulted only when the subject names no ticket, and then its ticket wins |
| TicketEmails.LookupReferencesAfterReply | apps/tickets/management/commands/process_ticket_emails.py:249-270 | A References match happens only when In-Reply-To named no ticket, and names the ticket of the leftmost id that names one |
| TicketEmails.LookupSimilarLast | apps/tickets/management/commands/process_ticket_emails.py:272-293 | The similar-subject match happens only when no header named a ticket, and is the newest open similar ticket of the sender from the last seven days |
| TicketEmails.LookupNotFound | apps/tickets/management/commands/process_ticket_emails.py:272-295 | Nothing is found only when no open ticket of the sender from the last seven days is similar |
| TicketEmails.IsDuplicate | apps/tickets/management/commands/process_ticket_emails.py:645-656 | True exactly when a ticket of the sender from the last 24 hours has a subject containing the first 100 characters of this one (ignoring case) |
| TicketEmails.FindFrom | apps/tickets/management/commands/process_ticket_emails.py:586-587 | The first occurrence of the separator at or after the start, or the end when there is none |
| TicketEmails.Before | apps/tickets/management/commands/process_ticket_emails.py:586-587 | `split('\n-- \n')[0]`: the prefix up to the first separator, the whole body when there is none |
| TicketEmails.KeptLines | apps/tickets/management/commands/process_ticket_emails.py:590-600 | The lines kept before a reply header; stated by KeptLinesFiltered, KeptLinesStopAtHeader and KeptLinesStep |
| TicketEmails.KeptLinesFiltered | apps/tickets/management/commands/process_ticket_emails.py:590-600 | Every kept line is a line of the body that is neither a quote nor a reply header |
| TicketEmails.KeptLinesStopAtHeader | apps/tickets/management/commands/process_ticket_emails.py:597-599 | Nothing after an "On/Em ... wrote:" line is kept |
| TicketEmails.KeptLinesStep | apps/tickets/management/commands/process_ticket_emails.py:593-600 | One loop step: a quote is skipped, a reply header stops, any other line is kept |
| TicketEmails.KeepLines | apps/tickets/management/commands/process_ticket_emails.py:590-600 | The loop's output is KeptLines of the lines |
| TicketEmails.CleanedBody | apps/tickets/management/commands/process_ticket_emails.py:583-602 | `clean_email_body` as a value: the stripped join of the kept lines before the signature; stated by CleanEmailBody and the KeptLines lemmas |
| TicketEmails.CleanEmailBody | apps/tickets/management/commands/process_ticket_emails.py:583-602 | The cleaned body is the stripped join of the kept lines of the text before the signature |
| TicketEmails.CandidatesDistinct | apps/tickets/management/commands/process_ticket_emails.py:618-620 | Different counters give different usernames, so the loop meets a new candidate each turn |
| TicketEmails.UniqueUsername | apps/tickets/management/commands/process_ticket_emails.py:613-621 | The username is not taken, is the local part or the local part followed by a counter, and is the local part itself when that is free |
| TicketEmails.DecodeParts | apps/tickets/management/commands/process_ticket_emails.py:531-538 | One decoded text per header part, in order |
| TicketEmails.DecodeHeaderValue | apps/tickets/management/commands/process_ticket_emails.py:523-540 | An empty value gives ""; otherwise the decoded parts joined by spaces |
| TicketEmails.DecodePartsSnoc | apps/tickets/management/commands/process_ticket_emails.py:531-538 | Decoding one more part appends its text |
| TicketEmails.DecodedHeaderSplits | apps/tickets/management/commands/process_ticket_emails.py:540 | Plain pieces without spaces come back by splitting the decoded value on spaces |
| TicketEmails.StoredAttachments | apps/tickets/management/commands/process_ticket_emails.py:658-680 | A row exists exactly for each attachment part with a file name and at most 25 MB, with that name passed through decode_header_value and that size |
| TicketEmails.StoredAttachmentsSnoc | apps/tickets/management/commands/process_ticket_emails.py:663-680 | The rows of one more part walked come after those of the parts before it |
| TicketEmails.StoredAttachmentsBounded | apps/tickets/management/commands/process_ticket_emails.py:674 | No stored attachment exceeds 25 MB |
| TicketEmails.ProcessAttachments | apps/tickets/management/commands/process_ticket_emails.py:658-680 | The loop, decoding each name with DecodeHeaderValue, creates StoredAttachments of the parts |
| TicketEmails.FirstStatus | apps/tickets/management/commands/process_ticket_emails.py:371-374 | The first status of the cliente with the base, or none exactly when there is none |
| TicketEmails.ReplyStatus | apps/tickets/management/commands/process_ticket_emails.py:370-374 | A new status only for a requester's reply to a PARADO ticket, and then an EM_ATENDIMENTO one |
| TicketEmails.UpdateStatusOnReply | apps/tickets/management/commands/process_ticket_emails.py:370-378 | Without a new status the ticket is unchanged; with one it becomes SaveTicket of the ticket with that status |
| TicketEmails.ReplyEndsPause | apps/tickets/management/commands/process_ticket_emails.py:370-378 | A requester's reply to a paused saved ticket ends the pause and adds its length to tempo_pausado |
| TicketForms.StrippedNonBlank | apps/tickets/forms.py:256 | The comprehension keeps at most as many items as there are pieces |
| TicketForms.StripChars | apps/tickets/forms.py:256 | Stripping never introduces a character |
| TicketForms.StrippedNonBlankClean | apps/tickets/forms.py:256 | Every item kept from comma-free pieces is non-empty, stripped and comma-free |
| TicketForms.CommaItems | apps/tickets/forms.py:256 | The tag list of a comma-separated string; stated by CommaItemsClean, CommaItemsRoundTrip and CommaItemsIdempotent |
| TicketForms.CommaItemsClean | apps/tickets/forms.py:256 | Every tag produced from the input string is non-empty, stripped and comma-free |
| TicketForms.StrippedNonBlankKeeps | apps/tickets/forms.py:256 | Items that are already clean pass through unchanged |
| TicketForms.CommaItemsRoundTrip | apps/tickets/forms.py:256 | Joining clean items with commas and splitting again gives the items back |
| TicketForms.CommaItemsIdempotent | apps/tickets/forms.py:256-261 | Cleaning the comma-joined result of a cleaning gives the same list again |
| TicketForms.ListField | apps/tickets/forms.py:254-261 | A string becomes its list of clean items; a value that is not a string is left as it is |
| TicketForms.Clean | apps/tickets/forms.py:232-264 | TicketForm.clean: the cleaned data or the validation error; stated by CleanSpec and CleanIdempotent |
| TicketForms.CleanSpec | apps/tickets/forms.py:232-264 | `clean` accepts exactly when the urgency fits the category's list (or the list is empty) and a status needing a justification has one; it changes only tags and cc, which are never strings afterwards |
| TicketForms.UrgenciaOutsideListRejected | apps/tickets/forms.py:240-246 | An urgency outside a non-empty allowed list is refused with the message naming the urgency and the category |
| TicketForms.EmptyListAcceptsAnyUrgencia | apps/tickets/forms.py:241 | A category with no allowed urgencies accepts every urgency alike |
| TicketForms.JustificativaMissingRejected | apps/tickets/forms.py:248-251 | A status that requires a justification without one is refused; when the urgency fits, the message names the status with its base |
| TicketForms.CleanIdempotent | apps/tickets/forms.py:232-264 | Cleaning cleaned data gives the same data |
| TicketForms.RequiredFlagMatchesClean | apps/tickets/forms.py:217-218 | When the form marks the justification required, `clean` refuses the data without it |
| TicketForms.NewTicketNeverRequired | apps/tickets/forms.py:217-220 | A form for a ticket without pk never marks the justification required |
| TicketForms.TicketForm.constructor | apps/tickets/forms.py:207-220 | The required flag is set as the instance's pk and status say; the data is as bound |
| TicketForms.TicketForm.CleanData | apps/tickets/forms.py:232-264 | Succeeds exactly when Clean does and fails with Clean's message; the cleaned data becomes its result, or stays as it was on an error |
| TicketForms.CleanArquivo | apps/tickets/forms.py:376-385 | Refused exactly when a file is larger than 25 MB; otherwise returned unchanged |
| TicketForms.ArquivoLimitInclusive | apps/tickets/forms.py:381 | Exactly 25 MB passes and one byte more is refused |
| TicketForms.FirstClosed | apps/tickets/forms.py:512-513 | The first FECHADO ticket, or none exactly when no ticket is FECHADO |
| TicketForms.CleanTicketsMesclar | apps/tickets/forms.py:505-518 | Accepted exactly when at least one ticket is selected and none is FECHADO; the error names the first closed ticket |
| TicketViews.GetObject | apps/tickets/views.py:52-63 | Refused exactly when the user is not a superuser and the object belongs to another cliente |
| TicketViews.StaffFlagIrrelevant | apps/tickets/views.py:59 | Staff and non-staff users get the same answer, since both branches of the tenant choice name the user |
| TicketViews.MacroOnlyActionNoHistory | apps/tickets/views.py:563-570 | A macro that changes no field leaves no history entry |
| TicketViews.MacroHistoryOrder | apps/tickets/views.py:541-570 | With status and responsible keys, the one history entry describes the status change and then the responsible change |
| TicketViews.MacroAcaoTagged | apps/tickets/views.py:554-560 | The macro's action is internal, by the user applying it, with the macro's name before the text |
| TicketViews.MacroSaveStamps | apps/tickets/views.py:562 | A macro that moves a numbered stored ticket into RESOLVIDO, FECHADO or CANCELADO from another base stamps that closure with the save time, and one into PARADO starts a pause, through Ticket.save (also lines 679-725 of apps/tickets/models.py) |
| TicketViews.Render | apps/tickets/views.py:366-367 | A falsy value is shown as "" |
| TicketViews.DiffUpTo | apps/tickets/views.py:356-368 | At most one row per field examined |
| TicketViews.Campos | apps/tickets/views.py:365 | The field name of each history row, in order |
| TicketViews.CamposAppend | apps/tickets/views.py:365 | Field names of appended rows are the appended field names |
| TicketViews.TrackedFieldsDistinct | apps/tickets/views.py:351-354 | The eight tracked fields are distinct |
| TicketViews.DiffUpToField | apps/tickets/views.py:356-368 | Among the fields examined, a field has a row exactly when its value changed |
| TicketViews.FieldDiff | apps/tickets/views.py:351-368 | The history rows of an edit; stated by DiffUpToField, FieldDiffChangedOnly and UnchangedEditNoHistory |
| TicketViews.FieldDiffChangedOnly | apps/tickets/views.py:351-368 | An edit writes a row for each changed tracked field and none for an unchanged one |
| TicketViews.UnchangedEditNoHistory | apps/tickets/views.py:356-368 | An edit that changes no tracked field writes no history |
| TicketViews.DeleteTicket | apps/tickets/views.py:381-392 | Deletion succeeds exactly for an existing ticket the user may access that is not FECHADO, and removes only that ticket |
| TicketViews.ClosedTicketNeverDeleted | apps/tickets/views.py:385-387 | A FECHADO ticket survives every delete request, whoever sends it and whichever ticket it names |
| TicketViews.OfferedUrgencias | apps/tickets/views.py:1095-1101 | Exactly the urgencies offered for the category, in table order |
| TicketViews.UrgenciasPorCategoria | apps/tickets/views.py:1089-1111 | 404 exactly for an unknown category; otherwise the active allowed urgencies, or the active urgencies of the category's cliente when none is listed |
| TicketViews.Toggle | apps/tickets/views.py:1115-1151 | toggle_ativo: the reply code and the tables after it; stated by ToggleCodes and ToggleTwice |
| TicketViews.ToggleCodes | apps/tickets/views.py:1115-1151 | 400 for an unknown model, 404 for a missing row, 403 for another tenant's row; only a 200 changes the table, and then only the one row's ativo flag, which it flips |
| TicketViews.ToggleTwice | apps/tickets/views.py:1115-1151 | Toggling twice restores the table, and a third toggle answers like the first |
| TicketViews.ConfigTables.constructor | apps/tickets/views.py:1115-1151 | The configuration tables as given |
| TicketViews.ConfigTables.ToggleAtivo | apps/tickets/views.py:1115-1151 | The answer and the new tables are those of Toggle, and the flag returned is the new one |
| TicketViews.TicketDesk.constructor | apps/tickets/views.py:534-578 | A ticket and its responsible user, stored as such, with no actions or history |
| TicketViews.TicketDesk.AplicarMacro | apps/tickets/views.py:534-578 | True exactly when every named status and user exists and Ticket.save succeeds; then the fields are set, the action written, the ticket and its stored row become SaveTicket of the ticket with the macro's status (closure stamps, pause accounting, SLA), and the history entry is written; a missing status or user writes nothing, a raising save keeps the action only; a status assigned before the failure stays in memory |
| TicketViews.TicketDesk.ApplyKeys | apps/tickets/views.py:540-560 | The macro's status, responsible and action keys set the in-memory fields and write the action, nothing written once a named status or user is missing |
| TicketViews.TicketDesk.RecordEdits | apps/tickets/views.py:356-368 | The history gains exactly the rows of FieldDiff |
| StockValues.RoundHalfEven | apps/movimentacao/signals.py:37 | `quantize` under the default rounding: the result is within half a unit of the exact quotient, and an exact tie goes to the even neighbour |
| StockValues.RoundHalfEvenExact | apps/movimentacao/signals.py:37 | Rounding an exact multiple gives the multiplier back |
| StockValues.SubFloor | apps/movimentacao/signals.py:95-97 | The difference when it is not negative, zero otherwise; never negative |
| StockValues.Ledger.constructor | apps/movimentacao/signals.py:55-65 | A ledger holding the given variations, with empty history and notification tables |
| StockValues.Ledger.SetQuantidade | apps/movimentacao/signals.py:55 | `variacao.save()`: only that variation's quantity changes |
| StockValues.Ledger.AddHistorico | apps/movimentacao/signals.py:57-65 | `HistoricoEstoque.objects.create`: the row is appended |
| StockValues.Ledger.AddNotificacoes | apps/movimentacao/signals.py:26 | `Notificacao.objects.create`: the rows are appended |
| StockValues.Ledger.Restore | apps/movimentacao/signals.py:39 | The rollback of `transaction.atomic`: the tables are back to the saved state |
| NotificacaoSignals.Verificar | apps/notificacao/signals.py:7-27 | verificar_estoque_minimo on the notification table; stated by VerificarSpec, AlertDeduplicated and NoAlertWhenCreatedOrAbove |
| NotificacaoSignals.VerificarSpec | apps/notificacao/signals.py:7-27 | The handler raises exactly for a saved variation at or below its minimum without a size; it adds at most one alert, and adds one exactly for a saved variation at or below its minimum with no unread alert mentioning its size |
| NotificacaoSignals.NoAlertWhenCreatedOrAbove | apps/notificacao/signals.py:9-12 | A new variation, or one above its minimum, changes nothing |
| NotificacaoSignals.AlertMentions | apps/notificacao/signals.py:19-22 | The alert names the product, the size, the quantity and the minimum |
| NotificacaoSignals.AlertMatchesOwnSize | apps/notificacao/signals.py:13-22 | The alert's own message contains its size, ignoring case, so the unread-alert query finds it |
| NotificacaoSignals.AlertDeduplicated | apps/notificacao/signals.py:13-18 | Once an alert was added, saving that product's variation of the same size again adds nothing while the alert is unread |
| NotificacaoSignals.VerificarEstoqueMinimo | apps/notificacao/signals.py:7-27 | The notification table becomes that of Verificar, or is unchanged when it raises |
| MovimentacaoSignals.Fator | apps/movimentacao/signals.py:12-18 | A positive fraction with numerator one; a `UnidadeMedida` row matches no key and gives one; a known key gives its table entry (also lines 35-36) |
| MovimentacaoSignals.QBase | apps/movimentacao/signals.py:37 | The movement quantity times the unit factor, quantized to hundredths half-even; stated by QBaseRounding and QBaseWholeCents |
| MovimentacaoSignals.QBaseRounding | apps/movimentacao/signals.py:37 | The base quantity is the scaled quantity to within half a hundredth |
| MovimentacaoSignals.QBaseWholeCents | apps/movimentacao/signals.py:37 | With a factor of one a quantity in whole hundredths is unchanged |
| MovimentacaoSignals.Notificar | apps/movimentacao/signals.py:20-27 | One low-stock notice exactly when the quantity is at or below the minimum, none otherwise |
| MovimentacaoSignals.Notice | apps/movimentacao/signals.py:20-27 | At most one notice per variation |
| MovimentacaoSignals.Adjusted | apps/movimentacao/signals.py:39-67 | One quantity change with its history row and alert; stated by AdjustedSpec |
| MovimentacaoSignals.AdjustedSpec | apps/movimentacao/signals.py:39-67 | An adjustment sets the one quantity, keeps every other variation, appends one history row with the quantity before and after, and ends with the low-stock notice exactly when the new quantity is at or below the minimum |
| MovimentacaoSignals.MovementIgnored | apps/movimentacao/signals.py:31-32 | An edited movement or one of quantity zero changes nothing |
| MovimentacaoSignals.MovementApplied | apps/movimentacao/signals.py:29-67 | movimentacao_update_estoque on the ledger; stated by MovementIgnored, MovementQuantity and MovementNotifiesLow |
| MovimentacaoSignals.MovementQuantity | apps/movimentacao/signals.py:40-65 | Entrada adds the base quantity; Saída subtracts it and raises when stock is short, so it never goes negative; any other kind sets stock to the base quantity; one history row records the change |
| MovimentacaoSignals.MovementNotifiesLow | apps/movimentacao/signals.py:67 | A movement that leaves stock at or below the minimum ends with the low-stock notice; otherwise no notice is added |
| MovimentacaoSignals.LoteDeleted | apps/movimentacao/signals.py:90-109 | lote_reverter_estoque on the ledger; stated by LoteDeletedNonNegative and LoteCreateDeleteRestores |
| MovimentacaoSignals.LoteDeletedNonNegative | apps/movimentacao/signals.py:94-97 | Deleting a lot never leaves its variation negative |
| MovimentacaoSignals.LoteCreateDeleteRestores | apps/movimentacao/signals.py:69-109 | From non-negative stock, creating a lot and deleting it again restores the quantity |
| MovimentacaoSignals.ApplyAdjustment | apps/movimentacao/signals.py:39-67 | The ledger becomes Adjusted of the old one, or is rolled back when the save raises |
| MovimentacaoSignals.MovimentacaoUpdateEstoque | apps/movimentacao/signals.py:29-67 | The ledger becomes MovementApplied of the old one, or is unchanged when it raises |
| MovimentacaoSignals.LoteCreated | apps/movimentacao/signals.py:69-88 | lote_update_estoque on the ledger; stated by LoteCreateDeleteRestores |
| MovimentacaoSignals.LoteUpdateEstoque | apps/movimentacao/signals.py:69-88 | The ledger becomes LoteCreated of the old one, or is unchanged when it raises |
| MovimentacaoSignals.LoteReverterEstoque | apps/movimentacao/signals.py:90-109 | The ledger becomes LoteDeleted of the old one, or is unchanged when it raises |
| MovimentacaoSignals.LowOnes | apps/movimentacao/signals.py:113-114 | A sub-list of the variations |
| MovimentacaoSignals.NoticesOf | apps/movimentacao/signals.py:113-114 | One notice per variation |
| MovimentacaoSignals.LowOnesSpec | apps/movimentacao/signals.py:113-114 | A variation is among the low ones exactly when it is listed and at or below its minimum |
| MovimentacaoSignals.ImportNoticesSpec | apps/movimentacao/signals.py:111-114 | After an import every low variation has its notice, and every notice added is that of a low variation, in query order |
| MovimentacaoSignals.ImportNoticesStep | apps/movimentacao/signals.py:113-114 | One more variation appends its own notice |
| MovimentacaoSignals.VariacoesAt | apps/movimentacao/signals.py:113 | The variations with the given ids, in that order |
| MovimentacaoSignals.PostImportVariacao | apps/movimentacao/signals.py:111-114 | The loop appends ImportNotices of the variations in query order |
| ProdutosSignals.CodigoBarrasChanged | apps/produtos/signals.py:37-49 | A new variation is flagged exactly when it has a code; a stored one exactly when its code differs from the stored code; one whose row vanished exactly when it has a code |
| ProdutosSignals.BarcodeType | apps/produtos/signals.py:54-62 | The symbology chosen for a code; stated by BarcodeTypeSpec and BarcodeTypeOfTrimmed |
| ProdutosSignals.BarcodeTypeSpec | apps/produtos/signals.py:54-62 | EAN-13, EAN-8 and UPC-A are chosen exactly for all-digit trimmed codes of 13, 8 and 12 characters; Code 128 for everything else |
| ProdutosSignals.BarcodeTypeOfTrimmed | apps/produtos/signals.py:54 | Surrounding blanks do not change the symbology |
| ProdutosSignals.GerarCodigos | apps/produtos/signals.py:51-62 | Images are regenerated exactly when the flag is set and the code is not empty |
| ProdutosSignals.FollowUpSaveRegeneratesNothing | apps/produtos/signals.py:84-86 | The handler's own follow-up save sees the code unchanged and regenerates nothing, so the two handlers do not loop |
| ProdutosSignals.NewCodeRegenerates | apps/produtos/signals.py:48-62 | A new variation saved with a non-empty code always gets its images, in the symbology of its code |
| ProdutosSignals.KitStep | apps/produtos/signals.py:101-102 | The component's row is written with the new quantity, whatever the alert handler then does |
| ProdutosSignals.KitStepHistory | apps/produtos/signals.py:99-110 | A completed save appends one history row with the quantity before and after; a save whose alert handler raises appends nothing more |
| ProdutosSignals.Montado | apps/produtos/signals.py:94-110 | The loop keeps the set of variations and every component's first variation stored |
| ProdutosSignals.MontadoVariacoes | apps/produtos/signals.py:96-102 | Variations that are no component's first variation are untouched, and a non-negative quantity never becomes negative |
| ProdutosSignals.MontadoHistorico | apps/produtos/signals.py:103-110 | Assembly only appends history, each row a 'Kit Montado' row with a non-negative new quantity |
| ProdutosSignals.TwoRowsFirstComponent | apps/produtos/signals.py:96-102 | Over a two-row kit the first component ends as its own row's step left it |
| ProdutosSignals.AssemblyRedecrements | apps/produtos/signals.py:94-102 | As written: when a kit's two rows are created one after the other, the first component is taken out twice |
| ProdutosSignals.AbateComponente | apps/produtos/signals.py:94-102 | The assembly handler as evidently intended: only the created row's component is taken out, floored at zero, with its history row; stated by FirstRowAgrees and CorrectedDecrementsOnce |
| ProdutosSignals.FirstRowAgrees | apps/produtos/signals.py:94-102 | For a kit's first row the corrected handler and the as-written one agree |
| ProdutosSignals.CorrectedDecrementsOnce | apps/produtos/signals.py:94-102 | Corrected: creating a kit's two rows one after the other takes each component out exactly once |
| ProdutosSignals.AssemblyUndoneIffCovered | apps/produtos/signals.py:94-130 | Creating a kit's only row and deleting it restores the component's stock exactly when the stock covered the row (the assembly floors at zero, the undo does not cap) |
| ProdutosSignals.KitSave | apps/produtos/signals.py:101-110 | The ledger becomes KitStep of the old one, nothing rolled back |
| ProdutosSignals.AbateEstoque | apps/produtos/signals.py:89-110 | abate_estoque_ao_montar_kit as written; stated by MontadoVariacoes, MontadoHistorico and AssemblyRedecrements |
| ProdutosSignals.AbateEstoqueAoMontarKit | apps/produtos/signals.py:89-110 | The ledger becomes AbateEstoque of the old one |
| ProdutosSignals.Desfeito | apps/produtos/signals.py:112-130 | devolve_estoque_ao_desmontar_kit; stated by AssemblyUndoneIffCovered |
| ProdutosSignals.DevolveEstoqueAoDesmontarKit | apps/produtos/signals.py:112-130 | The ledger becomes Desfeito of the old one |
| MovimentacaoForms.CleanNumeroLote | apps/movimentacao/forms.py:39-45 | An accepted number is returned unchanged |
| MovimentacaoForms.CleanNumeroLoteSpec | apps/movimentacao/forms.py:39-45 | A number is accepted exactly when it is not blank and no other lot holds it; the lot being edited may keep its own |
| MovimentacaoForms.AcceptedNumeroKeepsUnique | apps/movimentacao/forms.py:39-45 | Saving an accepted number keeps lot numbers and keys unique |
| MovimentacaoForms.CleanQuantidadeLote | apps/movimentacao/forms.py:47-51 | Accepted exactly when positive, and returned unchanged |
| MovimentacaoForms.CleanQuantidadeMovAsWritten | apps/movimentacao/forms.py:89-94 | `clean_quantidade` as written, comparing the type row with the text 'Ajuste'; stated by AjusteNotExempt and CorrectionOnlyFreesAjuste |
| MovimentacaoForms.AjusteNotExempt | apps/movimentacao/forms.py:89-94 | As written: a type named 'Ajuste' is refused every non-positive quantity, since the row never equals the string |
| MovimentacaoForms.CleanQuantidadeMov | apps/movimentacao/forms.py:89-94 | Corrected clean_quantidade; stated by CleanQuantidadeMovSpec and CorrectionOnlyFreesAjuste |
| MovimentacaoForms.CleanQuantidadeMovSpec | apps/movimentacao/forms.py:89-94 | Corrected: 'Ajuste' accepts every quantity, every other type exactly the positive ones; accepted values are unchanged |
| MovimentacaoForms.CorrectionOnlyFreesAjuste | apps/movimentacao/forms.py:89-94 | The corrected and the as-written check differ exactly on a non-positive quantity for 'Ajuste' |
| MovimentacaoForms.CleanQuantidadeAjuste | apps/movimentacao/forms.py:112-116 | Accepted exactly when not negative, and returned unchanged |
| AtivosSignals.Render | apps/ativos/signals.py:53-62 | A falsy value is logged as '-'; a non-empty string as itself |
| AtivosSignals.ZeroCostRendersDash | apps/ativos/signals.py:55-60 | A zero cost is falsy and is logged as '-' |
| AtivosSignals.PyEqEquivalence | apps/ativos/signals.py:64 | The comparison is an equivalence and compares related rows by primary key only |
| AtivosSignals.CampoDbs | apps/ativos/signals.py:26-44 | The database names of the monitored fields, in order |
| AtivosSignals.MonitoredFieldsDistinct | apps/ativos/signals.py:26-44 | Seventeen monitored fields, with distinct names |
| AtivosSignals.AlteracoesUpTo | apps/ativos/signals.py:49-70 | At most one entry per field examined |
| AtivosSignals.ChangedDbs | apps/ativos/signals.py:67 | The database name of each recorded change, in order |
| AtivosSignals.Registrar | apps/ativos/signals.py:18-72 | registrar_alteracoes: the pending changes of a stored asset; stated by AlteracoesField, AlteracoesMonitored and UnchangedRecordsNothing |
| AtivosSignals.AlteracoesField | apps/ativos/signals.py:49-70 | Among distinct fields, a field is recorded exactly when its old and new values differ |
| AtivosSignals.AlteracoesMonitored | apps/ativos/signals.py:49-70 | Every recorded change is the entry of a monitored field with its rendered old and new values |
| AtivosSignals.Recorded | apps/ativos/signals.py:65-70 | One candidate entry per monitored field |
| AtivosSignals.UnchangedRecordsNothing | apps/ativos/signals.py:64 | Saving an asset whose monitored values all compare equal records nothing |
| AtivosSignals.OnlyOneChanged | apps/ativos/signals.py:49-70 | When one field alone changed, the list is exactly that field's entry |
| AtivosSignals.DescricaoMentions | apps/ativos/signals.py:85 | The description names the field and both rendered values |
| AtivosSignals.ChangeRows | apps/ativos/signals.py:79-87 | One history row per change, in order |
| AtivosSignals.PostSaveRows | apps/ativos/signals.py:7-88 | The two post_save handlers' history rows; stated by PostSaveSpec and UpdateLogsChangedFields |
| AtivosSignals.PostSaveSpec | apps/ativos/signals.py:7-15 | Creating an asset writes exactly its one creation row, whatever is pending; an update writes one row per pending change (also lines 75-87) |
| AtivosSignals.UpdateLogsChangedFields | apps/ativos/signals.py:18-87 | An update of a stored asset writes one row per recorded change, and a monitored field is recorded exactly when its values differ |
| AtivosSignals.UtilizadorRows | apps/ativos/signals.py:90-98 | An assignment writes one row naming the user's full name, or the username when that is empty; an update writes none |
| AtivosSignals.AtivoInstance.constructor | apps/ativos/signals.py:18-21 | An instance with its key and values and no pending changes |
| AtivosSignals.AtivoInstance.RegistrarAlteracoes | apps/ativos/signals.py:18-72 | The pending changes become Registrar of the old ones |
| AtivosSignals.HistoricoTable.constructor | apps/ativos/signals.py:11 | An empty history table |
| AtivosSignals.HistoricoTable.PostSave | apps/ativos/signals.py:7-15 | The table gains exactly PostSaveRows (also lines 75-87) |
| AtivosSignals.HistoricoTable.UtilizadorSaved | apps/ativos/signals.py:90-98 | The table gains exactly UtilizadorRows |
| InventorySignals.StatusAfterSave | apps/inventory/signals.py:28-68 | verificar_status_maquina's is_online; stated by StatusAfterSaveSpec, OfflineStaysOffline and TimeoutBoundaryOnline |
| InventorySignals.StatusAfterSaveSpec | apps/inventory/signals.py:28-68 | A new machine, a vanished row and a changed last_seen mean online; otherwise offline exactly when there is no last_seen or it is strictly older than the timeout |
| InventorySignals.OfflineStaysOffline | apps/inventory/signals.py:52-64 | A machine found offline stays offline at any later time while last_seen does not change |
| InventorySignals.TimeoutBoundaryOnline | apps/inventory/signals.py:54-61 | A report exactly as old as the timeout is online; one second older is offline |
| InventorySignals.MachineInstance.constructor | apps/inventory/signals.py:28-36 | An instance with the given key, last_seen and flag |
| InventorySignals.MachineInstance.VerificarStatusMaquina | apps/inventory/signals.py:28-68 | is_online becomes StatusAfterSave and nothing else changes |
| AuditoriaViews.CountVerified | apps/auditoria/views.py:375 | The verified count never exceeds the number of items |
| AuditoriaViews.CountPending | apps/auditoria/views.py:758 | The pending count never exceeds the number of items |
| AuditoriaViews.CountsPartition | apps/auditoria/views.py:756-758 | Verified and pending items add up to all items |
| AuditoriaViews.CountUpdate | apps/auditoria/views.py:224-234 | Replacing one item changes the verified count by the change in its flag |
| AuditoriaViews.PendentesCountsUnverified | apps/auditoria/views.py:758 | With accurate counters, `total_ativos - ativos_verificados` counts the unverified items and is never negative |
| AuditoriaViews.FindItem | apps/auditoria/views.py:222 | The position of the item with that key in the audit, or none exactly when the audit has no such item |
| AuditoriaViews.Recount | apps/auditoria/views.py:237 | After `atualizar_estatisticas` the verified counter equals the number of verified items |
| AuditoriaViews.Selecionados | apps/auditoria/views.py:108-111 | A sub-list of the assets |
| AuditoriaViews.SelecionadosSpec | apps/auditoria/views.py:108-111 | Exactly the client's assets at the audit's location |
| AuditoriaViews.NovosItens | apps/auditoria/views.py:114-118 | One item per selected asset |
| AuditoriaViews.Criada | apps/auditoria/views.py:103-132 | The audit form_valid: one item per selected asset, the counters and the creation history row; stated by CriadaSpec |
| AuditoriaViews.CriadaSpec | apps/auditoria/views.py:103-132 | A new audit holds one unverified item per asset of its client at its location, in order, its counters are accurate, and one history row is written |
| AuditoriaViews.NoneVerified | apps/auditoria/views.py:114-121 | Items none of which is verified count zero |
| AuditoriaViews.Verificar | apps/auditoria/views.py:210-258 | verificar_item (HTML and API): the audit after verifying one item, or the error; its contract is stated by VerificarSpec |
| AuditoriaViews.VerificarSpec | apps/auditoria/views.py:210-258 | Verifying succeeds exactly for the client's own audit in progress (status '0' in HTML, 'em_andamento' in the API) and one of its items; it marks that item verified now by the user, leaves the other items and the status, keeps the counters accurate and writes one history row (also lines 530-581) |
| AuditoriaViews.Desverificar | apps/auditoria/views.py:260-300 | desverificar_item: the audit after unverifying one item, or the error; stated by DesverificarSpec and VerifyThenUnverify |
| AuditoriaViews.DesverificarSpec | apps/auditoria/views.py:260-300 | Unverifying succeeds under the same conditions and clears the flag, date and user of that item alone, keeping the counters accurate (also lines 583-619) |
| AuditoriaViews.VerifyThenUnverify | apps/auditoria/views.py:210-300 | Unverifying undoes verifying: the item is cleared and the verified count returns to what it was |
| AuditoriaViews.FindItemFirst | apps/auditoria/views.py:222 | Items with the same keys in the same places are found at the same place (also line 272) |
| AuditoriaViews.StatusVocabulariesDisjoint | apps/auditoria/views.py:219 | The HTML views and the API never agree that an audit is in progress: when one accepts, the other refuses (also line 543) |
| AuditoriaViews.Cancelar | apps/auditoria/views.py:388-412 | cancelar_auditoria: the cancelled audit with its history row, or the error; stated by CancelarSpec |
| AuditoriaViews.CancelarSpec | apps/auditoria/views.py:388-412 | Cancelling succeeds exactly for the client's audit in progress; it changes only the status and the history, and a cancelled audit cannot be cancelled again (also lines 698-726) |
| AuditoriaViews.FinalNote | apps/auditoria/views.py:333-338 | The observations after the final note is appended; stated by FinalNoteSpec |
| AuditoriaViews.FinalNoteSpec | apps/auditoria/views.py:333-338 | An empty note changes nothing; otherwise the old notes are a prefix, the text ends with the note and carries the "Observações Finais: " label |
| AuditoriaViews.AuditLine | apps/auditoria/views.py:350-353 | The stamped line starts with "Auditoria realizada em " |
| AuditoriaViews.AppendLineSpec | apps/auditoria/views.py:355-358 | A non-empty text keeps its old lines and gains the new one after a line break; an empty or missing one becomes the line; the value always changes |
| AuditoriaViews.Stamped | apps/auditoria/views.py:355-360 | The asset keeps its number of monitored values |
| AuditoriaViews.StampAsset | apps/auditoria/views.py:346-369 | Stamping keeps the asset table well formed with the same assets |
| AuditoriaViews.StampAssetRows | apps/auditoria/views.py:346-369 | Stamping writes exactly two rows, the save signal's change of the Auditoria field and the view's own row, and changes no other asset |
| AuditoriaViews.StampAll | apps/auditoria/views.py:343-369 | The loop keeps the asset table well formed with the same assets |
| AuditoriaViews.StampAllUntouched | apps/auditoria/views.py:343 | Assets of no verified item keep their values |
| AuditoriaViews.StampAllStamps | apps/auditoria/views.py:343-360 | With distinct assets, each verified item's asset ends with exactly its own line added |
| AuditoriaViews.FinalizarAsWritten | apps/auditoria/views.py:319-331 | The HTML finalise view as written, with no status check; stated by CancelledAuditFinalised |
| AuditoriaViews.CancelledAuditFinalised | apps/auditoria/views.py:319-331 | As written: the HTML view finalises a cancelled audit, changing its status to finalised |
| AuditoriaViews.Finalizar | apps/auditoria/views.py:319-386 | Corrected finalisation: status, date, final note, asset stamps and history row, or the error; stated by FinalizarSpec and FinalizarStampsVerified |
| AuditoriaViews.FinalizarSpec | apps/auditoria/views.py:319-386 | Corrected: finalising succeeds exactly for the client's audit in progress, sets the status and date, keeps the items, writes one history row, cannot be repeated, and agrees with the code as written on the API side and on every audit in progress (also lines 621-696) |
| AuditoriaViews.FinalizarStampsVerified | apps/auditoria/views.py:341-369 | A finalisation touches no asset outside the verified items and stamps each verified item's asset with its line |
| AuditoriaViews.Partes | apps/auditoria/views.py:744-746 | Hours under 24, minutes under 60, and days, hours and minutes make up the elapsed seconds to within a minute |
| AuditoriaViews.TempoDecorrido | apps/auditoria/views.py:737-753 | The elapsed-time text in days, hours or minutes; stated by Partes, TempoDecorridoDays, TempoDecorridoHours and TempoDecorridoMinutes |
| AuditoriaViews.TempoDecorridoDays | apps/auditoria/views.py:748-749 | From one full day on, the text starts with the number of days |
| AuditoriaViews.TempoDecorridoHours | apps/auditoria/views.py:750-751 | Under a day and from an hour on, whole hours and minutes |
| AuditoriaViews.TempoDecorridoMinutes | apps/auditoria/views.py:752-753 | Under an hour, whole minutes |
| AuditoriaViews.AuditDesk.constructor | apps/auditoria/views.py:103-132 | The desk holds Criada of the saved audit and the given assets |
| AuditoriaViews.AuditDesk.Verify | apps/auditoria/views.py:210-258 | The audit becomes Verificar of the old one, or is unchanged on an error (also lines 530-581) |
| AuditoriaViews.AuditDesk.Unverify | apps/auditoria/views.py:260-300 | The audit becomes Desverificar of the old one, or is unchanged on an error (also lines 583-619) |
| AuditoriaViews.AuditDesk.Cancel | apps/auditoria/views.py:388-412 | The audit becomes Cancelar of the old one, or is unchanged on an error (also lines 698-726) |
| AuditoriaViews.AuditDesk.StampVerified | apps/auditoria/views.py:341-369 | The assets become StampAll of the old ones |
| AuditoriaViews.AuditDesk.Finalize | apps/auditoria/views.py:319-386 | Audit and assets become Finalizar of the old ones, or are unchanged on an error (also lines 621-696) |
| InventoryViews.ParseIntOfNat | apps/inventory/views.py:425 | `int()` reads back the decimal text of every natural number |
| InventoryViews.DigitRun | apps/inventory/views.py:33 | The `\d+` of the date pattern: the run found is all digits and stops before a non-digit or the end |
| InventoryViews.DigitRunOf | apps/inventory/views.py:33 | Any maximal run of digits is the one `\d+` matches (uniqueness of the greedy match) |
| InventoryViews.MatchAt | apps/inventory/views.py:33 | A match at a position is `/Date(`, one or more digits, then `)/` |
| InventoryViews.SearchFrom | apps/inventory/views.py:33-35 | `re.search` finds the leftmost match and no earlier position matches; no result means no position matches |
| InventoryViews.WmiMillisAbsent | apps/inventory/views.py:33-35 | Text that never opens `/Date(`, and a missing value, carry no date |
| InventoryViews.WmiMillis | apps/inventory/views.py:33-36 | The milliseconds of the first /Date(ms)/ in the value; stated by WmiMillisRoundTrip and WmiMillisAbsent |
| InventoryViews.WmiMillisRoundTrip | apps/inventory/views.py:33-36 | `/Date(<ms>)/` followed by anything is read back as exactly `ms` |
| InventoryViews.ParseWmiDateAsWritten | apps/inventory/views.py:31-39 | `parse_wmi_date` as written: no value or no `/Date(ms)/` gives None, and a found date raises through `datetime.datetime`; stated by WmiDateAlwaysRaises and CheckinRefusedWithDate |
| InventoryViews.WmiDateAlwaysRaises | apps/inventory/views.py:37-39 | As written, every well-formed date raises, because `datetime.datetime` is not an attribute of the imported class |
| InventoryViews.ParseWmiDate | apps/inventory/views.py:31-39 | The corrected parse_wmi_date: the instant, None, or the error past year 9999; stated by ParseWmiDateSpec |
| InventoryViews.ParseWmiDateSpec | apps/inventory/views.py:31-39 | Corrected: a date up to year 9999 is read back exactly; text without a date, or a missing value, gives None |
| InventoryViews.Matches | apps/inventory/views.py:590 | The rows the token filter selects: exactly the active rows with that hash, in table order |
| InventoryViews.MatchesSame | apps/inventory/views.py:590 | The filter depends only on each row's hash and active flag |
| InventoryViews.Lookup | apps/inventory/views.py:589-595 | `objects.get` finds no row, several rows, or the one matching row |
| InventoryViews.LookupSpec | apps/inventory/views.py:589-595 | No row exactly when no active row has the hash; a single result excludes every other row; several means two distinct matching rows, and carries how many rows match (the count Django puts in its `MultipleObjectsReturned` text) |
| InventoryViews.Expired | apps/inventory/views.py:598 | `is_expired`, read as the expiry instant having passed; stated by ValidateSpec, UsedAtFirstOnly and CheckinIgnoresExpiry |
| InventoryViews.MarkUsed | apps/inventory/views.py:606 | `mark_as_used`, read as recording the time and the machine; stated by UsedAtFirstOnly |
| InventoryViews.Validate | apps/inventory/views.py:576-619 | AgentValidateTokenAPIView.post: the reply and the token table after it; stated by ValidateSpec and UsedAtFirstOnly |
| InventoryViews.ValidateSpec | apps/inventory/views.py:576-619 | 400 exactly for a blank token; 200 exactly for the single active, unexpired row with the stripped hash; a 401 means no active row or an expired one; any refusal leaves the table unchanged |
| InventoryViews.UsedAtFirstOnly | apps/inventory/views.py:604-606 | A successful validation sets used_at only when unset; any later validation, at any time and from any machine, leaves the table as it is and answers 200 exactly while the token has not expired, 401 'Token expirado' otherwise |
| InventoryViews.TokenParams | apps/inventory/views.py:422-441 | The token batch's count and expiry, or the refusal with the ValueError's text; stated by TokenParamsSpec, TokenParamsAcceptsRange and TokenParamsNotAnInt |
| InventoryViews.TokenParamsSpec | apps/inventory/views.py:422-441 | A batch is accepted exactly for 1 to 50 tokens and 1 to 365 days or 'infinite'; its expiry is now plus those days (36500 for 'infinite') |
| InventoryViews.TokenParamsAcceptsRange | apps/inventory/views.py:422-441 | Every count 1..50 and duration 1..365 typed as digits is accepted with that count and expiry |
| InventoryViews.TokenParamsNotAnInt | apps/inventory/views.py:422-441 | A count, or a duration other than 'infinite', that `int()` refuses raises the ValueError whose text names the value as `repr` shows it, the count checked first |
| InventoryViews.TokenParamsAbc | apps/inventory/views.py:424 | `quantity=abc` is refused with "invalid literal for int() with base 10: 'abc'" |
| InventoryViews.CheckinAsWritten | apps/inventory/views.py:43-99 | The check-in as written, with the raising date parse; stated by CheckinRefusedWithDate |
| InventoryViews.CheckinRefusedWithDate | apps/inventory/views.py:43-99 | As written, a check-in with a valid token and a reported install date is answered 400 and stores nothing |
| InventoryViews.Checkin | apps/inventory/views.py:43-99 | The corrected check-in: the reply and the machine table after it; stated by CheckinSpec and CheckinIgnoresExpiry |
| InventoryViews.CheckinSpec | apps/inventory/views.py:43-99 | Corrected: stored exactly with a hostname and an active token hash; the machine is then online, seen now, with both dates read back; no other machine changes; a refusal stores nothing |
| InventoryViews.CheckinIgnoresExpiry | apps/inventory/views.py:54-56 | The check-in gate does not look at expiry: an expired but active token is accepted |
| InventoryViews.VersionTuple | apps/inventory/views.py:645-649 | A version tuple is never empty: the fallback is (0, 0, 0) |
| InventoryViews.TupleLessTotal | apps/inventory/views.py:654 | Tuple comparison is asymmetric and total |
| InventoryViews.TupleLessTransitive | apps/inventory/views.py:654 | Tuple comparison is transitive |
| InventoryViews.PrefixIsOlder | apps/inventory/views.py:654 | A version is older than every longer version it is a prefix of, so 1.2 is older than 1.2.0 |
| InventoryViews.VersionTupleRoundTrip | apps/inventory/views.py:645-647 | A version written as dotted naturals is read back as those naturals |
| InventoryViews.VersionTupleFallback | apps/inventory/views.py:645-649 | Any part that is not an integer makes the whole version (0, 0, 0) |
| InventoryViews.LatestActive | apps/inventory/views.py:634-636 | The row chosen is active and no active row was created later; none is chosen only when no row is active |
| InventoryViews.CheckUpdate | apps/inventory/views.py:627-668 | AgentCheckUpdateAPIView: the version offered, if any; stated by CheckUpdateSpec and UpToDateNotOffered |
| InventoryViews.CheckUpdateSpec | apps/inventory/views.py:627-668 | An offered version is active, no older than any active version, and newer than the agent's or mandatory; nothing is offered exactly when no version is active or the newest active one is neither newer nor mandatory |
| InventoryViews.UpToDateNotOffered | apps/inventory/views.py:654 | An agent already on the newest version is offered it again only when it is mandatory |
| AgentNotifications.IdText | apps/inventory/agents/agent.py:523 | `str()` of an id: a string id is itself, a number becomes its decimal digits |
| AgentNotifications.KeySpec | apps/inventory/agents/agent.py:523 | Two ids load back as the same history entry exactly when their texts agree; loading twice changes nothing |
| AgentNotifications.LoadHistory | apps/inventory/agents/agent.py:517-526 | A missing or unreadable history file gives the empty set; every loaded id is a string |
| AgentNotifications.LoadHistoryOfStrings | apps/inventory/agents/agent.py:517-526 | A history file of string ids is loaded back unchanged |
| AgentNotifications.LoadHistoryLosesNumbers | apps/inventory/agents/agent.py:523 | A numeric id saved to the history file is never found after loading it |
| AgentNotifications.IconFor | apps/inventory/agents/agent.py:700-708 | The title icon comes from the icon map; an unknown type gets the info icon |
| AgentNotifications.PriorityFor | apps/inventory/agents/agent.py:712-718 | The popup priority is info, high or critical; an unknown priority gets info |
| AgentNotifications.IconsDistinct | apps/inventory/agents/agent.py:700-707 | Different known icon types get different icons |
| AgentNotifications.PriorityIdempotent | apps/inventory/agents/agent.py:712-718 | Mapping a popup priority again leaves it unchanged |
| AgentNotifications.PopupFor | apps/inventory/agents/agent.py:861-870 | The popup title is the icon, a space, then the title or 'Notificação'; the message defaults to ''; the priority is the mapped priority, 'normal' when absent (also lines 708-721) |
| AgentNotifications.PopupDefaults | apps/inventory/agents/agent.py:861-864 | A notification with no type, title, message or priority gets the info icon, 'Notificação', '' and info |
| AgentNotifications.PopupsOf | apps/inventory/agents/agent.py:866-871 | One popup per displayed notification, in order |
| AgentNotifications.Scan | apps/inventory/agents/agent.py:852-896 | The shown set only grows; no more ids are marked read than popups asked for, and no more popups than notifications |
| AgentNotifications.Process | apps/inventory/agents/agent.py:832-849 | Nothing happens while notifications are disabled or when none are pending |
| AgentNotifications.ScanShown | apps/inventory/agents/agent.py:856-892 | Afterwards an id is shown exactly when it was before or one of its popups was shown; a failed popup is retried next time |
| AgentNotifications.ScanReadsUnseen | apps/inventory/agents/agent.py:856-895 | Only ids not shown before are marked read; each one marked read is then shown; none is marked read twice |
| AgentNotifications.RerunSkipsRead | apps/inventory/agents/agent.py:856-859 | Processing the same batch again marks none of the ids already marked read |
| AgentNotifications.Normalised | apps/inventory/agents/agent.py:853 | Each notification keeps all its fields; only its id is replaced by its string form |
| AgentNotifications.RestartShowsAgain | apps/inventory/agents/agent.py:517-526 | As written, a numeric id shown and saved is shown and marked read again after the history is reloaded (also lines 853-892) |
| AgentNotifications.ScanNormalisedStrings | apps/inventory/agents/agent.py:853-888 | With string ids, the shown set holds only strings |
| AgentNotifications.RestartRemembers | apps/inventory/agents/agent.py:517-536 | Corrected: an id marked read in one run is never marked read again after a restart that reloads the history (also lines 853-892) |
| AgentNotifications.RunScan | apps/inventory/agents/agent.py:852-896 | The loop computes exactly the shown set, popups and read ids of `Scan` |
| AgentNotifications.NotificationManager.constructor | apps/inventory/agents/agent.py:495-513 | The flag comes from the configuration; the shown set is loaded from the history file; nothing is shown or read yet |
| AgentNotifications.NotificationManager.ProcessPending | apps/inventory/agents/agent.py:832-896 | The new shown set, popups and read ids are those of `Process` on normalised ids; the history is rewritten when something was read; the flag is unchanged |
| Agent.MonitorStepAsWritten | apps/inventory/agents/agent.py:949-963 | One console monitor iteration as written: the new last_status and the log; stated by MonitorStepAsWrittenRecordsEvent, OutageFlaps and ReconnectUnlogged |
| Agent.MonitorStepAsWrittenRecordsEvent | apps/inventory/agents/agent.py:949-963 | As written, `last_status` holds the event just logged: 'offline' exactly after the warning, 'reconnected' exactly after the restore message, None after a quiet check |
| Agent.MonitorStep | apps/inventory/agents/agent_tray.py:1021-1036 | One tray monitor iteration: the new last_status and the log; stated by MonitorStepRecordsState and OutageWarnsOnce |
| Agent.MonitorStepRecordsState | apps/inventory/agents/agent_tray.py:1021-1036 | `last_status` is 'offline' exactly when the check failed; the warning comes only on entering an outage and the restore message only on leaving one |
| Agent.Run | apps/inventory/agents/agent.py:949-965 | Consecutive checks log one entry per check |
| Agent.Outage | apps/inventory/agents/agent.py:954 | An outage of `k` checks is `k` failed checks |
| Agent.OutageSplit | apps/inventory/agents/agent.py:954 | An outage is one failed check followed by a shorter outage |
| Agent.OutageFlaps | apps/inventory/agents/agent.py:949-963 | As written, an outage entered while connected logs the warning on the first, third, fifth … check; `last_status` ends None after an even number of checks |
| Agent.ReconnectUnlogged | apps/inventory/agents/agent.py:954-957 | As written, reconnecting after an even number of failed checks logs no restore message |
| Agent.OutageWarnsOnce | apps/inventory/agents/agent_tray.py:1021-1036 | Corrected: an outage warns once, on its first check, unless already offline; the next successful check logs the restore message |
| Agent.AfterFirstEquals | apps/inventory/agents/agent.py:1068 | `split('=', 1)[1]` is the text after the first '=' and contains no earlier '=' |
| Agent.TokenValue | apps/inventory/agents/agent.py:1067-1068 | The value of a `--token=` argument is everything after the flag, later '=' signs included |
| Agent.FirstToken | apps/inventory/agents/agent.py:1064-1069 | The value of the first --token= argument; stated by FirstTokenSpec |
| Agent.FirstTokenSpec | apps/inventory/agents/agent.py:1065-1069 | A token is found exactly when some argument starts with `--token=`, and it is the value of the first such argument |
| Agent.TokenFromArgv | apps/inventory/agents/agent.py:1064-1069 | The loop over `sys.argv[1:]` returns the first `--token=` value, None without one |
| Agent.ParseLaunch | apps/inventory/agents/agent.py:1056-1069 | `--test` as the first argument runs the self-test; otherwise the agent starts with the first `--token=` value |
| Agent.Startup | apps/inventory/agents/agent.py:901-916 | Start-up succeeds exactly with a non-empty token the server accepts, or with no token and a configured hash; the agent runs with the token's hash or the configured one |
| Agent.StartupTokenChoice | apps/inventory/agents/agent.py:904-916 | An empty token counts as no token; with a non-empty token the configured hash does not matter |
| Agent.CommandLineStartup | apps/inventory/agents/agent.py:1065-1072 | `--token=<t>` with a non-empty `t` starts the agent exactly when the server accepts the hash of `t` (also lines 901-913) |
| Agent.InventoryAgent.constructor | apps/inventory/agents/agent.py:901-922 | A started agent has its token hash and no recorded status |
| Agent.InventoryAgent.CheckConnectivity | apps/inventory/agents/agent.py:949-963 | One console monitor iteration as written: the log and last_status are those of MonitorStepAsWritten, so last_status is 'offline' exactly after the warning |
| AgentTray.IconColour | apps/inventory/agents/agent_tray.py:849-856 | The icon fill comes from the colour map; an unknown name gets gray |
| AgentTray.StatusColour | apps/inventory/agents/agent_tray.py:864 | The status colour is green exactly when online, and never gray |
| AgentTray.ColoursDistinct | apps/inventory/agents/agent_tray.py:849-854 | Different named colours have different fills |
| AgentTray.SystemTrayIcon.constructor | apps/inventory/agents/agent_tray.py:837-840 | A new tray icon has no image yet and reports offline |
| AgentTray.SystemTrayIcon.Setup | apps/inventory/agents/agent_tray.py:939-958 | After `setup` the icon exists and is gray |
| AgentTray.SystemTrayIcon.UpdateIcon | apps/inventory/agents/agent_tray.py:861-866 | Before `setup` nothing changes; afterwards the fill is green or red and the status follows the connection |
| AgentTray.TrayAgent.constructor | apps/inventory/agents/agent_tray.py:968-993 | A started tray agent has no recorded status, the manager's flag from the configuration, its history loaded, and its icon set up gray |
| AgentTray.TrayAgent.CheckConnectivity | apps/inventory/agents/agent_tray.py:1021-1036 | One monitor iteration repaints the icon, logs and records the state as `Agent.MonitorStep` says |
| AgentTray.TrayAgent.ToggleNotifications | apps/inventory/agents/agent_tray.py:910-913 | The notifications setting flips and the manager's flag follows it |
| AgentTray.TestFlagIgnored | apps/inventory/agents/agent_tray.py:1081-1089 | The tray agent has no self-test: after `--test`, a `--token=` argument still gives the token |
| Installer.ValidateConfiguration | apps/inventory/agents/install_agent.py:405-421 | validate_configuration's error, if any; stated by ValidateConfigurationSpec and ValidateIgnoresPadding |
| Installer.ValidateConfigurationSpec | apps/inventory/agents/install_agent.py:405-421 | The configuration passes exactly when the trimmed directory is non-empty and the trimmed token has 8 characters; a missing directory is reported first, then a blank token, then a wrong length |
| Installer.ValidateIgnoresPadding | apps/inventory/agents/install_agent.py:407 | Spaces around either field never change the verdict (also line 412) |
| Installer.NextStep | apps/inventory/agents/install_agent.py:388-403 | Next never leaves the four pages |
| Installer.PreviousStep | apps/inventory/agents/install_agent.py:379-386 | Back never leaves the four pages |
| Installer.InstallFinished | apps/inventory/agents/install_agent.py:715-733 | The end of an installation lands on the finish page or, after an error, on the configuration page |
| Installer.InstallOnlyWhenValid | apps/inventory/agents/install_agent.py:394-401 | The installation starts only from the configuration page with a passing configuration, and starting it disables Back, Next and Cancel |
| Installer.NextStepSpec | apps/inventory/agents/install_agent.py:388-403 | For every wizard: page 0 goes to page 1 with Back on; page 1 starts the installation with every button off exactly when the trimmed directory is non-empty and the trimmed token has 8 characters, and otherwise only shows the error; page 2 changes nothing; page 3 quits |
| Installer.FailedCheckStays | apps/inventory/agents/install_agent.py:395-396 | A failing configuration shows its error and changes nothing else (also lines 405-421) |
| Installer.ForwardThenBack | apps/inventory/agents/install_agent.py:379-394 | Next then Back from the welcome page returns to it with Back disabled and Next enabled |
| Installer.PreviousStepSpec | apps/inventory/agents/install_agent.py:379-386 | Back moves exactly one page down and enables Next; landing on the welcome page disables Back; on the welcome page it does nothing |
| Installer.FailedInstallKeepsCancelDisabled | apps/inventory/agents/install_agent.py:396-401 | After a failed installation the configuration page is back with Back and Next enabled, but Cancel stays disabled (also lines 724-733) |
| Installer.FinishQuits | apps/inventory/agents/install_agent.py:401-402 | Next on the finish page quits the installer (also lines 720-721) |
| Installer.NssmCandidates | apps/inventory/agents/install_agent.py:481-486 | NSSM is looked for in four places |
| Installer.FirstExisting | apps/inventory/agents/install_agent.py:488-494 | A candidate found exists |
| Installer.FirstExistingSpec | apps/inventory/agents/install_agent.py:488-504 | Nothing is found exactly when no candidate exists; otherwise the first existing candidate is found (also lines 520-535) |
| Installer.AgentCandidates | apps/inventory/agents/install_agent.py:513-518 | One agent candidate per bundled name, in order |
| Installer.LastDot | apps/inventory/agents/install_agent.py:526 | The last '.' of a name, or none |
| Installer.Suffix | apps/inventory/agents/install_agent.py:526 | A suffix is empty, or a final '.' with at least one character and no other '.', taken from the end of the name |
| Installer.AgentNameSuffixes | apps/inventory/agents/install_agent.py:513-526 | Both `agent.exe` candidates are programs; the other two names are not |
| Installer.InstallCommand | apps/inventory/agents/install_agent.py:576-603 | `nssm install InventoryAgent` with the agent program and `--token=<token>`, or with Python, the script and `--token=<token>` |
| Installer.PlanInstall | apps/inventory/agents/install_agent.py:476-603 | The files and command install_agent uses, or its error; stated by PlanInstallSpec |
| Installer.PlanInstallSpec | apps/inventory/agents/install_agent.py:476-603 | The plan fails with the NSSM error exactly when no NSSM candidate exists; the files it uses exist; the service's command line gives the agent exactly the trimmed token, so the agent starts exactly when the server accepts its hash |
| Installer.AgentInstaller.constructor | apps/inventory/agents/install_agent.py:26-44 | The wizard opens on the welcome page with the default directory, an empty token and no NSSM path |
| Installer.AgentInstaller.Next | apps/inventory/agents/install_agent.py:388-403 | Next changes the window as `NextStep` says and leaves the fields alone |
| Installer.AgentInstaller.Previous | apps/inventory/agents/install_agent.py:379-386 | Back changes the window as `PreviousStep` says and leaves the fields alone |
| Installer.AgentInstaller.FindNssm | apps/inventory/agents/install_agent.py:488-494 | The search records the first existing candidate as the NSSM path and reports whether one was found |

## Left out

- I/O: the database, e-mail transport, HTTP, threads, sleeps, logging, tkinter/pystray and subprocesses are not modelled. Their inputs and outcomes are parameters.
- SHA-256, MIME header decoding and the barcode/QR image libraries are function parameters or left out.
- Python's `\s`, `strip()` and `split()` are modelled with the six characters space, `\t`, `\n`, `\r`, `\x0b` and `\x0c` as whitespace. The other characters Python also treats as whitespace (`\x1c`-`\x1f`, `\x85`, `\xa0` and the other Unicode spaces) are not.
- Python's `\d` and `isdigit()` are modelled as the ASCII digits only. Unicode digits and `int()` underscores are not accepted.
- `repr` of a string, as `int()`'s `ValueError` shows it, escapes the ASCII control characters and leaves every non-ASCII character as it is. Python's escaping of non-printable non-ASCII characters is not modelled.
- `icontains` is an ASCII-lowercased substring test. Unicode case folding is not modelled.
- ProdutosSignals: the barcode and QR images themselves are not drawn; the model records only that they are regenerated and in which symbology.
- TicketModels.NumeroSuffix reads ASCII digits only.
- Decimal `str()` is simplified to a fixed four-place form. `quantize` is modelled as round-half-even.
- MovimentacaoSignals: the movement rows themselves are not a table of the model. A refused exit (Saída) returns the handler's error. Whether the movement row that was already saved survives it depends on the caller's transaction, which is not modelled.
- The stock `DeleteView`s and the list, create, update and delete views of SLA contracts, SLA rules and macros are not part of this model. `aplicar_macro_ao_ticket` is modelled.
- The `auditoria` models file is not part of this model:
  - `atualizar_estatisticas` is taken to recount the verified items;
  - `calcular_progresso` and the per-state counts are left out.
- AuditoriaViews: serializer and form validation are assumed to pass.
- AuditoriaViews: the `strftime` date text is passed in as `quando`.
- AuditoriaViews: stale `select_related` caches and the API's 404 body are not modelled.
- InventoryViews: the `AgentToken` and `AgentVersion` models are not part of this model. `is_expired` is read as `now > expires_at`, and `mark_as_used` as recording the time and the machine name.
- InventoryViews: random token generation and its retry loop are left out.
- InventoryViews: the milliseconds of a WMI date are kept whole; float division by 1000 and its rounding are not modelled.
- InventoryViews: check-in stores only the fields the model follows (address, online flag, last seen, both dates). The other hardware fields are copied verbatim by the source.
- InventoryViews.LatestActive breaks ties in `created_at` by the earlier row. The database order for equal timestamps is unspecified.
- InventoryViews: non-string JSON values in requests are not modelled.
- The `notification_created` print signal is left out.
- AgentNotifications: a notification without an `id` (`None`) is not modelled; ids are numbers or strings. JSON `null` fields count as absent.
- AgentNotifications: `send_notification`'s own enabled check, its exception path and the popup's close wait are folded into the per-notification flag `ok`.
- The tray agent repeats the console agent's `NotificationManager` and its icon and priority maps verbatim. `AgentNotifications` models both.
- AgentTray: concurrent toggling from the menu thread is not modelled.
- Agent.Startup: the side effect of `config.set('token_hash', …)` is not modelled; only the hash the agent runs with is.
- Installer: the steps other than the file search and the service command are left out: administrator check, service stop/remove, environment settings, start, log and progress bar.
- Installer: `Path` normalisation is not modelled; paths are joined with `\`. The directory is used as typed, unstripped, as in the source.

## Findings

| source | as written | input that shows it | evidently intended | confidence | as-written member | corrected member |
|---|---|---|---|---|---|---|
| apps/tickets/models.py:681-695 | The last number of the year is the string maximum of `YYYY-NNNNNN`, so a seven-digit number sorts below `999999` | tickets `2024-999999` and `2024-1000000` stored: the next number is `2024-1000000` again | the next number is one past the largest number of the year | high, not executed | TicketModels.NumberingRepeatsAfterMillion | TicketModels.NextNumeroFresh |
| apps/movimentacao/forms.py:89-94 | `tipo != 'Ajuste'` compares a `TipoMovimentacao` row with a string, so it is always true | type named 'Ajuste' with quantity 0 is refused | adjustments may carry any quantity | high, not executed | MovimentacaoForms.AjusteNotExempt | MovimentacaoForms.CleanQuantidadeMovSpec |
| apps/produtos/signals.py:89-110 | each new composition row decrements every component of the kit, so components saved earlier are decremented again | a kit with two components saved one by one: the first component is decremented twice | each component is decremented once, when its row is created | medium, not executed | ProdutosSignals.AssemblyRedecrements | ProdutosSignals.CorrectedDecrementsOnce |
| apps/auditoria/views.py:319-331 | the HTML finalise view does not check the audit's status | a cancelled audit is finalised | only an audit in progress can be finalised, as the API requires | medium, not executed | AuditoriaViews.CancelledAuditFinalised | AuditoriaViews.FinalizarSpec |
| apps/inventory/views.py:31-39 | `datetime.datetime.utcfromtimestamp` on the imported `datetime` class raises, so every check-in that reports a date fails with 400 | `install_date` = `/Date(1755216000000)/` | the date is parsed and stored | high, not executed | InventoryViews.CheckinRefusedWithDate | InventoryViews.CheckinSpec |
| apps/inventory/agents/agent.py:949-963 | `last_status` records the event logged, not the connection state | three failed checks log warn, silent, warn; after two failed checks the reconnection is not logged | warn once per outage and log each reconnection, as the tray agent does | high, not executed | Agent.OutageFlaps | Agent.OutageWarnsOnce |
| apps/inventory/agents/agent.py:517-526 | the history file is loaded with ids turned into strings, while the server's numeric ids are compared and stored as numbers | a notification with id 5 is shown, saved and then shown again after a restart | an id shown once is never shown again | high, not executed | AgentNotifications.RestartShowsAgain | AgentNotifications.RestartRemembers |
