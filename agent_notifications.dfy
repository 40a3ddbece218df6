/**
 * The inventory agent's notification manager: it asks the server for
 * pending notifications, shows those it has not shown yet as a popup, and
 * only after a popup was shown records the id, rewrites the history file
 * and marks the notification read on the server.  The manager is the same
 * in the console agent and in the tray agent.
 *
 * A notification id is a JSON value: the server sends numbers, while the
 * history file is read back with every id turned into a string.
 */
module AgentNotifications {
  import opened Wrappers
  import opened Text

  /** A JSON id: a number or a string.  Python compares the two as different. */
  datatype JsonId = Num(n: nat) | Str(s: string)

  /** `str(x)` of an id. */
  function IdText(x: JsonId): (r: string)
    ensures x.Str? ==> r == x.s
    ensures x.Num? ==> AllDigits(r) && DigitsValue(r) == x.n
  {
    match x
    case Num(n) => NatToString(n)
    case Str(s) => s
  }

  /** The id as the history file gives it back: `str(x)`. */
  function Key(x: JsonId): JsonId { Str(IdText(x)) }

  /** Two ids have the same key exactly when their texts agree. */
  lemma KeySpec(x: JsonId, y: JsonId)
    ensures Key(x) == Key(y) <==> IdText(x) == IdText(y)
    ensures Key(x).Str? && Key(Key(x)) == Key(x)
  {
  }

  /**
   * `_load_history`: the ids of the history file, each turned into a
   * string; `file` is None when the file is missing or cannot be read.
   */
  function LoadHistory(file: Option<set<JsonId>>): (r: set<JsonId>)
    ensures file.None? ==> r == {}
    ensures forall x :: x in r ==> x.Str?
  {
    if file.None? then {} else set y | y in file.value :: Key(y)
  }

  /** Every id of a history file made only of strings comes back unchanged. */
  lemma LoadHistoryOfStrings(s: set<JsonId>)
    requires forall x :: x in s ==> x.Str?
    ensures LoadHistory(Some(s)) == s
  {
    forall x | x in s
      ensures x in LoadHistory(Some(s))
    {
      assert Key(x) == x;
    }
  }

  /** A number written to the history file is not found again after loading it. */
  lemma LoadHistoryLosesNumbers(s: set<JsonId>, n: nat)
    ensures Num(n) !in LoadHistory(Some(s))
  {
  }

  // ---------------------------------------------------------------------------
  // send_notification: the title icon and the popup priority
  // ---------------------------------------------------------------------------

  const InfoIcon: string := "ℹ️"

  /** `icon_map` of `send_notification`. */
  const IconMap: map<string, string> := map[
    "info" := InfoIcon,
    "warning" := "⚠️",
    "error" := "❌",
    "success" := "✅",
    "alert" := "\U{1F514}",
    "critical" := "\U{1F6A8}"
  ]

  /** `priority_map` of `send_notification`. */
  const PriorityMap: map<string, string> := map[
    "low" := "info",
    "normal" := "info",
    "high" := "high",
    "critical" := "critical"
  ]

  /** `icon_map.get(icon_type, 'ℹ️')`. */
  function IconFor(kind: string): (r: string)
    ensures kind !in IconMap ==> r == InfoIcon
    ensures r in IconMap.Values
  {
    assert IconMap["info"] == InfoIcon;
    if kind in IconMap then IconMap[kind] else InfoIcon
  }

  /** `priority_map.get(priority, 'info')`. */
  function PriorityFor(priority: string): (r: string)
    ensures r == "info" || r == "high" || r == "critical"
    ensures priority !in PriorityMap ==> r == "info"
  {
    if priority in PriorityMap then PriorityMap[priority] else "info"
  }

  /** Each icon type has its own icon, so a known type can be read back off the title. */
  lemma IconsDistinct(a: string, b: string)
    requires a in IconMap && b in IconMap && a != b
    ensures IconFor(a) != IconFor(b)
  {
  }

  /** The popup priority is already a popup priority: mapping it again changes nothing. */
  lemma PriorityIdempotent(priority: string)
    ensures PriorityFor(PriorityFor(priority)) == PriorityFor(priority)
  {
  }

  /** A notification as the server sends it; a missing key is None. */
  datatype Notif = Notif(id: JsonId, title: Option<string>, message: Option<string>,
                         kind: Option<string>, priority: Option<string>)

  /** What `_show_popup` is asked to show. */
  datatype Popup = Popup(title: string, message: string, priority: string)

  /**
   * The popup for one notification, with the defaults of
   * `process_pending_notifications` for missing keys.
   */
  function PopupFor(n: Notif): (p: Popup)
    ensures var icon := IconFor(n.kind.GetOr("info"));
            |icon| < |p.title| && p.title[..|icon|] == icon && p.title[|icon|] == ' '
            && p.title[|icon| + 1..] == n.title.GetOr("Notificação")
    ensures p.message == n.message.GetOr("")
    ensures p.priority == PriorityFor(n.priority.GetOr("normal"))
  {
    var icon := IconFor(n.kind.GetOr("info"));
    Popup(icon + " " + n.title.GetOr("Notificação"), n.message.GetOr(""),
          PriorityFor(n.priority.GetOr("normal")))
  }

  /** A notification without type, title or priority gets the info icon and the default title. */
  lemma PopupDefaults(id: JsonId)
    ensures PopupFor(Notif(id, None, None, None, None))
            == Popup(InfoIcon + " Notificação", "", "info")
  {
  }

  // ---------------------------------------------------------------------------
  // process_pending_notifications
  // ---------------------------------------------------------------------------

  /**
   * The effect of one pass: the shown set afterwards, the notifications a
   * popup was asked for in order, and the ids marked read in order.
   */
  datatype Outcome = Outcome(shown: set<JsonId>, displayed: seq<Notif>, read: seq<JsonId>)

  /** The popups asked for, one per displayed notification. */
  function PopupsOf(displayed: seq<Notif>): (r: seq<Popup>)
    ensures |r| == |displayed|
    ensures forall i :: 0 <= i < |r| ==> r[i] == PopupFor(displayed[i])
  {
    seq(|displayed|, i requires 0 <= i < |displayed| => PopupFor(displayed[i]))
  }

  /**
   * The loop over the fetched notifications.  `ok[i]` is whether the popup
   * for `notifs[i]` was shown (it is only asked for when that notification
   * is not skipped).
   */
  function Scan(shown: set<JsonId>, notifs: seq<Notif>, ok: seq<bool>): (r: Outcome)
    requires |ok| == |notifs|
    ensures shown <= r.shown
    ensures |r.read| <= |r.displayed| <= |notifs|
    decreases |notifs|
  {
    if notifs == [] then Outcome(shown, [], [])
    else
      var n := notifs[0];
      if n.id in shown then Scan(shown, notifs[1..], ok[1..])
      else
        var rest := Scan(if ok[0] then shown + {n.id} else shown, notifs[1..], ok[1..]);
        Outcome(rest.shown, [n] + rest.displayed,
                (if ok[0] then [n.id] else []) + rest.read)
  }

  /**
   * `process_pending_notifications`: nothing happens while notifications
   * are disabled or nothing is pending.
   */
  function Process(enabled: bool, shown: set<JsonId>, notifs: seq<Notif>, ok: seq<bool>): (r: Outcome)
    requires |ok| == |notifs|
    ensures !enabled || notifs == [] ==> r == Outcome(shown, [], [])
    ensures shown <= r.shown
  {
    if !enabled then Outcome(shown, [], [])
    else if notifs == [] then Outcome(shown, [], [])
    else Scan(shown, notifs, ok)
  }

  /**
   * An id is shown afterwards exactly when it was before, or some
   * notification carrying it had its popup shown.  So a popup that failed
   * every time leaves its id out, and the next pass tries it again.
   */
  lemma {:induction false} ScanShown(shown: set<JsonId>, notifs: seq<Notif>, ok: seq<bool>, x: JsonId)
    requires |ok| == |notifs|
    ensures x in Scan(shown, notifs, ok).shown
            <==> x in shown || exists i :: 0 <= i < |notifs| && notifs[i].id == x && ok[i]
    decreases |notifs|
  {
    if notifs != [] {
      var n := notifs[0];
      var s' := if n.id !in shown && ok[0] then shown + {n.id} else shown;
      assert Scan(shown, notifs, ok).shown == Scan(s', notifs[1..], ok[1..]).shown;
      ScanShown(s', notifs[1..], ok[1..], x);
      if exists i :: 0 <= i < |notifs| && notifs[i].id == x && ok[i] {
        var i :| 0 <= i < |notifs| && notifs[i].id == x && ok[i];
        if i > 0 {
          assert notifs[1..][i - 1].id == x && ok[1..][i - 1];
        }
      }
      if exists j :: 0 <= j < |notifs[1..]| && notifs[1..][j].id == x && ok[1..][j] {
        var j :| 0 <= j < |notifs[1..]| && notifs[1..][j].id == x && ok[1..][j];
        assert notifs[j + 1].id == x && ok[j + 1];
      }
    }
  }

  /**
   * Ids already shown are skipped: nothing marked read was in the shown set,
   * every id marked read is now in it, and no id is marked read twice.
   */
  lemma {:induction false} ScanReadsUnseen(shown: set<JsonId>, notifs: seq<Notif>, ok: seq<bool>)
    requires |ok| == |notifs|
    ensures var r := Scan(shown, notifs, ok);
            (forall j :: 0 <= j < |r.read| ==> r.read[j] !in shown && r.read[j] in r.shown)
            && Distinct(r.read)
    decreases |notifs|
  {
    if notifs != [] {
      var n := notifs[0];
      if n.id in shown {
        ScanReadsUnseen(shown, notifs[1..], ok[1..]);
      } else {
        var s' := if ok[0] then shown + {n.id} else shown;
        ScanReadsUnseen(s', notifs[1..], ok[1..]);
        var rest := Scan(s', notifs[1..], ok[1..]);
        var r := Scan(shown, notifs, ok);
        assert r.read == (if ok[0] then [n.id] else []) + rest.read;
        if ok[0] {
          assert n.id in rest.shown;
          forall j | 0 <= j < |rest.read|
            ensures rest.read[j] != n.id
          {
          }
        }
      }
    }
  }

  /**
   * Running the same batch again right after a pass marks none of its
   * read ids again.
   */
  lemma RerunSkipsRead(shown: set<JsonId>, notifs: seq<Notif>, ok: seq<bool>, again: seq<bool>)
    requires |ok| == |notifs| == |again|
    ensures var r := Scan(shown, notifs, ok);
            forall j, k :: 0 <= j < |r.read| && 0 <= k < |Scan(r.shown, notifs, again).read| ==>
              Scan(r.shown, notifs, again).read[k] != r.read[j]
  {
    var r := Scan(shown, notifs, ok);
    ScanReadsUnseen(shown, notifs, ok);
    ScanReadsUnseen(r.shown, notifs, again);
  }

  /** The batch with every id replaced by its string form: `str(notif.get('id'))`. */
  function Normalised(notifs: seq<Notif>): (r: seq<Notif>)
    ensures |r| == |notifs|
    ensures forall i :: 0 <= i < |r| ==> r[i] == notifs[i].(id := Key(notifs[i].id))
  {
    seq(|notifs|, i requires 0 <= i < |notifs| => notifs[i].(id := Key(notifs[i].id)))
  }

  /**
   * As written: a numeric id shown, saved and loaded back after a restart
   * is shown and marked read again.
   */
  lemma RestartShowsAgain(file: Option<set<JsonId>>, n: Notif, m: nat)
    requires n.id == Num(m)
    ensures var r := Scan(LoadHistory(file), [n], [true]);
            Num(m) in r.shown
            && Scan(LoadHistory(Some(r.shown)), [n], [true]).read == [Num(m)]
  {
    var r := Scan(LoadHistory(file), [n], [true]);
    assert Num(m) !in LoadHistory(file);
    LoadHistoryLosesNumbers(r.shown, m);
  }

  /** With normalised ids the shown set holds only strings. */
  lemma ScanNormalisedStrings(shown: set<JsonId>, notifs: seq<Notif>, ok: seq<bool>)
    requires |ok| == |notifs|
    requires forall x :: x in shown ==> x.Str?
    ensures forall x :: x in Scan(shown, Normalised(notifs), ok).shown ==> x.Str?
  {
    var ns := Normalised(notifs);
    forall x | x in Scan(shown, ns, ok).shown
      ensures x.Str?
    {
      ScanShown(shown, ns, ok, x);
      if x !in shown {
        var i :| 0 <= i < |ns| && ns[i].id == x && ok[i];
      }
    }
  }

  /**
   * Corrected: with ids compared as strings, an id marked read in one run
   * is skipped after a restart that reloads the history file.
   */
  lemma RestartRemembers(file: Option<set<JsonId>>, notifs: seq<Notif>, ok: seq<bool>,
                         later: seq<Notif>, again: seq<bool>)
    requires |ok| == |notifs| && |again| == |later|
    ensures var r := Scan(LoadHistory(file), Normalised(notifs), ok);
            var r2 := Scan(LoadHistory(Some(r.shown)), Normalised(later), again);
            forall j, k :: 0 <= j < |r.read| && 0 <= k < |r2.read| ==> r2.read[k] != r.read[j]
  {
    var r := Scan(LoadHistory(file), Normalised(notifs), ok);
    ScanNormalisedStrings(LoadHistory(file), notifs, ok);
    LoadHistoryOfStrings(r.shown);
    ScanReadsUnseen(LoadHistory(file), Normalised(notifs), ok);
    ScanReadsUnseen(r.shown, Normalised(later), again);
  }

  /** The loop of `process_pending_notifications`, on the manager's shown set. */
  method RunScan(shown: set<JsonId>, notifs: seq<Notif>, ok: seq<bool>)
      returns (s: set<JsonId>, pops: seq<Notif>, rd: seq<JsonId>)
    requires |ok| == |notifs|
    ensures Scan(shown, notifs, ok) == Outcome(s, pops, rd)
  {
    s, pops, rd := shown, [], [];
    ghost var full := Scan(shown, notifs, ok);
    var i := 0;
    while i < |notifs|
      invariant 0 <= i <= |notifs|
      invariant full.shown == Scan(s, notifs[i..], ok[i..]).shown
      invariant full.displayed == pops + Scan(s, notifs[i..], ok[i..]).displayed
      invariant full.read == rd + Scan(s, notifs[i..], ok[i..]).read
    {
      var n := notifs[i];
      assert notifs[i..][1..] == notifs[i + 1..] && ok[i..][1..] == ok[i + 1..];
      ghost var next := Scan(if n.id !in s && ok[i] then s + {n.id} else s, notifs[i + 1..], ok[i + 1..]);
      if n.id !in s {
        assert Scan(s, notifs[i..], ok[i..])
               == Outcome(next.shown, [n] + next.displayed, (if ok[i] then [n.id] else []) + next.read);
        assert pops + ([n] + next.displayed) == (pops + [n]) + next.displayed;
        pops := pops + [n];
        if ok[i] {
          assert rd + ([n.id] + next.read) == (rd + [n.id]) + next.read;
          s := s + {n.id};
          rd := rd + [n.id];
        } else {
          assert [] + next.read == next.read;
        }
      } else {
        assert Scan(s, notifs[i..], ok[i..]) == next;
      }
      i := i + 1;
    }
    assert notifs[i..] == [] && ok[i..] == [];
  }

  /** The manager's state: its flag, the shown ids, the history file and what it did. */
  class NotificationManager {
    var enabled: bool
    var shown: set<JsonId>
    /** The ids in the history file; None while there is none. */
    var history: Option<set<JsonId>>
    var popups: seq<Popup>
    var read: seq<JsonId>

    /** `__init__`: the flag from the configuration, the shown set from the history file. */
    constructor (enabled: bool, history: Option<set<JsonId>>)
      ensures this.enabled == enabled && this.history == history
      ensures shown == LoadHistory(history) && popups == [] && read == []
    {
      this.enabled := enabled;
      this.history := history;
      shown := LoadHistory(history);
      popups := [];
      read := [];
    }

    /**
     * `process_pending_notifications` with ids compared in their string
     * form, so that the history file round-trips.
     */
    method ProcessPending(notifs: seq<Notif>, ok: seq<bool>)
      requires |ok| == |notifs|
      modifies this
      ensures var r := Process(old(enabled), old(shown), Normalised(notifs), ok);
              shown == r.shown && popups == old(popups) + PopupsOf(r.displayed) && read == old(read) + r.read
              && history == (if r.read == [] then old(history) else Some(r.shown))
      ensures enabled == old(enabled)
    {
      if !enabled || notifs == [] {
        return;
      }
      var s, pops, rd := RunScan(shown, Normalised(notifs), ok);
      shown, popups, read := s, popups + PopupsOf(pops), read + rd;
      if rd != [] {
        history := Some(s);
      }
    }
  }
}
