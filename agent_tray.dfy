/**
 * The tray inventory agent: the same agent as the console one, with a
 * system-tray icon whose colour follows the connection, a menu entry that
 * switches notifications on and off, and no self-test switch on the
 * command line.  Its connectivity check is `Agent.MonitorStep`.
 */
module AgentTray {
  import opened Wrappers
  import opened Text
  import Agent
  import AgentNotifications

  /** A fill colour. */
  datatype Rgb = Rgb(red: nat, green: nat, blue: nat)

  const Gray: Rgb := Rgb(128, 128, 128)

  /** `color_map` of `create_icon_image`. */
  const ColourMap: map<string, Rgb> := map[
    "green" := Rgb(0, 200, 0),
    "red" := Rgb(200, 0, 0),
    "yellow" := Rgb(200, 200, 0),
    "gray" := Gray
  ]

  /** The fill of the icon image: `color_map.get(color, color_map['gray'])`. */
  function IconColour(name: string): (c: Rgb)
    ensures name !in ColourMap ==> c == Gray
    ensures c in ColourMap.Values
  {
    assert ColourMap["gray"] == Gray;
    if name in ColourMap then ColourMap[name] else Gray
  }

  /** The colour for a connection state: green online, red offline, never gray. */
  function StatusColour(online: bool): (c: Rgb)
    ensures c != Gray
    ensures online <==> c == Rgb(0, 200, 0)
  {
    IconColour(if online then "green" else "red")
  }

  /** Each named colour is its own; the online and offline colours differ. */
  lemma ColoursDistinct(a: string, b: string)
    requires a in ColourMap && b in ColourMap && a != b
    ensures IconColour(a) != IconColour(b)
  {
  }

  /** The tray icon. */
  class SystemTrayIcon {
    /** Whether `setup` has created the icon. */
    var ready: bool
    /** The fill of the icon's image. */
    var fill: Rgb
    var statusOnline: bool

    /** `__init__`: no icon yet, status offline. */
    constructor ()
      ensures !ready && !statusOnline
    {
      ready := false;
      fill := Gray;
      statusOnline := false;
    }

    /** `setup`: the icon exists, gray until the first check. */
    method Setup()
      modifies this`ready, this`fill
      ensures ready && fill == Gray
    {
      ready := true;
      fill := IconColour("gray");
    }

    /** `update_icon`: nothing before `setup`; afterwards the colour and the status follow `online`. */
    method UpdateIcon(online: bool)
      modifies this
      ensures ready == old(ready)
      ensures old(ready) ==> fill == StatusColour(online) && statusOnline == online
      ensures !old(ready) ==> fill == old(fill) && statusOnline == old(statusOnline)
    {
      if ready {
        fill := IconColour(if online then "green" else "red");
        statusOnline := online;
      }
    }
  }

  /** The tray agent's state that its loop and its menu change. */
  class TrayAgent {
    var lastStatus: Option<string>
    /** The `notifications` configuration entry. */
    var notificationsSetting: bool
    const tray: SystemTrayIcon
    const manager: AgentNotifications.NotificationManager

    /** The configuration entry and the manager's flag agree. */
    predicate Valid()
      reads this, manager
    {
      manager.enabled == notificationsSetting
    }

    /**
     * A started agent: the manager reads its flag from the configuration
     * and the tray icon is set up, gray and reporting offline.
     */
    constructor (notifications: bool, history: Option<set<AgentNotifications.JsonId>>)
      ensures Valid() && fresh(tray) && fresh(manager)
      ensures lastStatus == None && notificationsSetting == notifications
      ensures tray.ready && tray.fill == Gray && !tray.statusOnline
      ensures manager.shown == AgentNotifications.LoadHistory(history)
    {
      lastStatus := None;
      notificationsSetting := notifications;
      manager := new AgentNotifications.NotificationManager(notifications, history);
      var icon := new SystemTrayIcon();
      icon.Setup();
      tray := icon;
    }

    /** One iteration of `network_monitor_loop`: repaint the icon, log, record the state. */
    method CheckConnectivity(online: bool) returns (log: Agent.Log)
      modifies this`lastStatus, tray
      ensures (lastStatus, log) == Agent.MonitorStep(online, old(lastStatus))
      ensures tray.ready == old(tray.ready)
      ensures old(tray.ready) ==> tray.fill == StatusColour(online) && tray.statusOnline == online
      ensures !old(tray.ready) ==> tray.fill == old(tray.fill) && tray.statusOnline == old(tray.statusOnline)
    {
      tray.UpdateIcon(online);
      log := Agent.Silent;
      if online {
        if lastStatus == Some(Agent.Offline) {
          log := Agent.Restored;
        }
      } else {
        if lastStatus != Some(Agent.Offline) {
          log := Agent.WentOffline;
        }
      }
      lastStatus := Some(if online then "online" else Agent.Offline);
    }

    /** `toggle_notifications`: the entry flips and the manager follows it. */
    method ToggleNotifications()
      modifies this`notificationsSetting, manager`enabled
      ensures notificationsSetting == !old(notificationsSetting)
      ensures Valid()
    {
      var current := notificationsSetting;
      notificationsSetting := !current;
      manager.enabled := !current;
    }
  }

  /**
   * The tray agent's `main` has no self-test: `--test` is an ordinary
   * argument, and a later `--token=` still gives the token, where the
   * console agent would run its self-test.
   */
  lemma TestFlagIgnored(t: string)
    ensures Agent.FirstToken(["--test", Agent.TokenFlag + t]) == Some(t)
  {
    assert ["--test", Agent.TokenFlag + t][1..] == [Agent.TokenFlag + t];
    assert StartsWith(Agent.TokenFlag + t, Agent.TokenFlag);
    Agent.TokenValue(Agent.TokenFlag + t);
    assert (Agent.TokenFlag + t)[|Agent.TokenFlag|..] == t;
  }
}
