/**
 * The console inventory agent: the once-a-minute connectivity check and
 * what it logs, the command line, and the start-up token decision.
 *
 * The connectivity check of the console agent records the event it just
 * logged instead of the connection state, so during an outage the
 * "server offline" warning comes back on every other check and a
 * reconnection after an even number of failed checks is never logged.
 * `MonitorStepAsWritten` is that check, and the console agent's object
 * `InventoryAgent` runs it; `MonitorStep`, the check of the tray agent,
 * records the state and is the one the tray agent's object uses.
 */
module Agent {
  import opened Wrappers
  import opened Text

  /** What one connectivity check logs. */
  datatype Log = Silent | Restored | WentOffline

  const Offline: string := "offline"

  /** One check as the console agent writes it: the new `last_status` and the log. */
  function MonitorStepAsWritten(online: bool, last: Option<string>): (Option<string>, Log)
  {
    if online then
      if last == Some(Offline) then (Some("reconnected"), Restored) else (None, Silent)
    else
      if last != Some(Offline) then (Some(Offline), WentOffline) else (None, Silent)
  }

  /** One check as the tray agent writes it: `last_status` is the connection state. */
  function MonitorStep(online: bool, last: Option<string>): (Option<string>, Log)
  {
    (Some(if online then "online" else Offline),
     if online then (if last == Some(Offline) then Restored else Silent)
     else (if last != Some(Offline) then WentOffline else Silent))
  }

  /**
   * As written, `last_status` holds exactly the event just logged:
   * "offline" after the warning, "reconnected" after the restore message,
   * None after a quiet check.
   */
  lemma MonitorStepAsWrittenRecordsEvent(online: bool, last: Option<string>)
    ensures var (status, log) := MonitorStepAsWritten(online, last);
            (status == Some(Offline) <==> log == WentOffline)
            && (status == Some("reconnected") <==> log == Restored)
            && (status == None <==> log == Silent)
            && (log == WentOffline <==> !online && last != Some(Offline))
            && (log == Restored <==> online && last == Some(Offline))
  {
  }

  /**
   * Corrected, `last_status` holds the connection state, the warning fires
   * only on entering an outage and the restore message only on leaving one.
   */
  lemma MonitorStepRecordsState(online: bool, last: Option<string>)
    ensures var (status, log) := MonitorStep(online, last);
            (status == Some(Offline) <==> !online)
            && (log == WentOffline <==> !online && last != Some(Offline))
            && (log == Restored <==> online && last == Some(Offline))
  {
  }

  /** The logs of consecutive checks, `checks[i]` being the i-th connectivity result. */
  function Run(step: (bool, Option<string>) -> (Option<string>, Log), last: Option<string>,
               checks: seq<bool>): (logs: seq<Log>)
    ensures |logs| == |checks|
    decreases |checks|
  {
    if checks == [] then []
    else
      var (status, log) := step(checks[0], last);
      [log] + Run(step, status, checks[1..])
  }

  /** `last_status` after consecutive checks. */
  function Final(step: (bool, Option<string>) -> (Option<string>, Log), last: Option<string>,
                 checks: seq<bool>): Option<string>
    decreases |checks|
  {
    if checks == [] then last else Final(step, step(checks[0], last).0, checks[1..])
  }

  /** `k` failed checks in a row. */
  function Outage(k: nat): (r: seq<bool>)
    ensures |r| == k && forall i :: 0 <= i < k ==> !r[i]
  {
    seq(k, _ => false)
  }

  lemma OutageSplit(k: nat)
    requires k > 0
    ensures Outage(k)[0] == false && Outage(k)[1..] == Outage(k - 1)
  {
  }

  /**
   * As written, an outage of any length entered from a connected state
   * logs the warning on the first, third, fifth … check.
   */
  lemma {:induction false} OutageFlaps(last: Option<string>, k: nat)
    requires last != Some(Offline)
    ensures forall i :: 0 <= i < k ==>
              Run(MonitorStepAsWritten, last, Outage(k))[i] == (if i % 2 == 0 then WentOffline else Silent)
    ensures Final(MonitorStepAsWritten, last, Outage(k))
            == (if k == 0 then last else if k % 2 == 0 then None else Some(Offline))
    decreases k
  {
    if k >= 1 {
      OutageSplit(k);
      assert Run(MonitorStepAsWritten, last, Outage(k))
             == [WentOffline] + Run(MonitorStepAsWritten, Some(Offline), Outage(k - 1));
      assert Final(MonitorStepAsWritten, last, Outage(k)) == Final(MonitorStepAsWritten, Some(Offline), Outage(k - 1));
      if k >= 2 {
        OutageSplit(k - 1);
        assert Run(MonitorStepAsWritten, Some(Offline), Outage(k - 1))
               == [Silent] + Run(MonitorStepAsWritten, None, Outage(k - 2));
        assert Final(MonitorStepAsWritten, Some(Offline), Outage(k - 1)) == Final(MonitorStepAsWritten, None, Outage(k - 2));
        OutageFlaps(None, k - 2);
        var logs := Run(MonitorStepAsWritten, last, Outage(k));
        var rest := Run(MonitorStepAsWritten, None, Outage(k - 2));
        assert logs == [WentOffline, Silent] + rest;
        forall i | 2 <= i < k
          ensures logs[i] == (if i % 2 == 0 then WentOffline else Silent)
        {
          assert logs[i] == rest[i - 2];
          assert rest[i - 2] == (if (i - 2) % 2 == 0 then WentOffline else Silent);
          assert (i - 2) % 2 == i % 2;
        }
      } else {
        assert Outage(k - 1) == [];
      }
    }
  }

  /**
   * As written, the agent reconnecting after an even number of failed
   * checks entered from a quiet state does not log the restore message.
   */
  lemma ReconnectUnlogged(k: nat)
    requires k >= 1
    ensures Final(MonitorStepAsWritten, None, Outage(2 * k)) == None
    ensures MonitorStepAsWritten(true, Final(MonitorStepAsWritten, None, Outage(2 * k))).1 == Silent
  {
    OutageFlaps(None, 2 * k);
  }

  /**
   * Corrected, an outage entered from a connected state logs the warning
   * once, on its first check, and leaves `last_status` "offline", so the
   * next successful check logs the restore message.
   */
  lemma {:induction false} OutageWarnsOnce(last: Option<string>, k: nat)
    requires k >= 1
    ensures var logs := Run(MonitorStep, last, Outage(k));
            logs[0] == (if last == Some(Offline) then Silent else WentOffline)
            && forall i :: 1 <= i < k ==> logs[i] == Silent
    ensures Final(MonitorStep, last, Outage(k)) == Some(Offline)
    ensures MonitorStep(true, Final(MonitorStep, last, Outage(k))).1 == Restored
    decreases k
  {
    OutageSplit(k);
    assert Run(MonitorStep, last, Outage(k)) == [MonitorStep(false, last).1] + Run(MonitorStep, Some(Offline), Outage(k - 1));
    assert Final(MonitorStep, last, Outage(k)) == Final(MonitorStep, Some(Offline), Outage(k - 1));
    if k >= 2 {
      OutageWarnsOnce(Some(Offline), k - 1);
      var logs := Run(MonitorStep, last, Outage(k));
      var rest := Run(MonitorStep, Some(Offline), Outage(k - 1));
      forall i | 1 <= i < k
        ensures logs[i] == Silent
      {
        assert logs[i] == rest[i - 1];
      }
    } else {
      assert Outage(k - 1) == [];
    }
  }

  // ---------------------------------------------------------------------------
  // The command line
  // ---------------------------------------------------------------------------

  const TokenFlag: string := "--token="

  /** `arg.split('=', 1)[1]`: what follows the first '='. */
  function AfterFirstEquals(arg: string): (r: string)
    requires '=' in arg
    ensures |r| < |arg| && r == arg[|arg| - |r|..] && arg[|arg| - |r| - 1] == '='
    ensures '=' !in arg[..|arg| - |r| - 1]
  {
    arg[IndexOf(arg, '=') + 1..]
  }

  /** The value of a `--token=` argument is everything after the flag, '=' signs included. */
  lemma TokenValue(arg: string)
    requires StartsWith(arg, TokenFlag)
    ensures '=' in arg && AfterFirstEquals(arg) == arg[|TokenFlag|..]
  {
    assert arg[7] == '=';
    var k := IndexOf(arg, '=');
    assert arg[..7] == "--token";
    assert k == 7;
  }

  /** The token given by the first `--token=` argument, if any. */
  function FirstToken(args: seq<string>): (token: Option<string>)
    decreases |args|
  {
    if args == [] then None
    else if StartsWith(args[0], TokenFlag) then
      assert args[0][7] == '=';
      Some(AfterFirstEquals(args[0]))
    else FirstToken(args[1..])
  }

  /**
   * A token is found exactly when some argument starts with `--token=`,
   * and then it is the value of the first such argument.
   */
  lemma {:induction false} FirstTokenSpec(args: seq<string>)
    ensures FirstToken(args).None? <==> forall i :: 0 <= i < |args| ==> !StartsWith(args[i], TokenFlag)
    ensures FirstToken(args).Some? ==>
              exists i :: 0 <= i < |args| && StartsWith(args[i], TokenFlag)
                          && (forall j :: 0 <= j < i ==> !StartsWith(args[j], TokenFlag))
                          && FirstToken(args).value == args[i][|TokenFlag|..]
    decreases |args|
  {
    if args != [] {
      if StartsWith(args[0], TokenFlag) {
        TokenValue(args[0]);
      } else {
        FirstTokenSpec(args[1..]);
        if FirstToken(args[1..]).Some? {
          var i :| 0 <= i < |args[1..]| && StartsWith(args[1..][i], TokenFlag)
                   && (forall j :: 0 <= j < i ==> !StartsWith(args[1..][j], TokenFlag))
                   && FirstToken(args[1..]).value == args[1..][i][|TokenFlag|..];
          assert forall j :: 1 <= j < i + 1 ==> args[j] == args[1..][j - 1];
        } else {
          assert forall i :: 1 <= i < |args| ==> args[i] == args[1..][i - 1];
        }
      }
    }
  }

  /** The loop of `main` over `sys.argv[1:]`, stopping at the first `--token=`. */
  method TokenFromArgv(argv: seq<string>) returns (token: Option<string>)
    ensures token == FirstToken(if |argv| > 1 then argv[1..] else [])
  {
    token := None;
    if |argv| > 1 {
      var args := argv[1..];
      var i := 0;
      while i < |args|
        invariant 0 <= i <= |args|
        invariant FirstToken(args) == FirstToken(args[i..])
      {
        assert args[i..][1..] == args[i + 1..];
        if StartsWith(args[i], TokenFlag) {
          assert args[i][7] == '=';
          token := Some(AfterFirstEquals(args[i]));
          return;
        }
        i := i + 1;
      }
    }
  }

  /** What `main` starts: the self-test, or the agent with the token found. */
  datatype Launch = SelfTest | Start(token: Option<string>)

  /** `main` of the console agent: `--test` counts only as the first argument. */
  method ParseLaunch(argv: seq<string>) returns (l: Launch)
    ensures |argv| > 1 && argv[1] == "--test" ==> l == SelfTest
    ensures !(|argv| > 1 && argv[1] == "--test") ==>
              l == Start(FirstToken(if |argv| > 1 then argv[1..] else []))
  {
    if |argv| > 1 && argv[1] == "--test" {
      return SelfTest;
    }
    var token := TokenFromArgv(argv);
    l := Start(token);
  }

  // ---------------------------------------------------------------------------
  // Start-up
  // ---------------------------------------------------------------------------

  /** Python truth of an optional string. */
  predicate Truthy(s: Option<string>) { s.Some? && s.value != [] }

  /**
   * `InventoryAgent.__init__`: the token hash the agent runs with, or the
   * ValueError it raises.  `hash` is SHA-256 in hexadecimal, `configured`
   * the `AGENT_TOKEN_HASH` setting ("" when unset) and `accepted` the
   * server's answer to the validation of the hashed token.
   */
  function Startup(token: Option<string>, configured: string, hash: string -> string,
                   accepted: bool): (r: Result<string>)
    ensures r.Ok? <==> (Truthy(token) && accepted) || (!Truthy(token) && configured != "")
    ensures r.Ok? ==> r.value == (if Truthy(token) then hash(token.value) else configured)
  {
    if Truthy(token) then
      if accepted then Ok(hash(token.value)) else Err("Token inválido ou expirado")
    else if configured == "" then Err("Token não configurado")
    else Ok(configured)
  }

  /**
   * An empty `--token=` is no token: the agent falls back to the configured
   * hash.  A non-empty token makes the configured hash irrelevant.
   */
  lemma StartupTokenChoice(t: string, configured: string, other: string, hash: string -> string,
                           accepted: bool)
    ensures Startup(Some(""), configured, hash, accepted) == Startup(None, configured, hash, accepted)
    ensures t != "" ==> Startup(Some(t), configured, hash, accepted) == Startup(Some(t), other, hash, accepted)
  {
  }

  /** The command line `agent --token=<t>` starts the agent exactly when the server accepts `t`'s hash. */
  lemma CommandLineStartup(prog: string, t: string, configured: string, hash: string -> string,
                           accepted: bool)
    requires t != ""
    ensures FirstToken([TokenFlag + t]) == Some(t)
    ensures Startup(FirstToken([TokenFlag + t]), configured, hash, accepted).Ok? <==> accepted
  {
    assert StartsWith(TokenFlag + t, TokenFlag);
    TokenValue(TokenFlag + t);
    assert (TokenFlag + t)[|TokenFlag|..] == t;
  }

  /** The agent's connectivity state. */
  class InventoryAgent {
    var tokenHash: string
    var lastStatus: Option<string>

    /** A started agent: nothing checked yet. */
    constructor (tokenHash: string)
      ensures this.tokenHash == tokenHash && lastStatus == None
    {
      this.tokenHash := tokenHash;
      lastStatus := None;
    }

    /**
     * One iteration of `network_monitor_loop` as written: `last_status`
     * becomes the event just logged, so after a warning the next failed
     * check finds it and warns again every other time.
     */
    method CheckConnectivity(online: bool) returns (log: Log)
      modifies this`lastStatus
      ensures (lastStatus, log) == MonitorStepAsWritten(online, old(lastStatus))
      ensures lastStatus == Some(Offline) <==> log == WentOffline
    {
      var status: Option<string> := None;
      log := Silent;
      if online {
        if lastStatus == Some(Offline) {
          status := Some("reconnected");
          log := Restored;
        }
      } else {
        if lastStatus != Some(Offline) {
          status := Some(Offline);
          log := WentOffline;
        }
      }
      lastStatus := status;
    }
  }
}
