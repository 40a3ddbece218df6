/**
 * The agent installer wizard: four pages (welcome, configuration,
 * installation, finish), the check of the configuration page, the search
 * for the bundled NSSM service manager and agent program, and the command
 * that registers the agent as the `InventoryAgent` Windows service.
 * Paths are strings joined with the Windows separator; the file system is
 * the set of paths that exist.
 */
module Installer {
  import opened Wrappers
  import opened Text
  import Agent

  // ---------------------------------------------------------------------------
  // validate_configuration
  // ---------------------------------------------------------------------------

  const DirMissing: string := "Por favor, selecione um diretório de instalação."
  const TokenMissing: string := "Por favor, informe o token de instalação."
  const TokenLength: string := "Token inválido. Deve ter exatamente 8 caracteres."

  /** `validate_configuration`: None when it succeeds, else the error shown. */
  function ValidateConfiguration(installDir: string, token: string): (r: Option<string>)
  {
    if Strip(installDir) == [] then Some(DirMissing)
    else if Strip(token) == [] then Some(TokenMissing)
    else if |Strip(token)| != 8 then Some(TokenLength)
    else None
  }

  /**
   * The configuration passes exactly when the trimmed directory is not
   * empty and the trimmed token has 8 characters; the directory is
   * reported before the token, a blank token before a short one.
   */
  lemma ValidateConfigurationSpec(installDir: string, token: string)
    ensures ValidateConfiguration(installDir, token).None?
            <==> Strip(installDir) != [] && |Strip(token)| == 8
    ensures ValidateConfiguration(installDir, token) == Some(DirMissing) <==> Strip(installDir) == []
    ensures ValidateConfiguration(installDir, token) == Some(TokenMissing)
            <==> Strip(installDir) != [] && Strip(token) == []
    ensures ValidateConfiguration(installDir, token) == Some(TokenLength)
            <==> Strip(installDir) != [] && Strip(token) != [] && |Strip(token)| != 8
  {
  }

  /** Spaces around the fields never change the verdict. */
  lemma ValidateIgnoresPadding(installDir: string, token: string)
    ensures ValidateConfiguration(Strip(installDir), Strip(token)) == ValidateConfiguration(installDir, token)
  {
    StripIdempotent(installDir);
    StripIdempotent(token);
  }

  // ---------------------------------------------------------------------------
  // Page navigation
  // ---------------------------------------------------------------------------

  const Forward: string := "Avançar →"
  const Finish: string := "Concluir"

  /**
   * The wizard's visible state: the selected page, whether the Back, Next
   * and Cancel buttons are enabled, the Next button's text, whether the
   * installation was started, whether the window quit, and the last error
   * box shown.
   */
  datatype Wizard = Wizard(page: nat, back: bool, next: bool, cancel: bool, nextText: string,
                           installing: bool, quit: bool, error: Option<string>)

  /** The wizard as it opens. */
  const Opened: Wizard := Wizard(0, false, true, true, Forward, false, false, None)

  /** There are four pages. */
  predicate Valid(w: Wizard) { w.page <= 3 }

  /** `next_step`. */
  function NextStep(w: Wizard, installDir: string, token: string): (r: Wizard)
    ensures Valid(w) ==> Valid(r)
  {
    if w.page == 0 then w.(page := 1, back := true)
    else if w.page == 1 then
      var check := ValidateConfiguration(installDir, token);
      if check.None? then w.(page := 2, back := false, next := false, cancel := false, installing := true)
      else w.(error := check)
    else if w.page == 3 then w.(quit := true)
    else w
  }

  /** `previous_step`. */
  function PreviousStep(w: Wizard): (r: Wizard)
    ensures Valid(w) ==> Valid(r)
  {
    if w.page > 0 then
      w.(page := w.page - 1, back := if w.page == 1 then false else w.back, next := true, nextText := Forward)
    else w
  }

  /**
   * What the end of `install_agent` does to the wizard: on success the
   * finish page with a "Concluir" button, on failure the error box and
   * the configuration page again.
   */
  function InstallFinished(w: Wizard, failure: Option<string>): (r: Wizard)
    ensures Valid(r)
  {
    match failure
    case None => w.(installing := false, page := 3, next := true, nextText := Finish)
    case Some(e) =>
      w.(installing := false, page := 1, back := true, next := true,
         error := Some("Ocorreu um erro durante a instalação:\n\n" + e))
  }

  /**
   * The installation starts only from the configuration page and only with
   * a configuration that passes the check; starting it disables every
   * button.
   */
  lemma InstallOnlyWhenValid(w: Wizard, installDir: string, token: string)
    requires !w.installing && NextStep(w, installDir, token).installing
    ensures w.page == 1 && ValidateConfiguration(installDir, token).None?
    ensures var r := NextStep(w, installDir, token); r.page == 2 && !r.back && !r.next && !r.cancel
  {
  }

  /**
   * Next, page by page, for every wizard: the welcome page moves to the
   * configuration page and enables Back; the configuration page starts
   * the installation, with every button disabled, exactly when the
   * trimmed directory is not empty and the trimmed token has 8
   * characters, and otherwise only shows the check's error; the
   * installation page has no Next step; the finish page quits.
   */
  lemma NextStepSpec(w: Wizard, installDir: string, token: string)
    ensures var r := NextStep(w, installDir, token);
            var passes := Strip(installDir) != [] && |Strip(token)| == 8;
            (w.page == 0 ==> r == w.(page := 1, back := true))
            && (w.page == 1 && passes ==>
                  r == w.(page := 2, back := false, next := false, cancel := false, installing := true))
            && (w.page == 1 && !passes ==>
                  r == w.(error := ValidateConfiguration(installDir, token)) && r.error.Some?)
            && (w.page == 2 ==> r == w)
            && (w.page == 3 ==> r == w.(quit := true))
  {
    ValidateConfigurationSpec(installDir, token);
  }

  /** Next leaves page 1 only through a passing check; a failing one shows its error and stays. */
  lemma FailedCheckStays(w: Wizard, installDir: string, token: string)
    requires w.page == 1 && ValidateConfiguration(installDir, token).Some?
    ensures NextStep(w, installDir, token) == w.(error := ValidateConfiguration(installDir, token))
  {
  }

  /** From the welcome page, Next then Back returns to it with Back disabled again. */
  lemma ForwardThenBack(w: Wizard, installDir: string, token: string)
    requires w.page == 0
    ensures var r := PreviousStep(NextStep(w, installDir, token));
            r.page == 0 && !r.back && r.next && r.nextText == Forward
  {
  }

  /** Back moves exactly one page down and re-enables Next; it is disabled on landing on page 0. */
  lemma PreviousStepSpec(w: Wizard)
    ensures w.page > 0 ==> PreviousStep(w).page + 1 == w.page && PreviousStep(w).next
    ensures PreviousStep(w).page == 0 && w.page > 0 ==> !PreviousStep(w).back
    ensures w.page == 0 ==> PreviousStep(w) == w
  {
  }

  /**
   * A failed installation from a passing configuration puts the wizard
   * back on the configuration page with Back and Next enabled, while
   * Cancel, disabled when the installation started, stays disabled.
   */
  lemma FailedInstallKeepsCancelDisabled(installDir: string, token: string, e: string)
    requires ValidateConfiguration(installDir, token).None?
    ensures var started := NextStep(NextStep(Opened, installDir, token), installDir, token);
            var r := InstallFinished(started, Some(e));
            started.installing && r.page == 1 && r.back && r.next && !r.cancel
  {
  }

  /** The finish page's button quits the wizard. */
  lemma FinishQuits(w: Wizard, installDir: string, token: string)
    ensures NextStep(InstallFinished(w, None), installDir, token).quit
  {
  }

  // ---------------------------------------------------------------------------
  // Locating the bundled files
  // ---------------------------------------------------------------------------

  const Sep: string := "\\"

  /** `dir / name`. */
  function Child(dir: string, name: string): string { dir + Sep + name }

  /** The places NSSM is looked for, in order. */
  function NssmCandidates(installerDir: string, scriptDir: string): (r: seq<string>)
    ensures |r| == 4
  {
    [Child(Child(Child(installerDir, "nssm"), "win64"), "nssm.exe"),
     Child(installerDir, "nssm.exe"),
     Child(Child(Child(scriptDir, "nssm"), "win64"), "nssm.exe"),
     Child(scriptDir, "nssm.exe")]
  }

  /** The position of the first candidate that exists. */
  function FirstExisting(candidates: seq<string>, fs: set<string>): (k: Option<nat>)
    ensures k.Some? ==> k.value < |candidates| && candidates[k.value] in fs
    decreases |candidates|
  {
    if candidates == [] then None
    else if candidates[0] in fs then Some(0)
    else match FirstExisting(candidates[1..], fs)
      case None => None
      case Some(k) => Some(k + 1)
  }

  /**
   * Nothing is found exactly when no candidate exists; what is found is
   * the first one that does.
   */
  lemma {:induction false} FirstExistingSpec(candidates: seq<string>, fs: set<string>)
    ensures FirstExisting(candidates, fs).None? <==> forall i :: 0 <= i < |candidates| ==> candidates[i] !in fs
    ensures FirstExisting(candidates, fs).Some? ==>
              forall j :: 0 <= j < FirstExisting(candidates, fs).value ==> candidates[j] !in fs
    decreases |candidates|
  {
    if candidates != [] && candidates[0] !in fs {
      FirstExistingSpec(candidates[1..], fs);
      assert forall i :: 1 <= i < |candidates| ==> candidates[i] == candidates[1..][i - 1];
    }
  }

  const NssmMissing: string :=
    "NSSM não encontrado!\nCertifique-se de que o nssm.exe está na mesma pasta do instalador\n"
    + "ou em uma pasta 'nssm/win64/' junto ao instalador."

  const AgentMissing: string :=
    "Agente não encontrado!\nCertifique-se de que agent.exe está\nestá incluído no instalador."

  /** The agent program's candidate file names, in order, and their directories (0 installer, 1 script). */
  const AgentNames: seq<string> := ["agent.exe", " para .py", "agent.exe", "agent_py_placeholder"]

  function AgentCandidates(installerDir: string, scriptDir: string): (r: seq<string>)
    ensures |r| == |AgentNames|
  {
    [Child(installerDir, AgentNames[0]), Child(installerDir, AgentNames[1]),
     Child(scriptDir, AgentNames[2]), Child(scriptDir, AgentNames[3])]
  }

  /** The position of the last '.' in `s`. */
  function LastDot(s: string): (k: Option<nat>)
    ensures k.Some? ==> k.value < |s| && s[k.value] == '.' && '.' !in s[k.value + 1..]
    ensures k.None? ==> '.' !in s
    decreases |s|
  {
    if s == [] then None
    else if s[|s| - 1] == '.' then Some(|s| - 1)
    else
      var k := LastDot(s[..|s| - 1]);
      assert s == s[..|s| - 1] + [s[|s| - 1]];
      k
  }

  /** `PurePath(name).suffix`: from the last '.', unless it leads or ends the name. */
  function Suffix(name: string): (r: string)
    ensures r == [] || (|r| >= 2 && |r| < |name| && r[0] == '.' && r == name[|name| - |r|..] && '.' !in r[1..])
  {
    match LastDot(name)
    case Some(i) => if 0 < i < |name| - 1 then name[i..] else ""
    case None => ""
  }

  /** The bundled names: the two `agent.exe` are programs, the others are not. */
  lemma AgentNameSuffixes()
    ensures Suffix(AgentNames[0]) == ".exe" && Suffix(AgentNames[2]) == ".exe"
    ensures Suffix(AgentNames[1]) != ".exe" && Suffix(AgentNames[3]) != ".exe"
  {
    assert AgentNames[0][5] == '.' && '.' !in AgentNames[0][6..];
    var k := LastDot(AgentNames[0]);
    assert k.Some?;
    assert k.value == 5;
    assert '.' !in AgentNames[3];
  }

  // ---------------------------------------------------------------------------
  // The service command
  // ---------------------------------------------------------------------------

  /** `install_cmd`: NSSM registers the agent program, or Python running the agent script. */
  function InstallCommand(nssm: string, dest: string, isExe: bool, python: string, token: string): (r: seq<string>)
    ensures |r| >= 5 && r[..3] == [nssm, "install", "InventoryAgent"]
    ensures isExe ==> r == [nssm, "install", "InventoryAgent", dest, Agent.TokenFlag + token]
    ensures !isExe ==> r == [nssm, "install", "InventoryAgent", python, dest, Agent.TokenFlag + token]
  {
    [nssm, "install", "InventoryAgent"]
    + (if isExe then [dest, Agent.TokenFlag + token] else [python, dest, Agent.TokenFlag + token])
  }

  /** The program arguments the service starts the agent with, as its `sys.argv`. */
  function ServiceArgv(command: seq<string>, isExe: bool): seq<string>
    requires |command| >= 4
  {
    if isExe then command[3..] else command[4..]
  }

  /** The plan of an installation: the files found and the command to run. */
  datatype Plan = Plan(nssm: string, source: string, dest: string, isExe: bool, command: seq<string>)

  /**
   * Steps 3 to 7 of `install_agent`: the first NSSM found, the first agent
   * program found, its destination and the `nssm install` command with the
   * trimmed token.
   */
  function PlanInstall(installDir: string, token: string, installerDir: string, scriptDir: string,
                       python: string, fs: set<string>): (r: Result<Plan>)
  {
    match FirstExisting(NssmCandidates(installerDir, scriptDir), fs)
    case None => Err(NssmMissing)
    case Some(n) =>
      match FirstExisting(AgentCandidates(installerDir, scriptDir), fs)
      case None => Err(AgentMissing)
      case Some(a) =>
        var isExe := Suffix(AgentNames[a]) == ".exe";
        var dest := Child(installDir, if isExe then "agent.exe" else "agent_py_placeholder");
        Ok(Plan(NssmCandidates(installerDir, scriptDir)[n], AgentCandidates(installerDir, scriptDir)[a],
                dest, isExe, InstallCommand(NssmCandidates(installerDir, scriptDir)[n], dest, isExe, python, Strip(token))))
  }

  /**
   * A planned installation uses existing files, fails only for a missing
   * NSSM or agent program, and starts the agent so that its command line
   * gives back exactly the trimmed token, which a configuration that
   * passed the check makes non-empty; the agent then starts exactly when
   * the server accepts that token's hash.
   */
  lemma PlanInstallSpec(installDir: string, token: string, installerDir: string, scriptDir: string,
                        python: string, fs: set<string>, configured: string,
                        hash: string -> string, accepted: bool)
    requires ValidateConfiguration(installDir, token).None?
    ensures var r := PlanInstall(installDir, token, installerDir, scriptDir, python, fs);
            (r == Err(NssmMissing) <==> forall i :: 0 <= i < 4 ==> NssmCandidates(installerDir, scriptDir)[i] !in fs)
            && (r.Ok? ==> r.value.nssm in fs && r.value.source in fs)
            && (r.Ok? ==>
                  var argv := ServiceArgv(r.value.command, r.value.isExe);
                  Agent.FirstToken(argv[1..]) == Some(Strip(token))
                  && (Agent.Startup(Agent.FirstToken(argv[1..]), configured, hash, accepted).Ok? <==> accepted))
  {
    FirstExistingSpec(NssmCandidates(installerDir, scriptDir), fs);
    var r := PlanInstall(installDir, token, installerDir, scriptDir, python, fs);
    if r.Ok? {
      var t := Strip(token);
      var argv := ServiceArgv(r.value.command, r.value.isExe);
      assert argv == [r.value.dest, Agent.TokenFlag + t];
      assert argv[1..] == [Agent.TokenFlag + t];
      Agent.CommandLineStartup(r.value.dest, t, configured, hash, accepted);
    }
  }

  /** The installer window's state. */
  class AgentInstaller {
    var page: nat
    var backEnabled: bool
    var nextEnabled: bool
    var cancelEnabled: bool
    var nextText: string
    var installing: bool
    var quit: bool
    var error: Option<string>
    /** The two fields of the configuration page. */
    var installDir: string
    var token: string
    var nssmPath: Option<string>

    function State(): Wizard
      reads this
    {
      Wizard(page, backEnabled, nextEnabled, cancelEnabled, nextText, installing, quit, error)
    }

    /** `__init__`: the welcome page, the default directory, no token, no NSSM yet. */
    constructor (defaultDir: string)
      ensures State() == Opened && installDir == defaultDir && token == "" && nssmPath == None
    {
      page, backEnabled, nextEnabled, cancelEnabled := 0, false, true, true;
      nextText, installing, quit, error := Forward, false, false, None;
      installDir, token, nssmPath := defaultDir, "", None;
    }

    /** `next_step`. */
    method Next()
      modifies this
      ensures State() == NextStep(old(State()), installDir, token)
      ensures installDir == old(installDir) && token == old(token) && nssmPath == old(nssmPath)
    {
      if page == 0 {
        page := 1;
        backEnabled := true;
      } else if page == 1 {
        var check := ValidateConfiguration(installDir, token);
        if check.None? {
          page := 2;
          backEnabled, nextEnabled, cancelEnabled := false, false, false;
          installing := true;
        } else {
          error := check;
        }
      } else if page == 3 {
        quit := true;
      }
    }

    /** `previous_step`. */
    method Previous()
      modifies this
      ensures State() == PreviousStep(old(State()))
      ensures installDir == old(installDir) && token == old(token) && nssmPath == old(nssmPath)
    {
      var current := page;
      if current > 0 {
        page := current - 1;
        if current == 1 {
          backEnabled := false;
        }
        nextText := Forward;
        nextEnabled := true;
      }
    }

    /** The NSSM search of `install_agent`: the first candidate that exists becomes `nssm_path`. */
    method FindNssm(installerDir: string, scriptDir: string, fs: set<string>) returns (found: bool)
      modifies this`nssmPath
      ensures var k := FirstExisting(NssmCandidates(installerDir, scriptDir), fs);
              found == k.Some?
              && nssmPath == (if found then Some(NssmCandidates(installerDir, scriptDir)[k.value]) else old(nssmPath))
    {
      var candidates := NssmCandidates(installerDir, scriptDir);
      found := false;
      var i := 0;
      while i < |candidates|
        invariant 0 <= i <= |candidates|
        invariant FirstExisting(candidates, fs) == match FirstExisting(candidates[i..], fs)
                                                   case None => None
                                                   case Some(k) => Some(k + i)
        invariant nssmPath == old(nssmPath)
      {
        assert candidates[i..][1..] == candidates[i + 1..];
        if candidates[i] in fs {
          nssmPath := Some(candidates[i]);
          found := true;
          return;
        }
        i := i + 1;
      }
      assert candidates[i..] == [];
    }
  }
}
