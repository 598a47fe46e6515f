/** The agent-script download, `GET /machines/{id}/script` (internal/handlers/scripts.go).
    The route has no session gate: anyone who knows a machine id can fetch its script,
    which embeds that machine's enrollment token. */
module Scripts {
  import opened Wrappers
  import opened Models
  import opened Generator
  import opened Http
  import Store

  const DefaultMode: string := "onetime"

  const PowerShellType: string := "text/plain; charset=utf-8"
  const ShellType: string := "text/x-shellscript; charset=utf-8"
  const PowerShellDisposition: string := "inline; filename=boxcheckr-agent.ps1"
  const ShellDisposition: string := "inline; filename=boxcheckr-agent.sh"

  /** The script mode: the `mode` query value, or "onetime" when it is empty. */
  function ScriptMode(mode: string): (m: string)
    ensures mode == "" ==> m == DefaultMode
    ensures mode != "" ==> m == mode
  {
    if mode == "" then DefaultMode else mode
  }

  /** The operating system: the `os` query value if given, otherwise the one the
      User-Agent names. */
  function ScriptOS(osParam: string, userAgent: string): (os: string)
    ensures osParam != "" ==> os == osParam
    ensures osParam == "" ==> os == DetectOS(userAgent)
  {
    if osParam == "" then DetectOS(userAgent) else osParam
  }

  /** The reply for a machine lookup, the owner lookup (whose error is ignored) and the
      request's query values and User-Agent. */
  function ScriptResponse(machine: Lookup<Machine>, owner: Option<User>, mode: string, osParam: string,
                          userAgent: string, baseUrl: string, machineId: string): (r: Response)
    ensures !machine.Found? <==> r == Error(StatusNotFound, "Machine not found")
    ensures machine.Found? ==> r.Script?
    ensures r.Script? ==> (
      r.data.token == machine.value.enrollmentToken && r.data.serverUrl == baseUrl && r.data.machineId == machineId &&
      r.data.email == (if owner.Some? then owner.value.email else "") &&
      r.data.mode == ScriptMode(mode) && r.osType == ScriptOS(osParam, userAgent))
    ensures r.Script? ==> (r.contentType == PowerShellType <==> r.osType == Windows)
    ensures r.Script? ==> (r.disposition == PowerShellDisposition <==> r.osType == Windows)
    ensures r.Script? && r.osType != Windows ==> r.contentType == ShellType && r.disposition == ShellDisposition
  {
    match machine
    case Found(m) =>
      var email := if owner.Some? then owner.value.email else "";
      var osType := ScriptOS(osParam, userAgent);
      var contentType := if osType == Windows then PowerShellType else ShellType;
      var disposition := if osType == Windows then PowerShellDisposition else ShellDisposition;
      Script(contentType, disposition, osType, ScriptData(m.enrollmentToken, baseUrl, email, ScriptMode(mode), machineId))
    case _ => Error(StatusNotFound, "Machine not found")
  }

  /** An explicit `os` wins over the User-Agent, and without one a PowerShell client gets
      the Windows script and the `.ps1` name. */
  lemma OsChoice(machine: Machine, owner: Option<User>, mode: string, osParam: string,
                 ua1: string, ua2: string, baseUrl: string, machineId: string, pre: string, post: string)
    requires osParam != ""
    ensures ScriptResponse(Found(machine), owner, mode, osParam, ua1, baseUrl, machineId) ==
            ScriptResponse(Found(machine), owner, mode, osParam, ua2, baseUrl, machineId)
    ensures var r := ScriptResponse(Found(machine), owner, mode, "", pre + "PowerShell" + post, baseUrl, machineId);
      r.osType == Windows && r.disposition == PowerShellDisposition && TemplateFor(r.osType) == WindowsTemplate
  {
    PowerShellIsWindows(pre, post);
  }

  /** An unrecognised `os` value is served the Linux script under the shell-script
      headers. */
  lemma UnknownOsGetsShellScript(machine: Machine, owner: Option<User>, mode: string, osParam: string,
                                 userAgent: string, baseUrl: string, machineId: string)
    requires osParam != "" && osParam != Windows && osParam != Darwin
    ensures var r := ScriptResponse(Found(machine), owner, mode, osParam, userAgent, baseUrl, machineId);
      r.contentType == ShellType && TemplateFor(r.osType) == LinuxTemplate
  {
  }

  /** MachineScript over the store. The owner row always exists (the foreign key), so the
      script names the owner's e-mail. */
  method MachineScript(db: Store.DB, id: string, mode: string, osParam: string, userAgent: string, baseUrl: string)
    returns (resp: Response)
    requires db.Valid()
    ensures id !in db.machines ==> resp == Error(StatusNotFound, "Machine not found")
    ensures id in db.machines ==> (
      var m := db.machines[id];
      resp == ScriptResponse(Found(m), Some(db.users[m.userId]), mode, osParam, userAgent, baseUrl, id) &&
      resp.data.token == m.enrollmentToken && resp.data.email == db.users[m.userId].email)
  {
    var machine := db.GetMachine(id);
    if machine.None? {
      return ScriptResponse(Missing, None, mode, osParam, userAgent, baseUrl, id);
    }
    var owner := db.GetUser(machine.value.userId);
    resp := ScriptResponse(Found(machine.value), owner, mode, osParam, userAgent, baseUrl, id);
  }
}
