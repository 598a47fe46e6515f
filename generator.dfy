/** The agent-script generator (internal/scripts/generator.go): which operating system a
    User-Agent names, and which embedded template serves an operating system. Reading
    and executing the template text is not modelled. */
module Generator {
  import opened Text

  const Windows: string := "windows"
  const Darwin: string := "darwin"
  const Linux: string := "linux"

  const WindowsTemplate: string := "templates/agent_windows.ps1"
  const DarwinTemplate: string := "templates/agent_darwin.sh"
  const LinuxTemplate: string := "templates/agent_linux.sh"

  /** The values the script template is executed with. */
  datatype ScriptData = ScriptData(token: string, serverUrl: string, email: string, mode: string, machineId: string)

  /** The user agent names Windows: "windows" or "powershell", in any case. */
  predicate NamesWindows(userAgent: string) {
    var ua := Lower(userAgent);
    Contains(ua, "windows") || Contains(ua, "powershell")
  }

  /** The user agent names macOS: "darwin" or "mac", in any case. */
  predicate NamesDarwin(userAgent: string) {
    var ua := Lower(userAgent);
    Contains(ua, "darwin") || Contains(ua, "mac")
  }

  /** Lower-cases the user agent, then tests for Windows, then macOS, and falls back to
      Linux, which a user agent naming "linux" and one naming nothing both get. */
  function DetectOS(userAgent: string): (os: string)
    ensures os == Windows || os == Darwin || os == Linux
  {
    var ua := Lower(userAgent);
    if Contains(ua, "windows") || Contains(ua, "powershell") then Windows
    else if Contains(ua, "darwin") || Contains(ua, "mac") then Darwin
    else if Contains(ua, "linux") then Linux
    else Linux
  }

  /** Windows wins over everything, macOS over Linux, and Linux is the fallback. */
  lemma DetectOSPrecedence(userAgent: string)
    ensures DetectOS(userAgent) == Windows <==> NamesWindows(userAgent)
    ensures DetectOS(userAgent) == Darwin <==> !NamesWindows(userAgent) && NamesDarwin(userAgent)
    ensures DetectOS(userAgent) == Linux <==> !NamesWindows(userAgent) && !NamesDarwin(userAgent)
  {
  }

  /** Detection ignores letter case: it answers the same for the lower-cased user agent. */
  lemma DetectOSIgnoresCase(userAgent: string)
    ensures DetectOS(Lower(userAgent)) == DetectOS(userAgent)
  {
    LowerIdempotent(userAgent);
  }

  /** `sub` occurs in `s` once `s` is extended on either side. */
  lemma ContainsInContext(pre: string, sub: string, post: string)
    ensures Contains(pre + sub + post, sub)
  {
    var s := pre + sub + post;
    assert s[|pre|..|pre| + |sub|] == sub;
    assert OccursAt(s, sub, |pre|);
  }

  /** A user agent that carries "PowerShell", in whatever case and whatever else it says
      (even "Macintosh"), is detected as Windows. */
  lemma PowerShellIsWindows(pre: string, post: string)
    ensures DetectOS(pre + "PowerShell" + post) == Windows
  {
    var ua := pre + "PowerShell" + post;
    assert Lower(ua) == Lower(pre) + "powershell" + Lower(post);
    ContainsInContext(Lower(pre), "powershell", Lower(post));
  }

  /** GenerateScript's switch: the three known systems get their own template, and any
      other value, empty or misspelled, gets the Linux one. */
  function TemplateFor(osType: string): (name: string)
    ensures name == WindowsTemplate <==> osType == Windows
    ensures name == DarwinTemplate <==> osType == Darwin
    ensures name == LinuxTemplate <==> osType != Windows && osType != Darwin
  {
    if osType == Darwin then DarwinTemplate
    else if osType == Linux then LinuxTemplate
    else if osType == Windows then WindowsTemplate
    else LinuxTemplate
  }
}
