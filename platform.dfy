/**
 * Shared vocabulary of the model: window handles, the optional values the
 * Win32 lookups return, and executable names as the tray app spells them.
 */
module Platform {

  /** A top-level window handle. 0 plays the role of IntPtr.Zero. */
  type Hwnd = nat

  const Zero: Hwnd := 0

  datatype Option<+T> = None | Some(value: T)

  const ExeSuffix: string := ".exe"

  predicate HasExeSuffix(s: string) {
    |s| >= |ExeSuffix| && s[|s| - |ExeSuffix|..] == ExeSuffix
  }

  /** The executable name of a process: its process name followed by ".exe". */
  function ExeName(processName: string): (exe: string)
    ensures HasExeSuffix(exe)
    ensures |exe| == |processName| + |ExeSuffix| && exe[..|processName|] == processName
  {
    processName + ExeSuffix
  }

  /**
   * WinApi.GetProcessName: the owning process of a window is looked up by the
   * operating system (`lookup`, None when the process has gone away), and the
   * name is reported with ".exe" appended.
   */
  function GetProcessName(lookup: Option<string>): (exe: Option<string>)
    ensures exe.Some? <==> lookup.Some?
    ensures lookup.Some? ==> HasExeSuffix(exe.value) && |exe.value| >= |lookup.value| && exe.value[..|lookup.value|] == lookup.value
  {
    match lookup
    case None => None
    case Some(name) => Some(ExeName(name))
  }
}
