/**
 * InputModeManager: the per-application policy (two sets of executable names,
 * loaded from the "ENG" and "CHINESE" lists of the configuration) and the
 * decision, for a confirmed foreground window, whether to switch to latin
 * ("English") or native ("Chinese") mode.
 */
module ModeManager {
  import opened Platform
  import opened ImeControl

  const EngKey: string := "ENG"
  const ChineseKey: string := "CHINESE"

  /** The parsed configuration file: a dictionary from list name to entries. */
  type Config = map<string, seq<string>>

  datatype Action = NoAction | ToEnglish | ToChinese

  function Elements(xs: seq<string>): (s: set<string>)
    ensures forall x :: x in s <==> x in xs
  {
    set x | x in xs
  }

  /**
   * The entries listed under key; a missing key, and a configuration that
   * could not be read (None), give no entries.
   */
  function Entries(config: Option<Config>, key: string): (entries: seq<string>)
    ensures config.Some? && key in config.value ==> entries == config.value[key]
    ensures config.None? || key !in config.value ==> entries == []
  {
    match config
    case None => []
    case Some(json) => if key in json then json[key] else []
  }

  /**
   * The decision of Handle: switch to latin mode when the application wants
   * latin mode and the current mode is not latin; otherwise switch to native
   * mode when it wants native mode and the current mode is latin. A window
   * whose process cannot be resolved is left alone.
   */
  function Decide(exe: Option<string>, engApps: set<string>, chnApps: set<string>, isEnglish: bool): (action: Action)
    ensures exe.None? ==> action == NoAction
    ensures action == ToEnglish ==> !isEnglish && exe.value in engApps
    ensures action == ToChinese ==> isEnglish && exe.value in chnApps
  {
    match exe
    case None => NoAction
    case Some(name) =>
      if name in engApps && !isEnglish then ToEnglish
      else if name in chnApps && isEnglish then ToChinese
      else NoAction
  }

  /** Whether the mode is latin after the action has taken effect. */
  function ModeAfter(action: Action, isEnglish: bool): bool {
    match action
    case NoAction => isEnglish
    case ToEnglish => true
    case ToChinese => false
  }

  /**
   * No switch happens when the application is in neither set, or when the
   * current mode is already the one its (single) set asks for.
   */
  lemma {:induction false} NoSwitchWhenSatisfied(name: string, engApps: set<string>, chnApps: set<string>, isEnglish: bool)
    requires name !in engApps || isEnglish
    requires name !in chnApps || !isEnglish
    ensures Decide(Some(name), engApps, chnApps, isEnglish) == NoAction
  {
  }

  /**
   * A switch happens exactly when the current mode disagrees with a set the
   * application is in, and it goes to the mode of that set.
   */
  lemma {:induction false} SwitchExactlyOnDisagreement(name: string, engApps: set<string>, chnApps: set<string>, isEnglish: bool)
    ensures Decide(Some(name), engApps, chnApps, isEnglish) != NoAction <==>
              (name in engApps && !isEnglish) || (name in chnApps && isEnglish)
    ensures Decide(Some(name), engApps, chnApps, isEnglish) != NoAction ==>
              ModeAfter(Decide(Some(name), engApps, chnApps, isEnglish), isEnglish) == !isEnglish
  {
  }

  /**
   * An executable listed in both sets is always switched to the opposite of
   * the current mode: the configuration does not make latin mode win.
   */
  lemma {:induction false} ListedTwiceToggles(name: string, engApps: set<string>, chnApps: set<string>, isEnglish: bool)
    requires name in engApps && name in chnApps
    ensures Decide(Some(name), engApps, chnApps, isEnglish) == if isEnglish then ToChinese else ToEnglish
  {
  }

  /**
   * Once the chosen switch has taken effect, deciding again for the same
   * window asks for nothing more, except for an executable listed in both
   * sets, which is switched back and forth on every confirmation.
   */
  lemma {:induction false} DecisionSettles(exe: Option<string>, engApps: set<string>, chnApps: set<string>, isEnglish: bool)
    ensures Decide(exe, engApps, chnApps, ModeAfter(Decide(exe, engApps, chnApps, isEnglish), isEnglish)) == NoAction
            <==> !(exe.Some? && exe.value in engApps && exe.value in chnApps)
  {
    match exe
    case None =>
    case Some(name) =>
      if name in engApps && name in chnApps {
        ListedTwiceToggles(name, engApps, chnApps, isEnglish);
        var after := ModeAfter(Decide(exe, engApps, chnApps, isEnglish), isEnglish);
        ListedTwiceToggles(name, engApps, chnApps, after);
      }
  }

  /**
   * The sets are looked up with the executable name exactly as resolved, with
   * no case folding or other normalisation: a name is acted on exactly when it
   * is itself listed, and a one-name list matches only that very string (so
   * "Notepad.exe" does not match a listed "notepad.exe").
   */
  lemma {:induction false} ExactMembership(name: string, listed: string, engApps: set<string>, chnApps: set<string>)
    ensures Decide(Some(name), engApps, chnApps, false) == ToEnglish <==> name in engApps
    ensures Decide(Some(name), engApps, chnApps, true) == ToChinese <==> name in chnApps
    ensures Decide(Some(name), {listed}, {}, false) == ToEnglish <==> name == listed
    ensures Decide(Some(name), {}, {listed}, true) == ToChinese <==> name == listed
  {
  }

  class InputModeManager {
    var engApps: set<string>
    var chnApps: set<string>

    /** The manager loads its configuration once, when it is created. */
    constructor (config: Option<Config>)
      ensures engApps == Elements(Entries(config, EngKey))
      ensures chnApps == Elements(Entries(config, ChineseKey))
    {
      engApps := {};
      chnApps := {};
      new;
      LoadConfig(config);
    }

    /**
     * LoadConfig: adds every entry under "ENG" to engApps and every entry under
     * "CHINESE" to chnApps. config is None when the file is missing, cannot be
     * read or parsed, or holds null; then nothing is added.
     */
    method LoadConfig(config: Option<Config>)
      modifies this
      ensures engApps == old(engApps) + Elements(Entries(config, EngKey))
      ensures chnApps == old(chnApps) + Elements(Entries(config, ChineseKey))
    {
      if config.None? {
        return;
      }
      var eng := Entries(config, EngKey);
      for i := 0 to |eng|
        invariant engApps == old(engApps) + Elements(eng[..i])
        invariant chnApps == old(chnApps)
      {
        assert eng[..i + 1] == eng[..i] + [eng[i]];
        engApps := engApps + {eng[i]};
      }
      assert eng[..|eng|] == eng;
      var chn := Entries(config, ChineseKey);
      for i := 0 to |chn|
        invariant chnApps == old(chnApps) + Elements(chn[..i])
        invariant engApps == old(engApps) + Elements(eng)
      {
        assert chn[..i + 1] == chn[..i] + [chn[i]];
        chnApps := chnApps + {chn[i]};
      }
      assert chn[..|chn|] == chn;
    }

    /**
     * Handle: resolves the window's executable name (processName is the
     * operating system's answer, None when the process is gone), reads the
     * current mode and issues at most one switch: SetToEnglish or SetToChinese
     * as Decide says. os is the operating system's behaviour during that switch.
     */
    method Handle(processName: Option<string>, current: Probe, os: nat -> Attempt)
      returns (action: Action, sends: seq<Send>)
      ensures action == Decide(GetProcessName(processName), engApps, chnApps, IsEnglishMode(current))
      ensures action == NoAction <==> sends == []
      ensures action != NoAction ==> 1 <= |sends| <= MAX_RETRY
      ensures action == ToEnglish ==>
                && (forall i :: 0 <= i < |sends| ==>
                      sends[i] == Send(os(i).target, WM_IME_CONTROL, IMC_SETCONVERSIONMODE, IME_CMODE_ALPHANUMERIC))
                && (forall i :: 0 <= i < |sends| - 1 ==> !IsEnglishMode(os(i).after))
                && (|sends| < MAX_RETRY ==> IsEnglishMode(os(|sends| - 1).after))
      ensures action == ToChinese ==>
                && (forall i :: 0 <= i < |sends| ==>
                      sends[i] == Send(os(i).target, WM_IME_CONTROL, IMC_SETCONVERSIONMODE, IME_CMODE_NATIVE))
                && (forall i :: 0 <= i < |sends| - 1 ==> IsEnglishMode(os(i).after))
                && (|sends| < MAX_RETRY ==> !IsEnglishMode(os(|sends| - 1).after))
    {
      var exe := GetProcessName(processName);
      var isEng := IsEnglishMode(current);
      action := Decide(exe, engApps, chnApps, isEng);
      sends := [];
      if exe.None? {
        return;
      }
      if exe.value in engApps && !isEng {
        var ok;
        ok, sends := SetToEnglish(os);
      } else if exe.value in chnApps && isEng {
        var ok;
        ok, sends := SetToChinese(os);
      }
    }
  }
}
