/**
 * IMEController: reading the conversion mode of the foreground window's input
 * context, and switching it with a bounded verify-and-retry loop.
 *
 * The operating system is an oracle. What IsEnglishMode sees is a Probe (the
 * default IME window of the foreground window, and the conversion mode that
 * window reports); one retried switching attempt is an Attempt (the IME window
 * the set-mode message goes to, and the probe taken 30 ms later). Attempt i of
 * a switch is os(i).
 */
module ImeControl {
  import opened Platform

  const WM_IME_CONTROL: bv32 := 0x0283
  const IMC_GETCONVERSIONMODE: bv32 := 0x0001
  const IMC_SETCONVERSIONMODE: bv32 := 0x0002
  const IME_CMODE_NATIVE: bv32 := 0x1
  const IME_CMODE_ALPHANUMERIC: bv32 := 0x0
  const MAX_RETRY: int := 50

  datatype Probe = Probe(imeWindow: Hwnd, conversionMode: bv32)

  datatype Attempt = Attempt(target: Hwnd, after: Probe)

  /** A message sent to an IME window. */
  datatype Send = Send(imeWindow: Hwnd, msg: bv32, command: bv32, conversionMode: bv32)

  /**
   * Latin ("English") mode: there is an IME window and its conversion mode has
   * the native bit clear, i.e. is even. Without an IME window the answer is false.
   */
  function IsEnglishMode(p: Probe): (english: bool)
    ensures english <==> p.imeWindow != Zero && p.conversionMode % 2 == 0
  {
    if p.imeWindow == Zero then false
    else p.conversionMode & IME_CMODE_NATIVE == 0
  }

  /**
   * The least call index i with from <= i < retry for which func answers true,
   * if there is one.
   */
  function FirstSuccess(func: nat -> bool, retry: int, from: nat): (k: Option<nat>)
    decreases retry - from
    ensures k.Some? ==> from <= k.value < retry && func(k.value)
    ensures k.Some? ==> forall i :: from <= i < k.value ==> !func(i)
    ensures k.None? ==> forall i :: from <= i < retry ==> !func(i)
  {
    if retry <= from then None
    else if func(from) then Some(from)
    else FirstSuccess(func, retry, from + 1)
  }

  /**
   * Retry: calls func (call i answers func(i)) until a call answers true, at
   * most retry times. Returns whether some call succeeded and how many calls
   * were made.
   */
  method Retry(func: nat -> bool, retry: int := MAX_RETRY) returns (success: bool, calls: nat)
    ensures success <==> FirstSuccess(func, retry, 0).Some?
    ensures success ==> calls == FirstSuccess(func, retry, 0).value + 1
    ensures !success ==> calls == if retry < 0 then 0 else retry
  {
    calls := 0;
    var i := 0;
    while i < retry
      invariant 0 <= i && (retry >= 0 ==> i <= retry) && (retry < 0 ==> i == 0)
      invariant calls == i
      invariant FirstSuccess(func, retry, 0) == FirstSuccess(func, retry, i)
    {
      calls := calls + 1;
      if func(i) {
        return true, calls;
      }
      i := i + 1;
    }
    return false, calls;
  }

  /** Attempt i of a switch to latin mode succeeds when the probe after it shows latin mode. */
  function EnglishReached(os: nat -> Attempt): (reached: nat -> bool)
    ensures forall i :: reached(i) == IsEnglishMode(os(i).after)
  {
    (i: nat) => IsEnglishMode(os(i).after)
  }

  /** Attempt i of a switch to native mode succeeds when the probe after it does not show latin mode. */
  function ChineseReached(os: nat -> Attempt): (reached: nat -> bool)
    ensures forall i :: reached(i) == !IsEnglishMode(os(i).after)
  {
    (i: nat) => !IsEnglishMode(os(i).after)
  }

  /** The set-mode messages of the first n attempts. */
  function SetModeSends(os: nat -> Attempt, n: nat, mode: bv32): (sends: seq<Send>)
    ensures |sends| == n
    ensures forall i :: 0 <= i < n ==> sends[i] == Send(os(i).target, WM_IME_CONTROL, IMC_SETCONVERSIONMODE, mode)
  {
    seq(n, (i: int) requires 0 <= i => Send(os(i).target, WM_IME_CONTROL, IMC_SETCONVERSIONMODE, mode))
  }

  /**
   * SetToEnglish: every attempt re-resolves the IME window of the current
   * foreground window and sends it the alphanumeric mode; the switch succeeds
   * at the first attempt after which IsEnglishMode holds.
   */
  method SetToEnglish(os: nat -> Attempt) returns (success: bool, sends: seq<Send>)
    ensures success <==> FirstSuccess(EnglishReached(os), MAX_RETRY, 0).Some?
    ensures 1 <= |sends| <= MAX_RETRY
    ensures forall i :: 0 <= i < |sends| ==>
              sends[i] == Send(os(i).target, WM_IME_CONTROL, IMC_SETCONVERSIONMODE, IME_CMODE_ALPHANUMERIC)
    ensures success ==> IsEnglishMode(os(|sends| - 1).after)
    ensures forall i :: 0 <= i < |sends| - 1 ==> !IsEnglishMode(os(i).after)
    ensures !success ==> |sends| == MAX_RETRY && !IsEnglishMode(os(MAX_RETRY - 1).after)
  {
    var calls;
    var reached := EnglishReached(os);
    success, calls := Retry(reached);
    assert forall i :: 0 <= i < calls - 1 ==> !reached(i);
    assert success ==> reached(calls - 1);
    assert !success ==> calls == MAX_RETRY && !reached(MAX_RETRY - 1);
    sends := SetModeSends(os, calls, IME_CMODE_ALPHANUMERIC);
  }

  /**
   * SetToChinese: as SetToEnglish, with the native mode, succeeding at the
   * first attempt after which IsEnglishMode does not hold.
   */
  method SetToChinese(os: nat -> Attempt) returns (success: bool, sends: seq<Send>)
    ensures success <==> FirstSuccess(ChineseReached(os), MAX_RETRY, 0).Some?
    ensures 1 <= |sends| <= MAX_RETRY
    ensures forall i :: 0 <= i < |sends| ==>
              sends[i] == Send(os(i).target, WM_IME_CONTROL, IMC_SETCONVERSIONMODE, IME_CMODE_NATIVE)
    ensures success ==> !IsEnglishMode(os(|sends| - 1).after)
    ensures forall i :: 0 <= i < |sends| - 1 ==> IsEnglishMode(os(i).after)
    ensures !success ==> |sends| == MAX_RETRY && IsEnglishMode(os(MAX_RETRY - 1).after)
  {
    var calls;
    var reached := ChineseReached(os);
    success, calls := Retry(reached);
    assert forall i :: 0 <= i < calls - 1 ==> !reached(i);
    assert success ==> reached(calls - 1);
    assert !success ==> calls == MAX_RETRY && !reached(MAX_RETRY - 1);
    sends := SetModeSends(os, calls, IME_CMODE_NATIVE);
  }

  /** An operating system that applies a set-mode message to the window it was sent to. */
  predicate Complies(a: Attempt, mode: bv32) {
    a.target != Zero && a.after == Probe(a.target, mode)
  }

  /**
   * Convergence: when the first k attempts are ignored (k < MAX_RETRY) and
   * attempt k is applied, switching to latin mode succeeds after exactly k + 1
   * attempts.
   */
  lemma {:induction false} EnglishConverges(os: nat -> Attempt, k: nat)
    requires k < MAX_RETRY
    requires forall i :: 0 <= i < k ==> !IsEnglishMode(os(i).after)
    requires Complies(os(k), IME_CMODE_ALPHANUMERIC)
    ensures FirstSuccess(EnglishReached(os), MAX_RETRY, 0) == Some(k)
  {
    assert EnglishReached(os)(k);
  }

  /** The same for native mode. */
  lemma {:induction false} ChineseConverges(os: nat -> Attempt, k: nat)
    requires k < MAX_RETRY
    requires forall i :: 0 <= i < k ==> IsEnglishMode(os(i).after)
    requires Complies(os(k), IME_CMODE_NATIVE)
    ensures FirstSuccess(ChineseReached(os), MAX_RETRY, 0) == Some(k)
  {
    assert ChineseReached(os)(k);
  }

  /**
   * A foreground window without an IME window reads as native mode, so a
   * switch to native mode reports success at the first attempt.
   */
  lemma ChineseWithoutImeWindow(os: nat -> Attempt)
    requires os(0).after.imeWindow == Zero
    ensures FirstSuccess(ChineseReached(os), MAX_RETRY, 0) == Some(0)
  {
  }

  /** ... and a switch to latin mode can never succeed while that lasts. */
  lemma EnglishNeedsImeWindow(os: nat -> Attempt)
    requires forall i :: 0 <= i < MAX_RETRY ==> os(i).after.imeWindow == Zero
    ensures FirstSuccess(EnglishReached(os), MAX_RETRY, 0) == None
  {
  }
}
