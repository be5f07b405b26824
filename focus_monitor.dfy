/**
 * The focus stabilisation engine of WindowMonitor: raw "window activated"
 * notifications start a confirmation attempt that polls the foreground window
 * until one handle has stayed in front for StabilizeDurationMs, deduplicates it
 * against the last confirmed handle, waits a settle delay and raises
 * OnWindowConfirmedChanged unless the attempt was cancelled meanwhile.
 *
 * The asynchronous handler is split at its await points into step methods of
 * the WindowMonitor class (Activate, Confirm, Settle, Finish), so that a caller
 * chooses how attempts, Stop and Dispose interleave. The polling loop itself
 * touches only local variables and is the method Stabilise.
 */
module FocusMonitor {
  import opened Platform

  /** How long a handle must stay in front before it is confirmed. */
  const StabilizeDurationMs: int := 500
  /** Delay between two polls; only the clock readings of the polls are modelled. */
  const CheckIntervalMs: int := 50
  /** Delay between confirmation and the event; modelled as the Settle step. */
  const PostStabilizationDelayMs: int := 150

  /** One reading of the foreground window, with the clock at that moment. */
  datatype Sample = Sample(timeMs: int, hwnd: Hwnd)

  /**
   * The first index of the run of equal handles that ends at index i: the
   * poll at which the stability timer was last restarted for s[i].hwnd.
   */
  function RunStart(s: seq<Sample>, i: nat): (j: nat)
    requires i < |s|
    ensures j <= i
    ensures forall k :: j <= k <= i ==> s[k].hwnd == s[i].hwnd
    ensures j == 0 || s[j - 1].hwnd != s[i].hwnd
  {
    if i == 0 || s[i - 1].hwnd != s[i].hwnd then i else RunStart(s, i - 1)
  }

  /**
   * Poll i confirms its handle: it is not the zero handle, the previous poll
   * saw the same handle, and the clock has advanced at least
   * StabilizeDurationMs since the run of that handle began.
   */
  predicate ConfirmsAt(s: seq<Sample>, i: nat)
    requires i < |s|
    ensures ConfirmsAt(s, i) ==> 0 < i && RunStart(s, i) == RunStart(s, i - 1) && RunStart(s, i) < i
  {
    && 0 < i
    && s[i].hwnd != Zero
    && s[i].hwnd == s[i - 1].hwnd
    && s[i].timeMs - s[RunStart(s, i)].timeMs >= StabilizeDurationMs
  }

  ghost predicate ClockMonotone(s: seq<Sample>) {
    forall i, j :: 0 <= i <= j < |s| ==> s[i].timeMs <= s[j].timeMs
  }

  /**
   * The polling loop of one attempt. samples[0] is the foreground window read
   * before the loop; samples[1..] are the polls of the loop, in order. A
   * sequence that ends before a confirmation stands for the attempt's token
   * being cancelled before its next poll. The loop stops at the first
   * confirming poll and returns its handle (Zero when there is none).
   */
  method Stabilise(samples: seq<Sample>) returns (stableHwnd: Hwnd, at: nat)
    ensures stableHwnd == Zero <==> forall i :: 0 <= i < |samples| ==> !ConfirmsAt(samples, i)
    ensures stableHwnd != Zero ==>
              && at < |samples|
              && ConfirmsAt(samples, at)
              && stableHwnd == samples[at].hwnd
              && forall i :: 0 <= i < at ==> !ConfirmsAt(samples, i)
  {
    stableHwnd, at := Zero, 0;
    if |samples| == 0 {
      return;
    }
    var lastCheckedHwnd := samples[0].hwnd;
    var stableStartTime := samples[0].timeMs;
    var i := 1;
    while i < |samples|
      invariant 1 <= i <= |samples|
      invariant lastCheckedHwnd == samples[i - 1].hwnd
      invariant lastCheckedHwnd != Zero ==> stableStartTime == samples[RunStart(samples, i - 1)].timeMs
      invariant forall k :: 0 <= k < i ==> !ConfirmsAt(samples, k)
    {
      var current := samples[i];
      if current.hwnd == Zero {
        // an invalid handle restarts the timer and is never confirmed
        stableStartTime := current.timeMs;
        lastCheckedHwnd := Zero;
      } else if current.hwnd == lastCheckedHwnd {
        if current.timeMs - stableStartTime >= StabilizeDurationMs {
          assert RunStart(samples, i) == RunStart(samples, i - 1);
          assert ConfirmsAt(samples, i);
          stableHwnd, at := current.hwnd, i;
          return;
        }
      } else {
        lastCheckedHwnd := current.hwnd;
        stableStartTime := current.timeMs;
      }
      i := i + 1;
    }
  }

  /** Every poll from j to k returned the handle of poll k. */
  predicate SameHandle(s: seq<Sample>, j: nat, k: nat)
    requires j <= k < |s|
  {
    forall m :: j <= m <= k ==> s[m].hwnd == s[k].hwnd
  }

  /** A confirmed handle was returned by every poll since the last restart, for long enough. */
  lemma {:induction false} ConfirmedHandleWasStable(s: seq<Sample>, k: nat)
    requires k < |s| && ConfirmsAt(s, k)
    ensures s[k].hwnd != Zero
    ensures exists j :: 0 <= j < k && (j == 0 || s[j - 1].hwnd != s[k].hwnd) && SameHandle(s, j, k)
                        && s[k].timeMs - s[j].timeMs >= StabilizeDurationMs
  {
    var start := RunStart(s, k);
    assert s[k - 1].hwnd == s[k].hwnd;
    assert start < k && SameHandle(s, start, k);
  }

  lemma {:induction false} RunStartCoversRun(s: seq<Sample>, j: nat, k: nat)
    requires j <= k < |s|
    requires forall m :: j <= m <= k ==> s[m].hwnd == s[j].hwnd
    ensures RunStart(s, k) <= j
  {
    if k > j {
      RunStartCoversRun(s, j, k - 1);
    }
  }

  /**
   * Conversely, on a clock that never goes back, a non-zero handle that every
   * poll from j to k returned, over at least StabilizeDurationMs, is confirmed
   * at k at the latest: the loop cannot keep polling past k.
   */
  lemma {:induction false} StableRunIsConfirmed(s: seq<Sample>, j: nat, k: nat)
    requires ClockMonotone(s)
    requires j < k < |s|
    requires s[j].hwnd != Zero
    requires forall m :: j <= m <= k ==> s[m].hwnd == s[j].hwnd
    requires s[k].timeMs - s[j].timeMs >= StabilizeDurationMs
    ensures ConfirmsAt(s, k)
  {
    RunStartCoversRun(s, j, k);
    assert s[k - 1].hwnd == s[j].hwnd;
  }

  /** Where the continuation of one activation has got to. */
  datatype Phase =
    | Polling                 // between activation and the lock at line 107
    | Settling(hwnd: Hwnd)    // confirmed and recorded, waiting the settle delay
    | Finishing               // waiting to run its finally block
    | Done

  class WindowMonitor {
    /** _lastConfirmedHwnd */
    var lastConfirmedHwnd: Hwnd
    /** _confirmationCts: the generation of the current token source, None for null */
    var confirmationCts: Option<nat>
    /** generations whose token source has been cancelled */
    var cancelled: set<nat>
    /** number of token sources created so far; attempt t owns generation t */
    var generation: nat
    /** handles passed to OnWindowConfirmedChanged, in order */
    var events: seq<Hwnd>
    /** the attempt that raised each event */
    ghost var raisedBy: seq<nat>
    /** the progress of every attempt started so far */
    ghost var phase: seq<Phase>

    ghost predicate Valid()
      reads this
    {
      && |phase| == generation
      && (forall t :: t in cancelled ==> t < generation)
      && (confirmationCts.Some? ==>
            confirmationCts.value + 1 == generation && phase[confirmationCts.value] != Done)
      // every attempt but the newest can no longer raise an event, nor the
      // newest once the token source is gone
      && (confirmationCts.None? && generation > 0 ==>
            generation - 1 in cancelled || phase[generation - 1] == Done)
      && (forall t :: 0 <= t < generation - 1 ==> t in cancelled || phase[t] == Done)
      && (forall t :: 0 <= t < generation && phase[t].Settling? ==> phase[t].hwnd != Zero)
      && |raisedBy| == |events|
      && (forall i :: 0 <= i < |events| ==> events[i] != Zero)
      && (forall i, j :: 0 <= i < j < |raisedBy| ==> raisedBy[i] < raisedBy[j])
      && (forall i :: 0 <= i < |raisedBy| ==>
            raisedBy[i] < generation && (phase[raisedBy[i]] == Finishing || phase[raisedBy[i]] == Done))
    }

    /** The set of cancelled generations once the current token source is cancelled. */
    function CancelCurrent(): set<nat>
      reads this
    {
      match confirmationCts
      case None => cancelled
      case Some(t) => cancelled + {t}
    }

    constructor ()
      ensures Valid()
      ensures lastConfirmedHwnd == Zero && confirmationCts == None && cancelled == {}
      ensures generation == 0 && events == [] && phase == []
    {
      lastConfirmedHwnd := Zero;
      confirmationCts := None;
      cancelled := {};
      generation := 0;
      events := [];
      raisedBy := [];
      phase := [];
    }

    /**
     * A raw activation (lines 45-56): the previous attempt's token is
     * cancelled and a fresh one installed for the new attempt. The handle the
     * notification carries is never used, so it is not a parameter.
     */
    method Activate() returns (token: nat)
      requires Valid()
      modifies this
      ensures Valid()
      ensures token == old(generation) && generation == token + 1
      ensures confirmationCts == Some(token) && token !in cancelled
      ensures cancelled == old(CancelCurrent())
      ensures phase == old(phase) + [Polling]
      ensures lastConfirmedHwnd == old(lastConfirmedHwnd)
      ensures events == old(events) && raisedBy == old(raisedBy)
    {
      if confirmationCts.Some? {
        cancelled := cancelled + {confirmationCts.value};
      }
      token := generation;
      generation := generation + 1;
      confirmationCts := Some(token);
      phase := phase + [Polling];
    }

    /**
     * The end of the polling loop (lines 103-114): a stable handle of an
     * attempt that is still live is compared with the last confirmed handle
     * and recorded when it differs. The record is made before the settle
     * delay, so an attempt cancelled during that delay leaves it behind.
     */
    method Confirm(token: nat, stableHwnd: Hwnd) returns (notify: bool)
      requires Valid()
      requires token < |phase| && phase[token] == Polling
      modifies this
      ensures Valid()
      ensures notify <==> token !in cancelled && stableHwnd != Zero && stableHwnd != old(lastConfirmedHwnd)
      ensures notify <==> lastConfirmedHwnd != old(lastConfirmedHwnd)
      ensures notify ==> lastConfirmedHwnd == stableHwnd
      ensures phase == old(phase)[token := if notify then Settling(stableHwnd) else Finishing]
      ensures confirmationCts == old(confirmationCts) && cancelled == old(cancelled)
      ensures generation == old(generation) && events == old(events) && raisedBy == old(raisedBy)
    {
      notify := false;
      if token !in cancelled && stableHwnd != Zero {
        if stableHwnd != lastConfirmedHwnd {
          lastConfirmedHwnd := stableHwnd;
          notify := true;
        }
      }
      phase := phase[token := if notify then Settling(stableHwnd) else Finishing];
    }

    /**
     * After the settle delay (lines 116-130): the event is raised only if the
     * attempt's token was not cancelled in the meantime. Only the newest
     * attempt can get here with a live token.
     */
    method Settle(token: nat, stableHwnd: Hwnd) returns (raised: bool)
      requires Valid()
      requires token < |phase| && phase[token] == Settling(stableHwnd)
      modifies this
      ensures Valid()
      ensures raised <==> token !in cancelled
      ensures raised ==> token + 1 == generation
      ensures events == old(events) + (if raised then [stableHwnd] else [])
      ensures phase == old(phase)[token := Finishing]
      ensures lastConfirmedHwnd == old(lastConfirmedHwnd) && confirmationCts == old(confirmationCts)
      ensures cancelled == old(cancelled) && generation == old(generation)
    {
      raised := token !in cancelled;
      if raised {
        events := events + [stableHwnd];
        raisedBy := raisedBy + [token];
      }
      phase := phase[token := Finishing];
    }

    /**
     * The finally block (lines 146-158): the token source is released only if
     * it is still this attempt's own; a newer attempt's source is left alone.
     */
    method Finish(token: nat)
      requires Valid()
      requires token < |phase| && phase[token] == Finishing
      modifies this
      ensures Valid()
      ensures confirmationCts == if old(confirmationCts) == Some(token) then None else old(confirmationCts)
      ensures phase == old(phase)[token := Done]
      ensures lastConfirmedHwnd == old(lastConfirmedHwnd) && cancelled == old(cancelled)
      ensures generation == old(generation) && events == old(events) && raisedBy == old(raisedBy)
    {
      if confirmationCts == Some(token) {
        confirmationCts := None;
      }
      phase := phase[token := Done];
    }

    /** Stop (lines 35-42): cancels the attempt in flight; afterwards no attempt can raise an event. */
    method Stop()
      requires Valid()
      modifies this
      ensures Valid()
      ensures cancelled == old(CancelCurrent())
      ensures forall t :: 0 <= t < |phase| ==> t in cancelled || phase[t] == Done
      ensures confirmationCts == old(confirmationCts) && lastConfirmedHwnd == old(lastConfirmedHwnd)
      ensures generation == old(generation) && events == old(events) && phase == old(phase)
    {
      if confirmationCts.Some? {
        cancelled := cancelled + {confirmationCts.value};
      }
    }

    /** Dispose (lines 162-172): cancels the attempt in flight and drops the token source. */
    method Dispose()
      requires Valid()
      modifies this
      ensures Valid()
      ensures cancelled == old(CancelCurrent()) && confirmationCts == None
      ensures forall t :: 0 <= t < |phase| ==> t in cancelled || phase[t] == Done
      ensures lastConfirmedHwnd == old(lastConfirmedHwnd)
      ensures generation == old(generation) && events == old(events) && phase == old(phase)
    {
      if confirmationCts.Some? {
        cancelled := cancelled + {confirmationCts.value};
      }
      confirmationCts := None;
    }
  }

  /**
   * One attempt that nothing interrupts, from activation to cleanup, over the
   * given polls. The settle delay passes without a new activation. The event
   * is raised exactly when the first confirming poll names a handle other than
   * the last confirmed one, and that handle becomes the last confirmed one.
   */
  method RunAttempt(m: WindowMonitor, samples: seq<Sample>) returns (raised: bool, stable: Hwnd, at: nat)
    requires m.Valid()
    modifies m
    ensures m.Valid()
    ensures m.confirmationCts == None
    ensures stable == Zero <==> forall i :: 0 <= i < |samples| ==> !ConfirmsAt(samples, i)
    ensures stable != Zero ==>
              && at < |samples|
              && ConfirmsAt(samples, at)
              && stable == samples[at].hwnd
              && forall i :: 0 <= i < at ==> !ConfirmsAt(samples, i)
    ensures raised <==> stable != Zero && stable != old(m.lastConfirmedHwnd)
    ensures m.events == old(m.events) + (if raised then [stable] else [])
    ensures m.lastConfirmedHwnd == if raised then stable else old(m.lastConfirmedHwnd)
  {
    var token := m.Activate();
    stable, at := Stabilise(samples);
    var notify := m.Confirm(token, stable);
    raised := false;
    if notify {
      raised := m.Settle(token, stable);
    }
    m.Finish(token);
  }

  /**
   * A superseded attempt wakes up, finds its token cancelled at the end of
   * polling and only runs its cleanup, which leaves the newer token source alone.
   */
  method Abandon(m: WindowMonitor, token: nat, stableHwnd: Hwnd)
    requires m.Valid()
    requires token < |m.phase| && m.phase[token] == Polling && token in m.cancelled
    modifies m
    ensures m.Valid()
    ensures m.phase == old(m.phase)[token := Done]
    ensures m.events == old(m.events) && m.lastConfirmedHwnd == old(m.lastConfirmedHwnd)
    ensures m.cancelled == old(m.cancelled) && m.generation == old(m.generation)
    ensures m.confirmationCts == if old(m.confirmationCts) == Some(token) then None else old(m.confirmationCts)
  {
    var notify := m.Confirm(token, stableHwnd);
    m.Finish(token);
  }

  /**
   * The burst [H1, H1, H2, H1]: four activations in quick succession, after
   * which the foreground window stays on h1. Only the last attempt is live;
   * exactly one event, for h1, is raised.
   */
  method BurstScenario(h1: Hwnd, h2: Hwnd, t0: int) returns (events: seq<Hwnd>)
    requires h1 != Zero && h2 != Zero
    ensures events == [h1]
  {
    var m := new WindowMonitor();
    var a1 := m.Activate();
    var a2 := m.Activate();
    var a3 := m.Activate();
    var a4 := m.Activate();
    Abandon(m, a1, h1);
    Abandon(m, a2, h1);
    Abandon(m, a3, h2);
    var polls := [Sample(t0, h1), Sample(t0 + 250, h1), Sample(t0 + StabilizeDurationMs, h1)];
    var stable, at := Stabilise(polls);
    assert ConfirmsAt(polls, 2);
    ReportUninterrupted(m, a4, stable);
    events := m.events;
  }

  /**
   * A focus change that is never reported: attempt a confirms x and records it,
   * then an activation during the settle delay cancels a; the new attempt
   * confirms x again, which now counts as already confirmed. No event is
   * raised for x although x was stable twice.
   */
  method LostFocusScenario(x: Hwnd) returns (events: seq<Hwnd>, last: Hwnd)
    requires x != Zero
    ensures events == [] && last == x
  {
    var m := new WindowMonitor();
    var a := m.Activate();
    var notifyA := m.Confirm(a, x);
    var b := m.Activate();
    var raisedA := m.Settle(a, x);
    m.Finish(a);
    var notifyB := m.Confirm(b, x);
    m.Finish(b);
    events, last := m.events, m.lastConfirmedHwnd;
  }

  /**
   * The live attempt token, which nothing interrupts, confirms x (different
   * from the last confirmed handle), reports it and cleans up.
   */
  method ReportUninterrupted(m: WindowMonitor, token: nat, x: Hwnd)
    requires m.Valid()
    requires token < |m.phase| && m.phase[token] == Polling && token !in m.cancelled
    requires m.confirmationCts == Some(token)
    requires x != Zero && x != m.lastConfirmedHwnd
    modifies m
    ensures m.Valid()
    ensures m.events == old(m.events) + [x] && m.lastConfirmedHwnd == x
    ensures m.confirmationCts == None && m.generation == old(m.generation)
  {
    var notify := m.Confirm(token, x);
    var raised := m.Settle(token, x);
    m.Finish(token);
  }

  /**
   * Two consecutive events for the same handle: x is reported, then y is
   * recorded by an attempt cancelled during its settle delay, then x is
   * confirmed again and, differing from the recorded y, reported again.
   */
  method RepeatedEventScenario(x: Hwnd, y: Hwnd) returns (events: seq<Hwnd>)
    requires x != Zero && y != Zero && x != y
    ensures events == [x, x]
  {
    var m := new WindowMonitor();
    var a := m.Activate();
    ReportUninterrupted(m, a, x);
    var b := m.Activate();
    var notifyB := m.Confirm(b, y);
    var c := m.Activate();
    var raisedB := m.Settle(b, y);
    m.Finish(b);
    ReportUninterrupted(m, c, x);
    events := m.events;
  }
}
