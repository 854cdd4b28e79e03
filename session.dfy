/**
 * The request/confirm state machine of `ClientProtocol` in
 * twinkle-client/client.py, as a pure transition function over the events
 * the reactor delivers one at a time. The state is the one flag the protocol
 * keeps plus the log of effects it has issued so far. The class in
 * client.dfy is proved to follow this function; the lemmas below state what
 * a whole run of events comes to.
 */
module Session {
  import opened Sounds

  const STAR_REQUEST_TIMEOUT_IN_SECONDS: nat := 3
  const STAR_REQUEST_MESSAGE := "twinkle:star"
  const ERROR_MESSAGE := "twinkle:error"
  const STARRED_MESSAGE := "twinkle:starred"

  /** The texts the protocol prints. */
  const STAR_REQUEST_FAILED := "Star request failed"
  const STAR_REQUEST_SUCCEEDED := "Star request succeeded"
  const TIMEOUT_NOTICE := "Timeout while waiting for star request's response"

  datatype Outcome = Succeeded | Failed(reason: string)

  /** What the protocol asks of the outside world. */
  datatype Effect =
    | Send(message: string)   // `sendMessage`
    | ArmTimer(seconds: nat)  // `reactor.callLater(seconds, self.timeout)`
    | Close                   // `sendClose`
    | Say(text: string)       // `print`
    | Sound(which: int)       // `playSound`, requested
    | Stop(outcome: Outcome)  // `reactor.stop`, with the verdict of the run

  /** The callbacks the reactor delivers. */
  datatype Event =
    | Open                                  // `onOpen`
    | Message(text: string)                 // `onMessage`
    | TimerFires                            // the armed `timeout` runs
    | Closed(wasClean: bool, reason: string) // `onClose`

  datatype State = State(confirmed: bool, log: seq<Effect>)

  /** A fresh `ClientProtocol`: nothing confirmed, nothing done. */
  const Initial := State(false, [])

  /** `terminateAbnormally`: print the reason, the fail sound unless muted, stop. */
  function TerminateAbnormally(reason: string, muted: bool): (r: seq<Effect>)
    ensures |r| >= 2 && r[0] == Say(reason) && r[|r| - 1] == Stop(Failed(reason))
    ensures Sound(FAIL) in r <==> !muted
    ensures forall k :: 0 <= k < |r| ==> !r[k].Send? && !r[k].ArmTimer? && !r[k].Close?
    ensures forall k :: 0 <= k < |r| - 1 ==> !r[k].Stop? && r[k] != Sound(SUCCESS)
  {
    [Say(reason)] + (if muted then [] else [Sound(FAIL)]) + [Stop(Failed(reason))]
  }

  /** The verdict `onClose` reaches: the transport reason first, then the flag. */
  function Verdict(confirmed: bool, wasClean: bool, reason: string): (r: Outcome)
    ensures r == Succeeded <==> wasClean && confirmed
    ensures !wasClean ==> r == Failed(reason)
    ensures wasClean && !confirmed ==> r == Failed(STAR_REQUEST_FAILED)
  {
    if !wasClean then Failed(reason)
    else if !confirmed then Failed(STAR_REQUEST_FAILED)
    else Succeeded
  }

  /** The effects event `e` causes when the flag is `confirmed`. */
  function Reaction(confirmed: bool, e: Event, muted: bool): seq<Effect> {
    match e
    case Open =>
      [Send(STAR_REQUEST_MESSAGE), ArmTimer(STAR_REQUEST_TIMEOUT_IN_SECONDS)]
    case Message(text) =>
      if text == ERROR_MESSAGE then [Close]
      else if text == STARRED_MESSAGE then
        [Say(STAR_REQUEST_SUCCEEDED)] + (if muted then [] else [Sound(SUCCESS)]) + [Close]
      else []
    case TimerFires =>
      if !confirmed then [Say(TIMEOUT_NOTICE), Close] else []
    case Closed(wasClean, reason) =>
      match Verdict(confirmed, wasClean, reason)
      case Succeeded => [Stop(Succeeded)]
      case Failed(why) => TerminateAbnormally(why, muted)
  }

  /** One event handled: only the starred marker sets the flag, nothing clears it. */
  function Apply(s: State, e: Event, muted: bool): (r: State)
    ensures s.log <= r.log
    ensures r.confirmed <==> s.confirmed || e == Message(STARRED_MESSAGE)
  {
    State(s.confirmed || e == Message(STARRED_MESSAGE), s.log + Reaction(s.confirmed, e, muted))
  }

  /** The state after handling `evs` in order, starting from `s`. */
  function Run(s: State, evs: seq<Event>, muted: bool): State
    decreases |evs|
  {
    if evs == [] then s
    else Apply(Run(s, evs[..|evs| - 1], muted), evs[|evs| - 1], muted)
  }

  // ---------------------------------------------------------------------
  // Counting effects and events

  function Tally<T>(xs: seq<T>, p: T -> bool): nat
    decreases |xs|
  {
    if xs == [] then 0 else (if p(xs[0]) then 1 else 0) + Tally(xs[1..], p)
  }

  lemma {:induction false} TallyAppend<T>(a: seq<T>, b: seq<T>, p: T -> bool)
    ensures Tally(a + b, p) == Tally(a, p) + Tally(b, p)
    decreases |a|
  {
    if a == [] {
      assert a + b == b;
    } else {
      assert (a + b)[1..] == a[1..] + b;
      TallyAppend(a[1..], b, p);
    }
  }

  predicate IsSend(e: Effect) { e.Send? }
  predicate IsTimer(e: Effect) { e.ArmTimer? }
  predicate IsStop(e: Effect) { e.Stop? }
  predicate IsOpen(e: Event) { e.Open? }
  predicate IsClose(e: Event) { e.Closed? }

  /**
   * Each `onOpen` sends one star request and arms one timer; each `onClose`
   * stops the reactor exactly once; no other callback does either.
   */
  lemma ReactionCounts(confirmed: bool, e: Event, muted: bool)
    ensures Tally(Reaction(confirmed, e, muted), IsSend) == (if e.Open? then 1 else 0)
    ensures Tally(Reaction(confirmed, e, muted), IsTimer) == (if e.Open? then 1 else 0)
    ensures Tally(Reaction(confirmed, e, muted), IsStop) == (if e.Closed? then 1 else 0)
  {
    var r := Reaction(confirmed, e, muted);
    match e
    case Open =>
      assert r == [Send(STAR_REQUEST_MESSAGE)] + [ArmTimer(STAR_REQUEST_TIMEOUT_IN_SECONDS)];
      TallyAppend([Send(STAR_REQUEST_MESSAGE)], [ArmTimer(STAR_REQUEST_TIMEOUT_IN_SECONDS)], IsSend);
      TallyAppend([Send(STAR_REQUEST_MESSAGE)], [ArmTimer(STAR_REQUEST_TIMEOUT_IN_SECONDS)], IsTimer);
      TallyAppend([Send(STAR_REQUEST_MESSAGE)], [ArmTimer(STAR_REQUEST_TIMEOUT_IN_SECONDS)], IsStop);
    case Message(text) =>
      if text != ERROR_MESSAGE && text == STARRED_MESSAGE {
        var snd: seq<Effect> := if muted then [] else [Sound(SUCCESS)];
        TallyAppend([Say(STAR_REQUEST_SUCCEEDED)] + snd, [Close], IsSend);
        TallyAppend([Say(STAR_REQUEST_SUCCEEDED)] + snd, [Close], IsTimer);
        TallyAppend([Say(STAR_REQUEST_SUCCEEDED)] + snd, [Close], IsStop);
        TallyAppend([Say(STAR_REQUEST_SUCCEEDED)], snd, IsSend);
        TallyAppend([Say(STAR_REQUEST_SUCCEEDED)], snd, IsTimer);
        TallyAppend([Say(STAR_REQUEST_SUCCEEDED)], snd, IsStop);
      }
    case TimerFires =>
      if !confirmed {
        TallyAppend([Say(TIMEOUT_NOTICE)], [Close], IsSend);
        TallyAppend([Say(TIMEOUT_NOTICE)], [Close], IsTimer);
        TallyAppend([Say(TIMEOUT_NOTICE)], [Close], IsStop);
      }
    case Closed(wasClean, reason) =>
      match Verdict(confirmed, wasClean, reason)
      case Succeeded =>
      case Failed(why) =>
        var snd: seq<Effect> := if muted then [] else [Sound(FAIL)];
        TallyAppend([Say(why)] + snd, [Stop(Failed(why))], IsSend);
        TallyAppend([Say(why)] + snd, [Stop(Failed(why))], IsTimer);
        TallyAppend([Say(why)] + snd, [Stop(Failed(why))], IsStop);
        TallyAppend([Say(why)], snd, IsSend);
        TallyAppend([Say(why)], snd, IsTimer);
        TallyAppend([Say(why)], snd, IsStop);
  }

  /**
   * Over any run from a fresh session: one star request and one timer per
   * `onOpen`, and one stop of the reactor (one verdict) per `onClose`.
   */
  lemma {:induction false} RunCounts(evs: seq<Event>, muted: bool)
    ensures Tally(Run(Initial, evs, muted).log, IsSend) == Tally(evs, IsOpen)
    ensures Tally(Run(Initial, evs, muted).log, IsTimer) == Tally(evs, IsOpen)
    ensures Tally(Run(Initial, evs, muted).log, IsStop) == Tally(evs, IsClose)
    decreases |evs|
  {
    if evs != [] {
      var init, e := evs[..|evs| - 1], evs[|evs| - 1];
      var before := Run(Initial, init, muted);
      RunCounts(init, muted);
      ReactionCounts(before.confirmed, e, muted);
      var r := Reaction(before.confirmed, e, muted);
      TallyAppend(before.log, r, IsSend);
      TallyAppend(before.log, r, IsTimer);
      TallyAppend(before.log, r, IsStop);
      assert evs == init + [e];
      TallyAppend(init, [e], IsOpen);
      TallyAppend(init, [e], IsClose);
    }
  }

  // ---------------------------------------------------------------------
  // The flag and the verdict

  /**
   * The flag is set after a run exactly when it was set before or the
   * starred marker arrived during the run: no other message sets it and
   * nothing resets it.
   */
  lemma {:induction false} RunConfirmed(s: State, evs: seq<Event>, muted: bool)
    ensures Run(s, evs, muted).confirmed <==> s.confirmed || Message(STARRED_MESSAGE) in evs
    decreases |evs|
  {
    if evs != [] {
      var init := evs[..|evs| - 1];
      RunConfirmed(s, init, muted);
      assert evs == init + [evs[|evs| - 1]];
    }
  }

  /** The log of a run only ever grows. */
  lemma {:induction false} RunExtendsLog(s: State, evs: seq<Event>, muted: bool)
    ensures s.log <= Run(s, evs, muted).log
    decreases |evs|
  {
    if evs != [] {
      RunExtendsLog(s, evs[..|evs| - 1], muted);
    }
  }

  /** The verdict expected when the `j`-th event is a close, from the events alone. */
  function ExpectedVerdict(evs: seq<Event>, j: nat): (r: Outcome)
    requires j < |evs| && evs[j].Closed?
    ensures r == Succeeded <==> evs[j].wasClean && Message(STARRED_MESSAGE) in evs[..j]
  {
    if !evs[j].wasClean then Failed(evs[j].reason)
    else if Message(STARRED_MESSAGE) in evs[..j] then Succeeded
    else Failed(STAR_REQUEST_FAILED)
  }

  predicate EndsWithStop(log: seq<Effect>, outcome: Outcome) {
    |log| > 0 && log[|log| - 1] == Stop(outcome)
  }

  /**
   * The decision of `onClose`: an unclean close fails with the transport's
   * reason; a clean close succeeds exactly when the starred marker arrived
   * at some point before it, and otherwise fails with "Star request failed"
   * (so after an error marker or a timeout as well).
   */
  lemma CloseDecides(evs: seq<Event>, j: nat, muted: bool)
    requires j < |evs| && evs[j].Closed?
    ensures EndsWithStop(Run(Initial, evs[..j + 1], muted).log, ExpectedVerdict(evs, j))
  {
    var pre := evs[..j + 1];
    assert pre[..|pre| - 1] == evs[..j];
    var before := Run(Initial, evs[..j], muted);
    RunConfirmed(Initial, evs[..j], muted);
    var r := Reaction(before.confirmed, evs[j], muted);
    assert r[|r| - 1] == Stop(ExpectedVerdict(evs, j));
  }

  // ---------------------------------------------------------------------
  // Sounds

  /**
   * Every sound is requested only when not muted, and every fail sound is
   * immediately followed by a failed verdict.
   */
  predicate SoundsHeeded(log: seq<Effect>, muted: bool) {
    forall k :: 0 <= k < |log| ==> SoundHeededAt(log, k, muted)
  }

  predicate SoundHeededAt(log: seq<Effect>, k: nat, muted: bool)
    requires k < |log|
  {
    log[k].Sound? ==>
      !muted && (log[k].which == SUCCESS ||
                 (log[k].which == FAIL && k + 1 < |log| && log[k + 1].Stop? && log[k + 1].outcome.Failed?))
  }

  lemma SoundsHeededAppend(a: seq<Effect>, b: seq<Effect>, muted: bool)
    requires SoundsHeeded(a, muted) && SoundsHeeded(b, muted)
    ensures SoundsHeeded(a + b, muted)
  {
    var ab := a + b;
    forall k | 0 <= k < |ab|
      ensures SoundHeededAt(ab, k, muted)
    {
      if k < |a| {
        assert SoundHeededAt(a, k, muted);
        assert ab[k] == a[k];
        if k + 1 < |a| { assert ab[k + 1] == a[k + 1]; }
      } else {
        var j := k - |a|;
        assert SoundHeededAt(b, j, muted);
        assert ab[k] == b[j];
        if j + 1 < |b| { assert ab[k + 1] == b[j + 1]; }
      }
    }
  }

  lemma {:induction false} RunSoundsHeeded(evs: seq<Event>, muted: bool)
    ensures SoundsHeeded(Run(Initial, evs, muted).log, muted)
    decreases |evs|
  {
    if evs != [] {
      var init, e := evs[..|evs| - 1], evs[|evs| - 1];
      var before := Run(Initial, init, muted);
      RunSoundsHeeded(init, muted);
      var r := Reaction(before.confirmed, e, muted);
      if e.Closed? && Verdict(before.confirmed, e.wasClean, e.reason).Failed? {
        var why := Verdict(before.confirmed, e.wasClean, e.reason).reason;
        assert r == TerminateAbnormally(why, muted);
        assert SoundsHeeded(r, muted) by {
          forall k | 0 <= k < |r|
            ensures SoundHeededAt(r, k, muted)
          {
            if r[k].Sound? { assert k == 1; }
          }
        }
      } else {
        assert SoundsHeeded(r, muted);
      }
      SoundsHeededAppend(before.log, r, muted);
    }
  }

  /** A success sound is requested only once the starred marker has set the flag. */
  lemma {:induction false} SuccessSoundOnlyWhenConfirmed(evs: seq<Event>, muted: bool)
    ensures Sound(SUCCESS) in Run(Initial, evs, muted).log ==> Run(Initial, evs, muted).confirmed
    decreases |evs|
  {
    if evs != [] {
      var init, e := evs[..|evs| - 1], evs[|evs| - 1];
      var before := Run(Initial, init, muted);
      SuccessSoundOnlyWhenConfirmed(init, muted);
      var r := Reaction(before.confirmed, e, muted);
      assert Sound(SUCCESS) in r ==> e == Message(STARRED_MESSAGE);
      assert Run(Initial, evs, muted).log == before.log + r;
    }
  }

  // ---------------------------------------------------------------------
  // Whole runs

  /** Confirmation, then a clean close: success, announced and with the success sound. */
  lemma ConfirmedRun(reason: string)
    ensures Run(Initial, [Open, Message(STARRED_MESSAGE), Closed(true, reason)], false).log ==
      [Send(STAR_REQUEST_MESSAGE), ArmTimer(STAR_REQUEST_TIMEOUT_IN_SECONDS),
       Say(STAR_REQUEST_SUCCEEDED), Sound(SUCCESS), Close, Stop(Succeeded)]
  {
    var evs := [Open, Message(STARRED_MESSAGE), Closed(true, reason)];
    assert evs[..2][..1] == [Open];
    assert evs[..2] == [Open, Message(STARRED_MESSAGE)];
    var s1 := Run(Initial, [Open], false);
    assert s1 == State(false, [Send(STAR_REQUEST_MESSAGE), ArmTimer(STAR_REQUEST_TIMEOUT_IN_SECONDS)]);
    var s2 := Run(Initial, evs[..2], false);
    assert s2 == Apply(s1, Message(STARRED_MESSAGE), false);
    assert s2.confirmed;
    assert Run(Initial, evs, false) == Apply(s2, Closed(true, reason), false);
  }

  /**
   * The error marker, then the timer before the close: the timer was never
   * cancelled, so it requests a second close, and the verdict is the
   * clean-close failure, not a reason naming the error.
   */
  lemma ErrorThenStaleTimerRun(reason: string)
    ensures Run(Initial, [Open, Message(ERROR_MESSAGE), TimerFires, Closed(true, reason)], true).log ==
      [Send(STAR_REQUEST_MESSAGE), ArmTimer(STAR_REQUEST_TIMEOUT_IN_SECONDS), Close,
       Say(TIMEOUT_NOTICE), Close, Say(STAR_REQUEST_FAILED), Stop(Failed(STAR_REQUEST_FAILED))]
  {
    var evs := [Open, Message(ERROR_MESSAGE), TimerFires, Closed(true, reason)];
    assert evs[..3][..2][..1] == [Open];
    assert evs[..3][..2] == [Open, Message(ERROR_MESSAGE)];
    assert evs[..3] == [Open, Message(ERROR_MESSAGE), TimerFires];
    var s1 := Run(Initial, [Open], true);
    assert s1 == State(false, [Send(STAR_REQUEST_MESSAGE), ArmTimer(STAR_REQUEST_TIMEOUT_IN_SECONDS)]);
    var s2 := Run(Initial, evs[..3][..2], true);
    assert s2 == Apply(s1, Message(ERROR_MESSAGE), true);
    assert !s2.confirmed;
    var s3 := Run(Initial, evs[..3], true);
    assert s3 == Apply(s2, TimerFires, true);
    assert !s3.confirmed;
    assert Run(Initial, evs, true) == Apply(s3, Closed(true, reason), true);
  }

  /**
   * The timer, then the confirmation before the close: the flag is still
   * set, so the clean close that follows succeeds.
   */
  lemma LateConfirmationRun(reason: string)
    ensures EndsWithStop(
      Run(Initial, [Open, TimerFires, Message(STARRED_MESSAGE), Closed(true, reason)], true).log,
      Succeeded)
  {
    var evs := [Open, TimerFires, Message(STARRED_MESSAGE), Closed(true, reason)];
    CloseDecides(evs, 3, true);
    assert evs[..4] == evs;
    assert evs[..3][2] == Message(STARRED_MESSAGE);
  }
}
