/**
 * `ClientProtocol` and `ClientFactory` of twinkle-client/client.py. The
 * protocol object keeps the one flag the source keeps and, in place of the
 * calls into the WebSocket library, the reactor and the sound player, the
 * log of effects it has issued. Each callback is proved to take the object
 * from its state `s` to `Session.Apply(s, e, muted)` for its event `e`.
 */
module Client {
  import opened Sounds
  import opened Session

  class ClientProtocol {
    /** The process-wide mute switch, fixed before the reactor runs. */
    const muted: bool
    var hasReceivedStarredMessage: bool
    var effects: seq<Effect>

    function Snapshot(): State
      reads this
    {
      State(hasReceivedStarredMessage, effects)
    }

    constructor (muted: bool)
      ensures this.muted == muted
      ensures !hasReceivedStarredMessage && effects == []
      ensures Snapshot() == Initial
    {
      this.muted := muted;
      hasReceivedStarredMessage := false;
      effects := [];
    }

    /** Send the star request and arm the one timer. */
    method OnOpen()
      modifies this
      ensures hasReceivedStarredMessage == old(hasReceivedStarredMessage)
      ensures effects == old(effects) + [Send(STAR_REQUEST_MESSAGE), ArmTimer(STAR_REQUEST_TIMEOUT_IN_SECONDS)]
      ensures Snapshot() == Apply(old(Snapshot()), Open, muted)
    {
      effects := effects + [Send(STAR_REQUEST_MESSAGE)];
      effects := effects + [ArmTimer(STAR_REQUEST_TIMEOUT_IN_SECONDS)];
    }

    /** Close on the error marker; on the starred marker set the flag, announce, close. */
    method OnMessage(message: string)
      modifies this
      ensures message == ERROR_MESSAGE ==>
        hasReceivedStarredMessage == old(hasReceivedStarredMessage) && effects == old(effects) + [Close]
      ensures message == STARRED_MESSAGE ==>
        hasReceivedStarredMessage &&
        effects == old(effects) + [Say(STAR_REQUEST_SUCCEEDED)]
                                + (if muted then [] else [Sound(SUCCESS)]) + [Close]
      ensures message != ERROR_MESSAGE && message != STARRED_MESSAGE ==>
        hasReceivedStarredMessage == old(hasReceivedStarredMessage) && effects == old(effects)
      ensures Snapshot() == Apply(old(Snapshot()), Message(message), muted)
    {
      if message == ERROR_MESSAGE {
        effects := effects + [Close];
      } else if message == STARRED_MESSAGE {
        hasReceivedStarredMessage := true;
        effects := effects + [Say(STAR_REQUEST_SUCCEEDED)];
        if !muted {
          effects := effects + [Sound(SUCCESS)];
        }
        effects := effects + [Close];
      }
    }

    /** The timer: close only while no confirmation has arrived; it is never cancelled. */
    method Timeout()
      modifies this
      ensures hasReceivedStarredMessage == old(hasReceivedStarredMessage)
      ensures old(hasReceivedStarredMessage) ==> effects == old(effects)
      ensures !old(hasReceivedStarredMessage) ==> effects == old(effects) + [Say(TIMEOUT_NOTICE), Close]
      ensures Snapshot() == Apply(old(Snapshot()), TimerFires, muted)
    {
      if !hasReceivedStarredMessage {
        effects := effects + [Say(TIMEOUT_NOTICE)];
        effects := effects + [Close];
      }
    }

    /** Decide the verdict and stop the reactor. */
    method OnClose(wasClean: bool, reason: string)
      modifies this
      ensures hasReceivedStarredMessage == old(hasReceivedStarredMessage)
      ensures !wasClean ==> effects == old(effects) + TerminateAbnormally(reason, muted)
      ensures wasClean && !hasReceivedStarredMessage ==>
        effects == old(effects) + TerminateAbnormally(STAR_REQUEST_FAILED, muted)
      ensures wasClean && hasReceivedStarredMessage ==> effects == old(effects) + [Stop(Succeeded)]
      ensures Snapshot() == Apply(old(Snapshot()), Closed(wasClean, reason), muted)
    {
      if !wasClean {
        effects := effects + TerminateAbnormally(reason, muted);
      } else if !hasReceivedStarredMessage {
        effects := effects + TerminateAbnormally(STAR_REQUEST_FAILED, muted);
      } else {
        effects := effects + [Stop(Succeeded)];
      }
    }
  }

  /**
   * `ClientFactory.clientConnectionFailed`: fail at once. No protocol object
   * exists, so no star request is sent and no timer is armed.
   */
  function ClientConnectionFailed(reason: string, muted: bool): (r: seq<Effect>)
    ensures EndsWithStop(r, Failed(reason))
    ensures Tally(r, IsSend) == 0 && Tally(r, IsTimer) == 0 && Tally(r, IsStop) == 1
    ensures Sound(FAIL) in r <==> !muted
    ensures Sound(SUCCESS) !in r
  {
    var snd: seq<Effect> := if muted then [] else [Sound(FAIL)];
    TallyAppend([Say(reason)] + snd, [Stop(Failed(reason))], IsSend);
    TallyAppend([Say(reason)] + snd, [Stop(Failed(reason))], IsTimer);
    TallyAppend([Say(reason)] + snd, [Stop(Failed(reason))], IsStop);
    TallyAppend([Say(reason)], snd, IsSend);
    TallyAppend([Say(reason)], snd, IsTimer);
    TallyAppend([Say(reason)], snd, IsStop);
    TerminateAbnormally(reason, muted)
  }
}
