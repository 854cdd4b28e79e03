# twinkle-client in Dafny

twinkle-client is a one-shot WebSocket client. It connects to a server,
sends the star request `"twinkle:star"`, and waits up to 3 seconds for
`"twinkle:starred"` (confirmed) or `"twinkle:error"`. It then reports
success or failure, with an optional sound, and stops its reactor.

This project models that client's core:

- `session.dfy`, module `Session`: the request/confirm state machine of
  `ClientProtocol` as a pure transition function. `Apply` handles one
  event: `Open`, `Message(text)`, `TimerFires` or `Closed(wasClean,
  reason)`. The state is the "starred message received" flag plus a log of
  effects: messages sent, timers armed, close requests, printed texts,
  sounds requested, and the reactor stop carrying the verdict. `Run` folds a
  sequence of events. The lemmas cover the flag, the verdict on close, the
  counts of requests, timers and stops, and where sounds may appear.
- `client.dfy`, module `Client`: class `ClientProtocol`. It has the one
  mutable flag and the effect log. Each callback is proved to move the
  object exactly as `Session.Apply` does. `ClientConnectionFailed` models
  the factory's connection-failure path.
- `sounds.dfy`, module `Sounds`: the file choice of `playSound`,
  `getPlayCommand` with the platform name as a parameter, and the command's
  inverse `CommandPath`.
- `options.dfy`, module `Options`: the loop in `__main__` over the
  `(option, argument)` pairs that getopt returns. `ParseOptions` is proved
  equal to the fold `Fold`.
- `results.dfy`, module `Results`: Option and Result values. `Err` stands
  for an exception the source raises.

Where the design description and the code disagree, the model follows the
code:

- The timer is never cancelled.
- After an error marker or a timeout, the reported reason is "Star request
  failed". It comes from the clean-close branch. The timeout text is only
  printed.
- A confirmation that arrives after the timer's close request, but before
  the close, still sets the flag, and the run then succeeds
  (`Session.LateConfirmationRun`).
- Nothing in the code makes "the first transition wins".
- One verdict is produced per close event (`Session.RunCounts`), not per
  session.

## Model

| member | source | states |
|---|---|---|
| Sounds.AudioFile | twinkle-client/client.py:69-75 | SUCCESS picks "success.wav" and FAIL picks "fail.wav"; any other sound value is the "Unknown sound state" error |
| Sounds.PlayCommand | twinkle-client/client.py:82-92 | a command exists exactly for Linux, Darwin and Windows; it is the platform's player prefix, the path, and the platform's suffix (the Windows path sits between double quotes); any other platform gives the "Could not identify platform" error |
| Sounds.PlayCommandRoundTrip | twinkle-client/client.py:82-92 | the path can be read back from the command built for any known platform |
| Sounds.PlayCommandInjective | twinkle-client/client.py:82-92 | on one platform, different files give different commands |
| Sounds.PlaySound | twinkle-client/client.py:69-80 | an unknown sound raises out of playSound; for a known sound, a command is spawned exactly on a known platform, and that command plays the chosen file; otherwise the platform error is swallowed |
| Session.TerminateAbnormally | twinkle-client/client.py:63-67 | prints the reason first and ends by stopping with Failed(reason); the fail sound is requested exactly when not muted; nothing is sent, armed or closed |
| Session.Verdict | twinkle-client/client.py:31-37 | the order of the close decision: unclean gives Failed(transport reason); clean and unconfirmed gives Failed("Star request failed"); success exactly when clean and confirmed |
| Session.Apply | twinkle-client/client.py:22-52 | handling one event only appends to the effect log; the flag is set afterwards exactly when it was set before or the event is the starred marker |
| Session.ReactionCounts | twinkle-client/client.py:27-37 | a single event sends one star request and arms one timer exactly when it is the open event, and stops the reactor once exactly when it is a close |
| Session.RunCounts | twinkle-client/client.py:27-67 | over any run from a new session, the number of star requests sent and timers armed equals the number of opens, and the number of verdicts equals the number of closes |
| Session.RunConfirmed | twinkle-client/client.py:39-47 | after any run, the flag is set exactly when it was set at the start or the starred marker arrived; no other message sets it and nothing resets it |
| Session.RunExtendsLog | twinkle-client/client.py:27-52 | effects, once issued, are never taken back |
| Session.ExpectedVerdict | twinkle-client/client.py:31-37 | the verdict of the j-th event, read from the events alone, is success exactly when that close is clean and the starred marker came earlier |
| Session.CloseDecides | twinkle-client/client.py:31-47 | in any run, a close ends the log with that verdict: unclean gives the transport reason; clean succeeds exactly when starred arrived before it, and otherwise (after an error or a timeout too) fails with "Star request failed" |
| Session.RunSoundsHeeded | twinkle-client/client.py:45-67 | no sound is requested when muted; every fail sound is immediately followed by a failed verdict |
| Session.SuccessSoundOnlyWhenConfirmed | twinkle-client/client.py:42-46 | a success sound appears in the log only once the starred marker has set the flag |
| Session.ConfirmedRun | twinkle-client/client.py:27-47 | open, starred, clean close (not muted) gives: the star request, a 3 s timer, the success text and sound, a close request, and a stop with success |
| Session.ErrorThenStaleTimerRun | twinkle-client/client.py:27-52 | error marker, then the uncancelled timer, then a clean close: two close requests, the timeout text printed, and the verdict Failed("Star request failed") |
| Session.LateConfirmationRun | twinkle-client/client.py:31-52 | the timer fires, then starred arrives before the close: the clean close still succeeds |
| Client.ClientProtocol.constructor | twinkle-client/client.py:24-25 | a new protocol object is unconfirmed and has issued nothing |
| Client.ClientProtocol.OnOpen | twinkle-client/client.py:27-29 | appends exactly one star request and one 3-second timer; the flag is unchanged; agrees with Apply |
| Client.ClientProtocol.OnMessage | twinkle-client/client.py:39-47 | error marker: one close request, flag unchanged; starred marker: flag set, success text, sound unless muted, close request; any other message: nothing changes; agrees with Apply |
| Client.ClientProtocol.Timeout | twinkle-client/client.py:49-52 | when confirmed, nothing changes; otherwise the timeout text and one close request, flag unchanged; agrees with Apply |
| Client.ClientProtocol.OnClose | twinkle-client/client.py:31-37 | appends terminateAbnormally(transport reason) when unclean, terminateAbnormally("Star request failed") when clean and unconfirmed, and a bare stop with success otherwise; agrees with Apply |
| Client.ClientConnectionFailed | twinkle-client/client.py:59-60 | a connection failure ends with Failed(reason) at once: no star request sent, no timer armed, exactly one verdict, never the success sound, and the fail sound exactly when not muted |
| Options.ParseOptions | twinkle-client/client.py:96-111 | the loop's final url, muted flag and help exit equal the fold `Fold` over the option list |
| Options.FoldStopsAtHelp | twinkle-client/client.py:105-107 | once help is seen, later options change nothing |
| Options.FoldHelp | twinkle-client/client.py:104-107 | help is requested exactly when some option is -h or --help |
| Options.FoldUrlLastWins | twinkle-client/client.py:108-109 | a --url option that comes before any help sets the url to its argument |
| Options.FoldUrlLastWinsOver | twinkle-client/client.py:104-111 | after a help-free prefix, a --url followed by options none of which is url-like (help options included) leaves the url at that --url's argument: the last --url wins |
| Options.FoldUrlUnaffected | twinkle-client/client.py:104-111 | options that are not url-like, help options included, leave the url unchanged |
| Options.FoldUrlDefault | twinkle-client/client.py:96-111 | without any url-like option the url is "ws://localhost:9000" |
| Options.FoldMuteSticky | twinkle-client/client.py:110-111 | once muted, no further option unmutes |
| Options.FoldMuted | twinkle-client/client.py:104-111 | muted exactly when some -m/--mute-sound comes before every help option |
| Options.MuteIsNotUrl | twinkle-client/client.py:108-111 | a mute option never satisfies the url test, so it always reaches its own branch |
| Options.UrlTestIsEqualityOnGetoptNames | twinkle-client/client.py:100-108 | on the option names getopt can return, the substring test `opt in ("--url")` holds exactly for "--url" |
| Options.UrlTestAcceptsFragments | twinkle-client/client.py:108 | the substring test also accepts "" and "url", which getopt never returns |

## Left out

- The Twisted reactor, `callLater` timing and `reactor.run`/`reactor.stop`.
  Time is the abstract `TimerFires` event, and stopping is the `Stop`
  effect. Events are delivered one at a time, so there is no concurrency.
- Autobahn's WebSocket framing, `connectWS` and the handshake. `sendMessage`
  and `sendClose` are logged effects. The library decides which callbacks
  follow a close request, so event sequences are not restricted.
- The close code passed to `onClose` and the `binary` flag passed to
  `onMessage` are not modelled, because the source never reads either. Reasons, including the Twisted failure passed to
  `clientConnectionFailed`, are strings.
- `subprocess.call` and actually playing audio, with the exception handling
  around the call. A protocol run records only that a sound was requested.
  `Sounds.PlaySound` gives the command that would be spawned.
- `platform.system()`. The platform name is a parameter.
- getopt itself, its usage error and exit code 2, `print` of the usage text,
  and `sys.exit`. The loop's input is getopt's output, and a help exit is
  the `helpRequested` result.
- The module-level `muted` flag is set once, before the reactor runs. It is
  a constant of each protocol object and a parameter of the pure functions.
- Printing is the `Say` effect. The reason printed by `terminateAbnormally`
  also travels in the `Stop` verdict.
