/**
 * The notification sounds of twinkle-client/client.py: which audio file
 * `playSound` picks for a sound, and which shell command `getPlayCommand`
 * builds for the platform the client runs on. The platform name, which the
 * source reads from `platform.system()`, is a parameter here.
 */
module Sounds {
  import opened Results

  /** The two values of the source's `Sound` enumeration. */
  const SUCCESS: int := 1
  const FAIL: int := 2

  const SUCCESS_FILE := "success.wav"
  const FAIL_FILE := "fail.wav"
  const UNKNOWN_SOUND := "Unknown sound state"
  const UNKNOWN_PLATFORM := "Could not identify platform while trying to play audio"

  /** The pieces of the command around the file path, per platform. */
  const LINUX_PLAYER := "aplay "
  const DARWIN_PLAYER := "afplay "
  const WINDOWS_PLAYER := "powershell -c (New-Object Media.SoundPlayer \""
  const WINDOWS_TRAILER := "\").PlaySync();"

  predicate KnownPlatform(system: string) {
    system == "Linux" || system == "Darwin" || system == "Windows"
  }

  /** What precedes and what follows the path in the command for `system`. */
  function Prefix(system: string): string {
    if system == "Linux" then LINUX_PLAYER
    else if system == "Darwin" then DARWIN_PLAYER
    else WINDOWS_PLAYER
  }

  function Suffix(system: string): string {
    if system == "Windows" then WINDOWS_TRAILER else ""
  }

  /** The audio file `playSound` chooses; any other sound value raises. */
  function AudioFile(sound: int): (r: Result<string>)
    ensures r.Ok? <==> sound == SUCCESS || sound == FAIL
    ensures r.Err? ==> r.message == UNKNOWN_SOUND
    ensures r.Ok? ==> (r.value == SUCCESS_FILE <==> sound == SUCCESS)
    ensures r.Ok? ==> (r.value == FAIL_FILE <==> sound == FAIL)
  {
    if sound == SUCCESS then Ok(SUCCESS_FILE)
    else if sound == FAIL then Ok(FAIL_FILE)
    else Err(UNKNOWN_SOUND)
  }

  /** The shell command that plays `filePath` on `system`; an unknown platform raises. */
  function PlayCommand(system: string, filePath: string): (r: Result<string>)
    ensures r.Ok? <==> KnownPlatform(system)
    ensures r.Err? ==> r.message == UNKNOWN_PLATFORM
    ensures r.Ok? ==> r.value == Prefix(system) + filePath + Suffix(system)
  {
    if system == "Linux" then Ok(LINUX_PLAYER + filePath)
    else if system == "Darwin" then Ok(DARWIN_PLAYER + filePath)
    else if system == "Windows" then Ok(WINDOWS_PLAYER + filePath + WINDOWS_TRAILER)
    else Err(UNKNOWN_PLATFORM)
  }

  /**
   * The file a command of `system` plays: the inverse of `PlayCommand`, used
   * to state that the command built is the one for the chosen file.
   */
  function CommandPath(system: string, command: string): (r: Option<string>)
    ensures r.Some? ==> Prefix(system) + r.value + Suffix(system) == command
  {
    var pre, post := Prefix(system), Suffix(system);
    if KnownPlatform(system) && |pre| + |post| <= |command|
       && command[..|pre|] == pre && command[|command| - |post|..] == post
    then
      SplitInThree(command, |pre|, |command| - |post|);
      Some(command[|pre|..|command| - |post|])
    else None
  }

  lemma SplitInThree(s: string, i: nat, j: nat)
    requires i <= j <= |s|
    ensures s[..i] + s[i..j] + s[j..] == s
  {
  }

  lemma PlayCommandRoundTrip(system: string, filePath: string)
    requires KnownPlatform(system)
    ensures PlayCommand(system, filePath).Ok?
    ensures CommandPath(system, PlayCommand(system, filePath).value) == Some(filePath)
  {
    var pre, post := Prefix(system), Suffix(system);
    var command := pre + filePath + post;
    assert command[..|pre|] == pre;
    assert command[|command| - |post|..] == post;
    assert command[|pre|..|command| - |post|] == filePath;
  }

  /** Different files give different commands on the same platform. */
  lemma PlayCommandInjective(system: string, p1: string, p2: string)
    requires KnownPlatform(system)
    requires PlayCommand(system, p1) == PlayCommand(system, p2)
    ensures p1 == p2
  {
    PlayCommandRoundTrip(system, p1);
    PlayCommandRoundTrip(system, p2);
  }

  /** What the play attempt of `playSound` comes to once the file is chosen. */
  datatype Playback =
    | Spawn(command: string)   // the command handed to `subprocess.call`
    | Swallowed(error: string) // `getPlayCommand` raised; the message is printed and dropped

  /**
   * `playSound`: an unknown sound raises out of it; an unknown platform is
   * caught inside it and only printed.
   */
  function PlaySound(sound: int, system: string): (r: Result<Playback>)
    ensures r.Err? <==> sound != SUCCESS && sound != FAIL
    ensures r.Err? ==> r.message == UNKNOWN_SOUND
    ensures r.Ok? ==> (r.value.Spawn? <==> KnownPlatform(system))
    ensures r.Ok? && r.value.Swallowed? ==> r.value.error == UNKNOWN_PLATFORM
    ensures r.Ok? && r.value.Spawn? ==>
      CommandPath(system, r.value.command) == Some(if sound == SUCCESS then SUCCESS_FILE else FAIL_FILE)
  {
    match AudioFile(sound)
    case Err(e) => Err(e)
    case Ok(audioFile) =>
      match PlayCommand(system, audioFile)
      case Ok(command) =>
        PlayCommandRoundTrip(system, audioFile);
        Ok(Spawn(command))
      case Err(e) => Ok(Swallowed(e))
  }
}
