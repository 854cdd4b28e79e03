/**
 * The option loop of `__main__` in twinkle-client/client.py, over the list of
 * (option, argument) pairs that getopt has already produced.
 */
module Options {

  const DEFAULT_URL := "ws://localhost:9000"

  /** The option names getopt can hand back for `"mh"` and `["url=", "mute-sound", "help"]`. */
  const GETOPT_NAMES: set<string> := {"-m", "-h", "--url", "--mute-sound", "--help"}

  datatype Opt = Opt(name: string, arg: string)

  datatype Settings = Settings(url: string, muted: bool, helpRequested: bool)

  const Defaults := Settings(DEFAULT_URL, false, false)

  /** Python's `needle in hay` on two strings: `needle` occurs somewhere in `hay`. */
  predicate Occurs(needle: string, hay: string)
    decreases |hay|
  {
    needle <= hay || (hay != [] && Occurs(needle, hay[1..]))
  }

  predicate IsHelp(name: string) { name == "-h" || name == "--help" }

  /** The test `opt in ("--url")`, where the parentheses make a string, not a tuple. */
  predicate IsUrl(name: string) { Occurs(name, "--url") }

  predicate IsMute(name: string) { name == "-m" || name == "--mute-sound" }

  /** One pass of the loop body, in the order of its branches. */
  function Step(s: Settings, o: Opt): Settings {
    if IsHelp(o.name) then s.(helpRequested := true)
    else if IsUrl(o.name) then s.(url := o.arg)
    else if IsMute(o.name) then s.(muted := true)
    else s
  }

  /** The settings after the loop has seen `opts`; after help, `sys.exit` ends it. */
  function Fold(opts: seq<Opt>): Settings
    decreases |opts|
  {
    if opts == [] then Defaults
    else
      var before := Fold(opts[..|opts| - 1]);
      if before.helpRequested then before else Step(before, opts[|opts| - 1])
  }

  /** The loop itself: returns what it leaves in `url` and `muted`, and whether it exited for help. */
  method ParseOptions(opts: seq<Opt>) returns (url: string, muted: bool, helpRequested: bool)
    ensures Settings(url, muted, helpRequested) == Fold(opts)
  {
    url, muted, helpRequested := DEFAULT_URL, false, false;
    var i := 0;
    while i < |opts| && !helpRequested
      invariant 0 <= i <= |opts|
      invariant Settings(url, muted, helpRequested) == Fold(opts[..i])
    {
      var opt, arg := opts[i].name, opts[i].arg;
      assert opts[..i + 1][..i] == opts[..i];
      if opt == "-h" || opt == "--help" {
        helpRequested := true;
      } else if Occurs(opt, "--url") {
        url := arg;
      } else if opt == "-m" || opt == "--mute-sound" {
        muted := true;
      }
      i := i + 1;
    }
    if i < |opts| {
      FoldStopsAtHelp(opts[..i], opts[i..]);
      assert opts[..i] + opts[i..] == opts;
    } else {
      assert opts[..i] == opts;
    }
  }

  /** Once help is seen, no later option changes anything. */
  lemma {:induction false} FoldStopsAtHelp(a: seq<Opt>, b: seq<Opt>)
    requires Fold(a).helpRequested
    ensures Fold(a + b) == Fold(a)
    decreases |b|
  {
    if b == [] {
      assert a + b == a;
    } else {
      var ab := a + b;
      assert ab[..|ab| - 1] == a + b[..|b| - 1];
      FoldStopsAtHelp(a, b[..|b| - 1]);
    }
  }

  /** No option among the first `i` asks for help. */
  predicate HelpFree(opts: seq<Opt>, i: nat)
    requires i <= |opts|
  {
    forall k :: 0 <= k < i ==> !IsHelp(opts[k].name)
  }

  /** Help is requested exactly when some option asks for it. */
  lemma {:induction false} FoldHelp(opts: seq<Opt>)
    ensures Fold(opts).helpRequested <==> !HelpFree(opts, |opts|)
    decreases |opts|
  {
    if opts != [] {
      var n := |opts| - 1;
      FoldHelp(opts[..n]);
      assert HelpFree(opts[..n], n) <==> HelpFree(opts, n) by {
        assert forall k :: 0 <= k < n ==> opts[..n][k] == opts[k];
      }
    }
  }

  /** The last `--url` before any help wins. */
  lemma FoldUrlLastWins(a: seq<Opt>, u: string)
    requires !Fold(a).helpRequested
    ensures Fold(a + [Opt("--url", u)]).url == u
  {
    var ab := a + [Opt("--url", u)];
    assert ab[..|ab| - 1] == a;
    assert Occurs("--url", "--url");
  }

  /**
   * The last `--url` before any help wins: what follows it, help options
   * included, sets no other url.
   */
  lemma FoldUrlLastWinsOver(a: seq<Opt>, u: string, b: seq<Opt>)
    requires !Fold(a).helpRequested
    requires forall k :: 0 <= k < |b| ==> !IsUrl(b[k].name)
    ensures Fold(a + [Opt("--url", u)] + b).url == u
  {
    FoldUrlLastWins(a, u);
    FoldUrlUnaffected(a + [Opt("--url", u)], b);
  }

  /** Options that are not url-like leave the url alone. */
  lemma {:induction false} FoldUrlUnaffected(a: seq<Opt>, b: seq<Opt>)
    requires forall k :: 0 <= k < |b| ==> !IsUrl(b[k].name)
    ensures Fold(a + b).url == Fold(a).url
    decreases |b|
  {
    if b == [] {
      assert a + b == a;
    } else {
      var ab := a + b;
      assert ab[..|ab| - 1] == a + b[..|b| - 1];
      assert ab[|ab| - 1] == b[|b| - 1];
      FoldUrlUnaffected(a, b[..|b| - 1]);
    }
  }

  /** Without any url-like option the url stays the default. */
  lemma FoldUrlDefault(opts: seq<Opt>)
    requires forall k :: 0 <= k < |opts| ==> !IsUrl(opts[k].name)
    ensures Fold(opts).url == DEFAULT_URL
  {
    FoldUrlUnaffected([], opts);
    assert [] + opts == opts;
  }

  /** Muting is never undone. */
  lemma {:induction false} FoldMuteSticky(a: seq<Opt>, b: seq<Opt>)
    requires Fold(a).muted
    ensures Fold(a + b).muted
    decreases |b|
  {
    if b == [] {
      assert a + b == a;
    } else {
      var ab := a + b;
      assert ab[..|ab| - 1] == a + b[..|b| - 1];
      FoldMuteSticky(a, b[..|b| - 1]);
    }
  }

  /** The `i`-th option mutes and no option before it asks for help. */
  predicate MutedAt(opts: seq<Opt>, i: int) {
    0 <= i < |opts| && IsMute(opts[i].name) && HelpFree(opts, i)
  }

  /** A mute option is never taken for the url option. */
  lemma MuteIsNotUrl(name: string)
    requires IsMute(name)
    ensures !IsUrl(name)
  {
    if name == "-m" {
      CharOutside(name, "--url", 1);
    } else {
      TooLongToOccur(name, "--url");
    }
  }

  /** Muted exactly when a mute option comes before every help option. */
  lemma {:induction false} FoldMuted(opts: seq<Opt>)
    ensures Fold(opts).muted <==> exists i :: MutedAt(opts, i)
    decreases |opts|
  {
    if opts != [] {
      var n := |opts| - 1;
      var init, last := opts[..n], opts[n];
      FoldMuted(init);
      FoldHelp(init);
      assert HelpFree(init, n) <==> HelpFree(opts, n) by {
        assert forall k :: 0 <= k < n ==> init[k] == opts[k];
      }
      forall i | 0 <= i < n
        ensures MutedAt(opts, i) <==> MutedAt(init, i)
      {
        assert forall k :: 0 <= k <= i ==> init[k] == opts[k];
      }
      if IsMute(last.name) {
        MuteIsNotUrl(last.name);
        if !Fold(init).helpRequested { assert MutedAt(opts, n); }
      }
      if exists i :: MutedAt(opts, i) {
        var i :| MutedAt(opts, i);
        if i < n { assert MutedAt(init, i); }
      }
      if exists i :: MutedAt(init, i) {
        var i :| MutedAt(init, i);
        assert MutedAt(opts, i);
      }
    }
  }

  /** A string holding a character that `hay` lacks does not occur in `hay`. */
  lemma {:induction false} CharOutside(needle: string, hay: string, i: nat)
    requires i < |needle| && needle[i] !in hay
    ensures !Occurs(needle, hay)
    decreases |hay|
  {
    if i < |hay| {
      assert hay[i] in hay;
    }
    if hay != [] {
      assert needle[i] !in hay[1..] by {
        assert forall j :: 0 <= j < |hay[1..]| ==> hay[1..][j] == hay[j + 1];
      }
      CharOutside(needle, hay[1..], i);
    }
  }

  /** A string longer than `hay` does not occur in it. */
  lemma {:induction false} TooLongToOccur(needle: string, hay: string)
    requires |needle| > |hay|
    ensures !Occurs(needle, hay)
    decreases |hay|
  {
    if hay != [] {
      TooLongToOccur(needle, hay[1..]);
    }
  }

  /**
   * On the names getopt can produce, the string test `opt in ("--url")`
   * agrees with `opt == "--url"`.
   */
  lemma UrlTestIsEqualityOnGetoptNames(name: string)
    requires name in GETOPT_NAMES
    ensures IsUrl(name) <==> name == "--url"
  {
    if name == "--url" {
      assert "--url" <= "--url";
    } else if name == "-m" || name == "-h" {
      CharOutside(name, "--url", 1);
    } else {
      TooLongToOccur(name, "--url");
    }
  }

  /** The string test also accepts fragments of "--url", which getopt never returns. */
  lemma UrlTestAcceptsFragments()
    ensures IsUrl("") && IsUrl("url") && !("url" in GETOPT_NAMES)
  {
    assert "--url"[1..][1..] == "url";
  }
}
