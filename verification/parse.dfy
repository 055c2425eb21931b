/**
 * `parseArgs`: walks `argv` from index 1, matching each token against the
 * fixed set of flags. A value-taking flag consumes the token after it (and
 * does nothing when it is the last token); `-h`/`--help` ends the program
 * with the usage message; every other token is skipped.
 */
module Parse {
  import opened Wrappers
  import opened Numbers
  import opened Arguments

  /**
   * How parsing ends: with a configuration, with the usage message and exit
   * status 0, or with a conversion throwing on `token` (the exception is not
   * caught, so the program terminates).
   */
  datatype Outcome = Config(args: Args) | Help | Abort(token: string)

  /**
   * The loop from some index on: `a` is the record built so far and `rest`
   * the tokens `argv[i..]` still to be read, `rest[0]` in flag position.
   */
  function Run(a: Args, rest: seq<string>, conv: Converters): (o: Outcome)
    ensures o.Help? ==> exists k :: 0 <= k < |rest| && IsHelp(rest[k])
    ensures o.Abort? ==>
              exists k :: 1 <= k < |rest| && rest[k] == o.token && FlagField(rest[k - 1]).Some?
    ensures (forall k :: 0 <= k < |rest| ==> FlagField(rest[k]).None?) ==> o.Help? || o == Config(a)
    decreases |rest|
  {
    if rest == [] then Config(a)
    else
      match FlagField(rest[0])
      case Some(f) =>
        if |rest| == 1 then Config(a)
        else
          (match Convert(f, rest[1], conv)
           case Some(v) => Run(With(a, f, v), rest[2..], conv)
           case None => Abort(rest[1]))
      case None =>
        if IsHelp(rest[0]) then Help else Run(a, rest[1..], conv)
  }

  /** The tokens after the program name. */
  function CommandLine(argv: seq<string>): (r: seq<string>)
    ensures |argv| > 0 ==> r == argv[1..]
    ensures |argv| == 0 ==> r == []
  {
    if |argv| == 0 then [] else argv[1..]
  }

  /** `parseArgs(argc, argv)` with `argc == |argv|`. */
  function ParseArgs(argv: seq<string>, conv: Converters): (o: Outcome)
    ensures |argv| <= 1 ==> o == Config(Defaults)
    ensures o.Help? ==> exists k :: 1 <= k < |argv| && IsHelp(argv[k])
    ensures o.Abort? ==>
              exists k :: 2 <= k < |argv| && argv[k] == o.token && FlagField(argv[k - 1]).Some?
  {
    Run(Defaults, CommandLine(argv), conv)
  }

  /** The index loop of `parseArgs`, step for step. */
  method ParseArgsLoop(argv: seq<string>, conv: Converters) returns (o: Outcome)
    ensures o == ParseArgs(argv, conv)
  {
    var a := Defaults;
    if |argv| == 0 {
      return Config(a);
    }
    var i := 1;
    while i < |argv|
      invariant 1 <= i <= |argv|
      invariant Run(a, argv[i..], conv) == ParseArgs(argv, conv)
    {
      var s := argv[i];
      var flag := FlagField(s);
      if flag.Some? {
        if i + 1 < |argv| {
          assert argv[i..][2..] == argv[i + 2..];
          i := i + 1;
          var v := Convert(flag.value, argv[i], conv);
          if v.None? {
            return Abort(argv[i]);
          }
          a := With(a, flag.value, v.value);
        }
      } else if IsHelp(s) {
        return Help;
      } else {
        assert argv[i..][1..] == argv[i + 1..];
      }
      i := i + 1;
    }
    o := Config(a);
  }

  /** With nothing after the program name (or no `argv` at all) the result is the defaults. */
  lemma NoArgumentsGivesDefaults(argv: seq<string>, conv: Converters)
    requires |argv| <= 1
    ensures ParseArgs(argv, conv) == Config(Args(800, 960, 600, 0, "omp", Finite(0.0), 42))
  {
  }

  /**
   * A value-taking flag followed by a token sets its own field from that
   * token, skips past it, and leaves every other field alone; the token is
   * never read as a flag, even when it is `-h`.
   */
  lemma FlagConsumesValue(a: Args, flag: string, token: string, rest: seq<string>, conv: Converters)
    requires FlagField(flag).Some?
    requires Convert(FlagField(flag).value, token, conv).Some?
    ensures var f := FlagField(flag).value;
            var b := With(a, f, Convert(f, token, conv).value);
            && Run(a, [flag, token] + rest, conv) == Run(b, rest, conv)
            && (forall g :: g != f ==> Get(b, g) == Get(a, g))
  {
  }

  /** A value-taking flag whose argument does not convert ends the program on that argument. */
  lemma BadValueAborts(a: Args, flag: string, token: string, rest: seq<string>, conv: Converters)
    requires FlagField(flag).Some?
    requires Convert(FlagField(flag).value, token, conv).None?
    ensures Run(a, [flag, token] + rest, conv) == Abort(token)
  {
  }

  /** `--mode -h` sets the mode to "-h" and does not show the usage message. */
  lemma ModeValueIsNotHelp(program: string, conv: Converters)
    ensures ParseArgs([program, "--mode", "-h"], conv) == Config(Defaults.(mode := "-h"))
  {
  }

  /** A value-taking flag as the final token changes nothing and parsing ends normally. */
  lemma TrailingFlagIgnored(a: Args, flag: string, conv: Converters)
    requires FlagField(flag).Some?
    ensures Run(a, [flag], conv) == Config(a)
  {
  }

  /** A token that is neither a flag nor a help request is skipped. */
  lemma UnknownTokenSkipped(a: Args, token: string, rest: seq<string>, conv: Converters)
    requires FlagField(token).None? && !IsHelp(token)
    ensures Run(a, [token] + rest, conv) == Run(a, rest, conv)
  {
  }

  /** `-h` or `--help` in flag position ends parsing with the usage message, whatever follows. */
  lemma HelpShortCircuits(a: Args, token: string, rest: seq<string>, conv: Converters)
    requires IsHelp(token)
    ensures Run(a, [token] + rest, conv) == Help
  {
  }

  /** `-n` and `--N` set the same field, and of two occurrences the later one wins. */
  lemma LastOccurrenceWins(program: string, first: string, second: string, conv: Converters)
    requires conv.stoi(first).Some? && conv.stoi(second).Some?
    ensures ParseArgs([program, "-n", first, "--N", second], conv)
            == Config(Defaults.(n := conv.stoi(second).value))
  {
    var argv := [program, "-n", first, "--N", second];
    assert CommandLine(argv) == ["-n", first] + ["--N", second];
    FlagConsumesValue(Defaults, "-n", first, ["--N", second], conv);
    var a := Defaults.(n := conv.stoi(first).value);
    assert ["--N", second] == ["--N", second] + [];
    FlagConsumesValue(a, "--N", second, [], conv);
    assert a.(n := conv.stoi(second).value) == Defaults.(n := conv.stoi(second).value);
  }
}
