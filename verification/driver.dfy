/**
 * The decisions `main` and `simulateOnly` take from the parsed `Args`:
 * which update strategy runs, whether the headless benchmark runs and for
 * how long, and which thread count is reported.
 */
module Driver {
  import opened Wrappers
  import opened Numbers
  import opened Arguments
  import opened Parse
  import opened Items

  /** `updateSequential` or `updateParallel`. */
  datatype Strategy = Sequential | Parallel

  /** Only the exact mode string "seq" selects the sequential update; anything else, "omp" included, is parallel. */
  function SelectStrategy(mode: string): (s: Strategy)
    ensures s == Sequential <==> mode == "seq"
  {
    if mode == "seq" then Sequential else Parallel
  }

  /**
   * The test `benchmarkSeconds > 0.0` by which `main` runs the headless
   * benchmark instead of opening a window: a positive finite duration or
   * positive infinity, never zero, a negative duration or NaN.
   */
  predicate RunsBenchmark(a: Args)
    ensures RunsBenchmark(a) <==>
              (a.benchmarkSeconds.Finite? && a.benchmarkSeconds.value > 0.0)
              || a.benchmarkSeconds == Infinity(false)
  {
    IsPositive(a.benchmarkSeconds)
  }

  /**
   * The duration bound of the benchmark loop: the configured seconds when
   * positive, 3 seconds otherwise. The bound is always positive, so the loop,
   * whose elapsed time starts at 0, always runs at least one step.
   */
  function BenchmarkBound(a: Args): (bound: Float64)
    ensures IsPositive(bound)
    ensures RunsBenchmark(a) ==> bound == a.benchmarkSeconds
    ensures !RunsBenchmark(a) ==> bound == Finite(3.0)
  {
    if IsPositive(a.benchmarkSeconds) then a.benchmarkSeconds else Finite(3.0)
  }

  /**
   * The platform's thread facilities: whether the build has OpenMP, and what
   * `omp_get_max_threads()` returns (the fallback stub returns 1).
   */
  datatype Platform = Platform(openMP: bool, maxThreads: int)

  predicate ValidPlatform(p: Platform)
  {
    p.maxThreads >= 1 && (!p.openMP ==> p.maxThreads == 1)
  }

  /** The thread count printed by the benchmark report. */
  function BenchmarkThreads(a: Args, p: Platform): (t: int)
    requires ValidPlatform(p)
    ensures t >= 1
    ensures a.threads > 0 ==> t == a.threads
    ensures a.threads <= 0 ==> t == p.maxThreads
  {
    if a.threads > 0 then a.threads else p.maxThreads
  }

  /** The thread count shown in the window title and the FPS log line (always 1 without OpenMP). */
  function WindowThreads(a: Args, p: Platform): (t: int)
    requires ValidPlatform(p)
    ensures t >= 1
    ensures !p.openMP ==> t == 1
    ensures p.openMP ==> t == BenchmarkThreads(a, p)
  {
    if p.openMP then (if a.threads > 0 then a.threads else p.maxThreads) else 1
  }

  /** The two reports agree exactly when OpenMP is present or at most one thread was asked for. */
  lemma ThreadReportsAgree(a: Args, p: Platform)
    requires ValidPlatform(p)
    ensures BenchmarkThreads(a, p) == WindowThreads(a, p) <==> p.openMP || a.threads <= 1
  {
  }

  /** What the program goes on to do once the arguments are parsed. */
  datatype Plan =
    | ShowUsage
    | Terminated(token: string)
    | CountRejected(n: Int32)
    | Bench(strategy: Strategy, seconds: Float64, threads: int)
    | Interactive(strategy: Strategy, threads: int)

  /**
   * `main` after `parseArgs`: the usage message; termination on a bad
   * number; termination when the particle count is negative, because
   * `initState` sizes its vector with it (the `int` becomes a huge `size_t`
   * and the constructor throws `std::length_error`) before the benchmark
   * test is reached; the benchmark when a positive duration was given; the
   * window otherwise.
   */
  function PlanOf(o: Outcome, p: Platform): (plan: Plan)
    requires ValidPlatform(p)
    ensures plan.ShowUsage? <==> o.Help?
    ensures plan.Terminated? <==> o.Abort?
    ensures plan.Terminated? ==> plan.token == o.token
    ensures plan.CountRejected? <==> o.Config? && o.args.n < 0
    ensures plan.CountRejected? ==> plan.n == o.args.n
    ensures plan.Bench? <==> o.Config? && o.args.n >= 0 && RunsBenchmark(o.args)
    ensures plan.Interactive? <==> o.Config? && o.args.n >= 0 && !RunsBenchmark(o.args)
    ensures plan.Bench? ==> IsPositive(plan.seconds) && plan.seconds == o.args.benchmarkSeconds
    ensures plan.Bench? ==> plan.threads == BenchmarkThreads(o.args, p)
    ensures plan.Interactive? ==> plan.threads == WindowThreads(o.args, p)
    ensures plan.Bench? || plan.Interactive? ==>
              (plan.strategy == Sequential <==> o.args.mode == "seq")
  {
    match o
    case Help => ShowUsage
    case Abort(token) => Terminated(token)
    case Config(a) =>
      if a.n < 0 then
        CountRejected(a.n)
      else if RunsBenchmark(a) then
        Bench(SelectStrategy(a.mode), BenchmarkBound(a), BenchmarkThreads(a, p))
      else
        Interactive(SelectStrategy(a.mode), WindowThreads(a, p))
  }

  /** Without arguments the program opens the window and uses the parallel update. */
  lemma DefaultPlan(argv: seq<string>, conv: Converters, p: Platform)
    requires |argv| <= 1 && ValidPlatform(p)
    ensures PlanOf(ParseArgs(argv, conv), p) == Interactive(Parallel, if p.openMP then p.maxThreads else 1)
  {
    NoArgumentsGivesDefaults(argv, conv);
  }

  /**
   * On a successful parse, the sequential update runs exactly when the last
   * `--mode` on the command line was given "seq".
   */
  lemma StrategyFromCommandLine(argv: seq<string>, conv: Converters)
    requires ParseArgs(argv, conv).Config?
    ensures SelectStrategy(ParseArgs(argv, conv).args.mode) == Sequential
            <==> LastSet(Split(CommandLine(argv)), Mode) == Some("seq")
  {
    ParseArgsExplained(argv, conv);
    var items := Split(CommandLine(argv));
    assert FirstStop(items, conv).None?;
    assert FieldExplained(Defaults, items, conv, ParseArgs(argv, conv).args, Mode);
  }

  /**
   * On a successful parse, the benchmark runs exactly when the last
   * `--benchmark` was given a token that `stod` turns into a positive number.
   */
  lemma BenchmarkFromCommandLine(argv: seq<string>, conv: Converters)
    requires ParseArgs(argv, conv).Config?
    ensures RunsBenchmark(ParseArgs(argv, conv).args)
            <==> (var last := LastSet(Split(CommandLine(argv)), Benchmark);
                  last.Some? && conv.stod(last.value).Some? && IsPositive(conv.stod(last.value).value))
  {
    ParseArgsExplained(argv, conv);
    var items := Split(CommandLine(argv));
    assert FirstStop(items, conv).None?;
    assert FieldExplained(Defaults, items, conv, ParseArgs(argv, conv).args, Benchmark);
  }

  /**
   * `saver -n -1 --benchmark 1` does not reach the benchmark: the negative
   * count ends the program while the particles are being set up.
   */
  lemma NegativeCountRejected(program: string, conv: Converters, p: Platform)
    requires ValidPlatform(p)
    requires conv.stoi("-1") == Some(-1) && conv.stod("1") == Some(Finite(1.0))
    ensures PlanOf(ParseArgs([program, "-n", "-1", "--benchmark", "1"], conv), p) == CountRejected(-1)
  {
    var argv := [program, "-n", "-1", "--benchmark", "1"];
    assert CommandLine(argv) == ["-n", "-1"] + ["--benchmark", "1"];
    FlagConsumesValue(Defaults, "-n", "-1", ["--benchmark", "1"], conv);
    var a := Defaults.(n := -1);
    assert ["--benchmark", "1"] == ["--benchmark", "1"] + [];
    FlagConsumesValue(a, "--benchmark", "1", [], conv);
  }
}
