/**
 * The configuration record `Args` filled in by the command-line parser, the
 * flags that name its fields, and typed access to one field at a time.
 */
module Arguments {
  import opened Wrappers
  import opened Numbers

  /** The parsed configuration; field for field the C++ `struct Args`. */
  datatype Args = Args(
    n: Int32,
    width: Int32,
    height: Int32,
    threads: Int32,
    mode: string,
    benchmarkSeconds: Float64,
    seed: ULong)

  /** The member initialisers of `struct Args`. */
  const Defaults: Args :=
    Args(800, 960, 600, 0, "omp", Finite(0.0), 42)

  /** The fields a value-taking flag can set. */
  datatype Field = Count | Width | Height | Threads | Mode | Benchmark | Seed

  /** The value of one field, tagged with the C++ type that holds it. */
  datatype Value =
    | IntValue(i: Int32)
    | TextValue(s: string)
    | DoubleValue(d: Float64)
    | ULongValue(u: ULong)

  /** `v` has the type of field `f`. */
  predicate Fits(f: Field, v: Value)
  {
    match f
    case Count | Width | Height | Threads => v.IntValue?
    case Mode => v.TextValue?
    case Benchmark => v.DoubleValue?
    case Seed => v.ULongValue?
  }

  /** The field that a value-taking flag sets; `None` for every other token. */
  function FlagField(s: string): (r: Option<Field>)
    ensures r == Some(Count) <==> s == "-n" || s == "--N"
    ensures r == Some(Width) <==> s == "--width"
    ensures r == Some(Height) <==> s == "--height"
    ensures r == Some(Threads) <==> s == "--threads"
    ensures r == Some(Mode) <==> s == "--mode"
    ensures r == Some(Benchmark) <==> s == "--benchmark"
    ensures r == Some(Seed) <==> s == "--seed"
  {
    if s == "-n" || s == "--N" then Some(Count)
    else if s == "--width" then Some(Width)
    else if s == "--height" then Some(Height)
    else if s == "--threads" then Some(Threads)
    else if s == "--mode" then Some(Mode)
    else if s == "--benchmark" then Some(Benchmark)
    else if s == "--seed" then Some(Seed)
    else None
  }

  /**
   * The tokens that request the usage message. No such token is also a
   * value-taking flag, so the order of the tests in the dispatch chain does
   * not matter.
   */
  predicate IsHelp(s: string)
    ensures IsHelp(s) ==> FlagField(s) == None
  {
    s == "-h" || s == "--help"
  }

  /** Reads field `f` of `a`. */
  function Get(a: Args, f: Field): (v: Value)
    ensures Fits(f, v)
  {
    match f
    case Count => IntValue(a.n)
    case Width => IntValue(a.width)
    case Height => IntValue(a.height)
    case Threads => IntValue(a.threads)
    case Mode => TextValue(a.mode)
    case Benchmark => DoubleValue(a.benchmarkSeconds)
    case Seed => ULongValue(a.seed)
  }

  /** Overwrites field `f` of `a` with `v`, leaving every other field as it was. */
  function With(a: Args, f: Field, v: Value): (r: Args)
    requires Fits(f, v)
    ensures Get(r, f) == v
    ensures forall g :: g != f ==> Get(r, g) == Get(a, g)
  {
    match f
    case Count => a.(n := v.i)
    case Width => a.(width := v.i)
    case Height => a.(height := v.i)
    case Threads => a.(threads := v.i)
    case Mode => a.(mode := v.s)
    case Benchmark => a.(benchmarkSeconds := v.d)
    case Seed => a.(seed := v.u)
  }

  /** Two records that agree on every field are equal. */
  lemma Extensionality(a: Args, b: Args)
    requires forall g :: Get(a, g) == Get(b, g)
    ensures a == b
  {
    assert Get(a, Count) == Get(b, Count);
    assert Get(a, Width) == Get(b, Width);
    assert Get(a, Height) == Get(b, Height);
    assert Get(a, Threads) == Get(b, Threads);
    assert Get(a, Mode) == Get(b, Mode);
    assert Get(a, Benchmark) == Get(b, Benchmark);
    assert Get(a, Seed) == Get(b, Seed);
  }

  /**
   * The value a flag's argument token gives field `f`: the integer fields go
   * through `stoi`, the benchmark duration through `stod`, the seed through
   * `stoull`, and the mode is the token itself. `None` when the conversion throws.
   */
  function Convert(f: Field, token: string, conv: Converters): (r: Option<Value>)
    ensures r.Some? ==> Fits(f, r.value)
    ensures f == Mode ==> r == Some(TextValue(token))
    ensures f in {Count, Width, Height, Threads} ==>
              (r.Some? <==> conv.stoi(token).Some?) && (r.Some? ==> r.value.i == conv.stoi(token).value)
    ensures f == Benchmark ==>
              (r.Some? <==> conv.stod(token).Some?) && (r.Some? ==> r.value.d == conv.stod(token).value)
    ensures f == Seed ==>
              (r.Some? <==> conv.stoull(token).Some?) && (r.Some? ==> r.value.u == conv.stoull(token).value)
  {
    match f
    case Count | Width | Height | Threads =>
      (match conv.stoi(token)
       case Some(i) => Some(IntValue(i))
       case None => None)
    case Mode => Some(TextValue(token))
    case Benchmark =>
      (match conv.stod(token)
       case Some(d) => Some(DoubleValue(d))
       case None => None)
    case Seed =>
      (match conv.stoull(token)
       case Some(u) => Some(ULongValue(u))
       case None => None)
  }
}
