# Screensaver command-line configuration

This project models the configuration front end of an SDL/OpenMP particle
screensaver (`src/main.cpp`). The front end has two parts:

- `parseArgs`, which turns `argv` into an `Args` record or ends the program
  with the usage message.
- The decisions `main` and `simulateOnly` make from that record:
  - which update strategy runs;
  - whether the headless benchmark runs, and for how long;
  - which thread count is reported.

Modules:

- `Wrappers`: `Option`.
- `Numbers`: the C++ numeric types. `Int32`, `ULong` and `Float64` stand for a
  32-bit `int`, an `unsigned long long` and a `double`; the `double` type
  includes infinities and NaN, and `Less` is the C++ `<` on it. `Converters` is the record of
  `stoi`/`stod`/`stoull`. The caller passes each one in as a partial function,
  and `None` means the library call throws.
- `Arguments`: the `Args` record and its defaults. It also holds the flag table
  (`-n`/`--N`, `--width`, `--height`, `--threads`, `--mode`, `--benchmark`,
  `--seed`) and typed access to one field (`Get`, `With`, `Convert`).
- `Parse`: the parser.
  - `Run` is the loop over the tokens still to be read.
  - `ParseArgs` is the whole parser.
  - `ParseArgsLoop` is the index loop written as in the source and proved equal to `ParseArgs`.
  - Lemmas cover single steps: defaults, a flag taking its value, a trailing
    flag, unknown tokens, help, and the last occurrence winning.
- `Items`: a second, declarative reading of the parser.
  - The tokens are grouped into items: a flag with its value, a flag with no
    value, a help request, or a skipped token.
  - `Split` is the unique well-formed grouping and flattens back to the tokens.
  - The outcome is fixed by the first item that stops the program. If no item
    stops it, each field takes the value of its last assignment.
  - `RunExplained` proves that the loop agrees with this reading for every input.
- `Driver`: the update strategy, the benchmark gate and its bound, and the
  thread counts reported. It also has the `Plan` that `main` follows after
  parsing. The plan covers `main` up to the benchmark test, including the
  termination a negative particle count causes when the particles are
  allocated.

A conversion that throws is not caught in the source, so the program terminates.
The model records this as the outcome `Abort(token)`.

## Model

| member | source | states |
|---|---|---|
| Arguments.FlagField | src/main.cpp:44-50 | each value-taking flag names exactly one field; `-n` and `--N` are synonyms; every other token names none |
| Arguments.IsHelp | src/main.cpp:51 | `-h` and `--help` request the usage message, and neither is a value-taking flag, so the dispatch chain is unambiguous |
| Arguments.With | src/main.cpp:44-50 | assigning a flag's value changes its own field to that value and leaves every other field unchanged |
| Arguments.Convert | src/main.cpp:39-42 | the four `int` fields take `stoi` of the token, the benchmark duration `stod` and the seed `stoull`; the conversion fails exactly when that call fails; the mode is the token itself and never fails |
| Parse.Run | src/main.cpp:37-57 | the loop from a given index: help ends it only at a help token; a failed conversion ends it only at a token consumed as a flag's value; with no flag tokens the record is unchanged (`Items.RunExplained` states the outcome exactly) |
| Parse.ParseArgs | src/main.cpp:35-58 | the parser: defaults when there is nothing after the program name; help only at a help token in `argv[1..]`; termination only at a value token in `argv[2..]` that follows a flag |
| Parse.ParseArgsLoop | src/main.cpp:35-58 | the index loop (including `++i` past a consumed value and the `i+1<argc` guard) computes the same outcome as the functional parser |
| Parse.NoArgumentsGivesDefaults | src/main.cpp:28-37 | with nothing after the program name the record is N=800, width=960, height=600, threads=0, mode "omp", benchmark 0.0, seed 42 |
| Parse.FlagConsumesValue | src/main.cpp:39-50 | a value-taking flag followed by a token sets only its own field from that token, and parsing continues after the token |
| Parse.BadValueAborts | src/main.cpp:39-42 | when the argument of a numeric flag does not convert, the program ends on that argument |
| Parse.ModeValueIsNotHelp | src/main.cpp:41-48 | `--mode -h` sets the mode to "-h"; the consumed token is never treated as a help request |
| Parse.TrailingFlagIgnored | src/main.cpp:39-42 | a value-taking flag that is the final token changes nothing, and parsing ends normally |
| Parse.UnknownTokenSkipped | src/main.cpp:44-56 | a token that is neither a flag nor a help request is skipped without changing anything |
| Parse.HelpShortCircuits | src/main.cpp:51-55 | `-h` or `--help` in flag position ends the program with the usage message, whatever tokens follow |
| Parse.LastOccurrenceWins | src/main.cpp:37-50 | with `-n A --N B` the count is B: the synonyms set the same field and the later occurrence wins |
| Items.Split | src/main.cpp:37-56 | the loop's grouping of the tokens flattens back to exactly those tokens, and every item is classified the way its first token is dispatched |
| Items.SplitUnique | src/main.cpp:37-56 | any well-formed grouping of the tokens is the loop's grouping, so every value-taking flag consumes the next token |
| Items.LastSet | src/main.cpp:37-50 | the value chosen for a field comes from an assignment to it that no later assignment to that field follows; there is none only when the field is never assigned |
| Items.RunExplained | src/main.cpp:37-57 | from any starting record, the first help request or failed conversion ends parsing; otherwise each field holds its last assigned value, or the starting value if never assigned |
| Items.ExplainsUnique | src/main.cpp:37-57 | the grouped items admit exactly one outcome, so `RunExplained` fixes the parser's result completely |
| Items.ParseArgsExplained | src/main.cpp:35-58 | the same characterisation for the whole parser, starting from the defaults |
| Driver.SelectStrategy | src/main.cpp:183-186 | the sequential update runs exactly when the mode is the string "seq"; every other mode, "omp" included, runs the parallel update |
| Driver.StrategyFromCommandLine | src/main.cpp:299-302 | after a successful parse, the mode test selects the sequential update exactly when the last `--mode` on the command line was given "seq" |
| Numbers.IsPositive | src/main.cpp:182 | the C++ `d > 0` on a double holds for positive finite values and positive infinity, and fails for zero, negatives and NaN |
| Driver.BenchmarkBound | src/main.cpp:182 | the benchmark bound is the configured duration when positive and 3 seconds otherwise; it is always positive, so at least one step runs |
| Driver.RunsBenchmark | src/main.cpp:224 | the benchmark test holds exactly for a positive finite duration or positive infinity; zero, negative durations and NaN fail it |
| Driver.BenchmarkFromCommandLine | src/main.cpp:224 | after a successful parse, the benchmark test holds exactly when the last `--benchmark` was given a token that converts to a positive number |
| Driver.BenchmarkThreads | src/main.cpp:192 | the benchmark report shows `threads` when positive, and otherwise the platform's maximum thread count (at least 1) |
| Driver.WindowThreads | src/main.cpp:281-285 | the window title shows the same count as the benchmark report under OpenMP, and always 1 without OpenMP |
| Driver.ThreadReportsAgree | src/main.cpp:281-285 | the two reported thread counts agree exactly when OpenMP is present or at most one thread was requested |
| Driver.PlanOf | src/main.cpp:221-229 | help shows usage; a failed conversion terminates; a negative count terminates in `initState` before the benchmark test; otherwise a positive duration runs the benchmark for that duration and anything else opens the window; the strategy follows the mode, and the thread count is the benchmark report's or the window title's |
| Driver.NegativeCountRejected | src/main.cpp:221 | `-n -1 --benchmark 1` ends the program while setting up particles and never reaches the benchmark |
| Driver.DefaultPlan | src/main.cpp:299-302 | with no arguments the program opens the window and uses the parallel update |

## Left out

- The particle simulation (`updateOne`, `initState`, `hsv_to_rgb`, lines 75-149) is left out, except that a negative count makes `initState` throw. It is single-precision floating-point numerics with `sin`/`cos`/`fmod` and a seeded `mt19937_64`.
- `updateSequential` and `updateParallel` (lines 151-158) appear only as the `Strategy` they select. The OpenMP fan-out and the thread set-up in `main` (lines 208-219) are concurrency inside the OpenMP runtime.
- The SDL window, renderer, event loop, drawing, FPS accounting and window title text (lines 161-174 and 232-318) are I/O. Only the thread count the title shows is modelled.
- The wall-clock benchmark loop and the live-loop time step with its 1/30 s clamp (lines 177-196 and 270-273) are real-time measurement. Only the loop's duration bound is modelled.
- The exact grammar of `std::stoi`, `std::stod` and `std::stoull` is left out. This covers prefix parsing, whitespace, signs, and which inputs throw. The caller supplies these conversions as partial functions.
- Allocation failure is left out. `initState` (line 105) may throw `std::bad_alloc` for a positive count too large for memory, which depends on the machine. Only the negative count, which always throws, is modelled.
- The usage text, the logging (lines 18-26) and the `Args:` log line are output only.
- `Driver.BenchmarkThreads`: `omp_get_max_threads()` is a parameter of the platform. The model does not follow how `omp_set_num_threads` (line 209) changes it, because that only matters when `threads` is not positive, and then it is not called.
