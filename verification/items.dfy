/**
 * A second, declarative reading of `parseArgs`. The argument tokens are
 * grouped into items (a flag with its value, a flag left without one, a help
 * request, a skipped token); the outcome is then decided by the first item
 * that stops the program and, failing that, field by field by the last
 * assignment to that field.
 */
module Items {
  import opened Wrappers
  import opened Numbers
  import opened Arguments
  import opened Parse

  /** One unit of the command line, as the parser's loop reads it. */
  datatype Item =
    | Assignment(field: Field, flag: string, token: string)
    | Dangling(field: Field, flag: string)
    | HelpRequest(flag: string)
    | Ignored(token: string)

  /** The tokens an item covers. */
  function Tokens(it: Item): seq<string>
  {
    match it
    case Assignment(_, flag, token) => [flag, token]
    case Dangling(_, flag) => [flag]
    case HelpRequest(flag) => [flag]
    case Ignored(token) => [token]
  }

  /** The tokens a sequence of items covers, in order. */
  function Flatten(items: seq<Item>): seq<string>
  {
    if items == [] then [] else Tokens(items[0]) + Flatten(items[1..])
  }

  /** The item is labelled the way its first token is classified. */
  predicate Classified(it: Item)
  {
    match it
    case Assignment(f, flag, _) => FlagField(flag) == Some(f)
    case Dangling(f, flag) => FlagField(flag) == Some(f)
    case HelpRequest(flag) => IsHelp(flag)
    case Ignored(token) => FlagField(token).None? && !IsHelp(token)
  }

  /** Every item is classified and only the last may be a flag left without its value. */
  predicate WellFormed(items: seq<Item>)
  {
    && (forall k :: 0 <= k < |items| ==> Classified(items[k]))
    && (forall k :: 0 <= k < |items| - 1 ==> !items[k].Dangling?)
  }

  /** Groups the tokens, reading left to right with the first token in flag position. */
  function Split(toks: seq<string>): (items: seq<Item>)
    ensures Flatten(items) == toks
    ensures WellFormed(items)
    decreases |toks|
  {
    if toks == [] then []
    else
      match FlagField(toks[0])
      case Some(f) =>
        if |toks| == 1 then [Dangling(f, toks[0])]
        else
          var items := [Assignment(f, toks[0], toks[1])] + Split(toks[2..]);
          assert items[1..] == Split(toks[2..]);
          items
      case None =>
        var head := if IsHelp(toks[0]) then HelpRequest(toks[0]) else Ignored(toks[0]);
        var items := [head] + Split(toks[1..]);
        assert items[1..] == Split(toks[1..]);
        items
  }

  /** Split is the only well-formed grouping of the tokens. */
  lemma {:induction false} SplitUnique(items: seq<Item>, toks: seq<string>)
    requires WellFormed(items)
    requires Flatten(items) == toks
    ensures items == Split(toks)
    decreases |items|
  {
    if items != [] {
      var it := items[0];
      var rest := items[1..];
      assert WellFormed(rest) by {
        forall k | 0 <= k < |rest| ensures Classified(rest[k]) {
          assert rest[k] == items[k + 1];
        }
        forall k | 0 <= k < |rest| - 1 ensures !rest[k].Dangling? {
          assert rest[k] == items[k + 1];
        }
      }
      assert Classified(it);
      assert toks == Tokens(it) + Flatten(rest);
      match it
      case Assignment(f, flag, token) =>
        assert toks[2..] == Flatten(rest);
        SplitUnique(rest, toks[2..]);
      case Dangling(f, flag) =>
        assert items[0].Dangling?;
        assert |items| == 1;
        assert rest == [];
        assert toks == [flag];
      case HelpRequest(flag) =>
        assert toks[1..] == Flatten(rest);
        SplitUnique(rest, toks[1..]);
      case Ignored(token) =>
        assert toks[1..] == Flatten(rest);
        SplitUnique(rest, toks[1..]);
    } else {
      assert toks == [];
    }
  }

  /** The item ends the program: a help request, or an assignment whose value does not convert. */
  predicate Stops(it: Item, conv: Converters)
  {
    it.HelpRequest? || (it.Assignment? && Convert(it.field, it.token, conv).None?)
  }

  /** The position of the first item that stops the program, if any. */
  function FirstStop(items: seq<Item>, conv: Converters): (r: Option<nat>)
    ensures r.Some? ==> r.value < |items| && Stops(items[r.value], conv)
    ensures r.Some? ==> forall k :: 0 <= k < r.value ==> !Stops(items[k], conv)
    ensures r.None? ==> forall k :: 0 <= k < |items| ==> !Stops(items[k], conv)
  {
    if items == [] then None
    else if Stops(items[0], conv) then Some(0)
    else
      match FirstStop(items[1..], conv)
      case Some(k) => Some(k + 1)
      case None => None
  }

  /** The item assigns field `f`. */
  predicate Assigns(it: Item, f: Field)
  {
    it.Assignment? && it.field == f
  }

  /** The value token of the last assignment to field `f`, if there is one. */
  function LastSet(items: seq<Item>, f: Field): (r: Option<string>)
    ensures r.None? <==> forall k :: 0 <= k < |items| ==> !Assigns(items[k], f)
    ensures r.Some? ==> exists k :: 0 <= k < |items| && Assigns(items[k], f) && items[k].token == r.value
                                 && forall j :: k < j < |items| ==> !Assigns(items[j], f)
  {
    if items == [] then None
    else
      match LastSet(items[1..], f)
      case Some(v) =>
        var k :| 0 <= k < |items[1..]| && Assigns(items[1..][k], f) && items[1..][k].token == v
                 && forall j :: k < j < |items[1..]| ==> !Assigns(items[1..][j], f);
        assert Assigns(items[k + 1], f);
        Some(v)
      case None =>
        if Assigns(items[0], f) then Some(items[0].token) else None
  }

  /**
   * Field `f` of `b` is what the items make of it, starting from `a`: the
   * converted value of its last assignment, or `a`'s value when it has none.
   */
  predicate FieldExplained(a: Args, items: seq<Item>, conv: Converters, b: Args, f: Field)
  {
    match LastSet(items, f)
    case None => Get(b, f) == Get(a, f)
    case Some(v) => Convert(f, v, conv) == Some(Get(b, f))
  }

  /** `o` is the outcome the items call for, starting from the record `a`. */
  predicate Explains(a: Args, items: seq<Item>, conv: Converters, o: Outcome)
  {
    match FirstStop(items, conv)
    case Some(k) =>
      if items[k].HelpRequest? then o == Help else o == Abort(items[k].token)
    case None =>
      o.Config? && forall f :: FieldExplained(a, items, conv, o.args, f)
  }

  /** The record after item `it`, when `it` does not stop the program. */
  predicate AppliedBy(a: Args, it: Item, conv: Converters, b: Args)
  {
    match it
    case Assignment(f, _, token) =>
      Convert(f, token, conv).Some? && b == With(a, f, Convert(f, token, conv).value)
    case Ignored(_) => b == a
    case _ => false
  }

  /** An item that does not stop the program hands its record on to the items after it. */
  lemma ExplainsStep(a: Args, it: Item, b: Args, rest: seq<Item>, conv: Converters, o: Outcome)
    requires AppliedBy(a, it, conv, b)
    requires Explains(b, rest, conv, o)
    ensures Explains(a, [it] + rest, conv, o)
  {
    var items := [it] + rest;
    assert items[1..] == rest;
    assert !Stops(it, conv);
    match FirstStop(rest, conv)
    case Some(k) =>
      assert FirstStop(items, conv) == Some(k + 1);
      assert items[k + 1] == rest[k];
    case None =>
      assert FirstStop(items, conv) == None;
      forall g ensures FieldExplained(a, items, conv, o.args, g) {
        assert FieldExplained(b, rest, conv, o.args, g);
        if LastSet(rest, g).None? && !Assigns(it, g) {
          assert Get(b, g) == Get(a, g);
        }
      }
  }

  /** The loop's result is the one the grouped items call for. */
  lemma {:induction false} RunExplained(a: Args, toks: seq<string>, conv: Converters)
    ensures Explains(a, Split(toks), conv, Run(a, toks, conv))
    decreases |toks|
  {
    var items := Split(toks);
    if toks == [] {
    } else {
      match FlagField(toks[0])
      case Some(f) =>
        if |toks| == 1 {
          assert items == [Dangling(f, toks[0])];
          forall g ensures FieldExplained(a, items, conv, a, g) {
            assert !Assigns(items[0], g);
          }
        } else {
          var it := Assignment(f, toks[0], toks[1]);
          assert items == [it] + Split(toks[2..]);
          match Convert(f, toks[1], conv)
          case None =>
            assert FirstStop(items, conv) == Some(0);
          case Some(v) =>
            var b := With(a, f, v);
            RunExplained(b, toks[2..], conv);
            ExplainsStep(a, it, b, Split(toks[2..]), conv, Run(b, toks[2..], conv));
        }
      case None =>
        if IsHelp(toks[0]) {
          assert items == [HelpRequest(toks[0])] + Split(toks[1..]);
          assert FirstStop(items, conv) == Some(0);
        } else {
          var it := Ignored(toks[0]);
          assert items == [it] + Split(toks[1..]);
          RunExplained(a, toks[1..], conv);
          ExplainsStep(a, it, a, Split(toks[1..]), conv, Run(a, toks[1..], conv));
        }
    }
  }

  /** The items determine the outcome: at most one outcome fits them. */
  lemma ExplainsUnique(a: Args, items: seq<Item>, conv: Converters, o1: Outcome, o2: Outcome)
    requires Explains(a, items, conv, o1) && Explains(a, items, conv, o2)
    ensures o1 == o2
  {
    if FirstStop(items, conv).None? {
      forall g ensures Get(o1.args, g) == Get(o2.args, g) {
        assert FieldExplained(a, items, conv, o1.args, g);
        assert FieldExplained(a, items, conv, o2.args, g);
      }
      Extensionality(o1.args, o2.args);
    }
  }

  /**
   * The whole parser: help or a failed conversion, whichever comes first,
   * ends it; otherwise every field holds its last assigned value or its default.
   */
  lemma ParseArgsExplained(argv: seq<string>, conv: Converters)
    ensures Explains(Defaults, Split(CommandLine(argv)), conv, ParseArgs(argv, conv))
  {
    RunExplained(Defaults, CommandLine(argv), conv);
  }
}
