/**
  The samtools/bcftools command-line dispatcher (`PysamDispatcher`).

  A dispatcher fronts one subcommand (`dispatch`) of one tool family
  (`collection`).  A call hands the arguments to the native invoker, turns a
  nonzero exit status into a `SamtoolsError`, remembers the stderr of the last
  successful call, and optionally routes stdout through the first parser rule
  whose options all occur among the arguments.

  The state is an immutable record threaded through `Call`; the native invoker
  is replaced by its result, an `Invocation`, given as input; the parsers are
  opaque, so a parsed result records which rule fired and what it received.
 */
module PysamDispatcher {
  import opened TextLines

  datatype Option<T> = None | Some(value: T)

  /** A Python value that is either a `str` or a `list` of `str`. */
  datatype Output = Str(text: string) | List(items: seq<string>)

  /** Python truthiness of an `Output`: non-empty string or non-empty list. */
  predicate Truthy(o: Output)
  {
    match o
    case Str(s) => s != ""
    case List(xs) => xs != []
  }

  /** An `Output` is truthy exactly when iterating it, as `"\n".join` does, yields something. */
  lemma TruthyIffIterationNonEmpty(o: Output)
    ensures Truthy(o) <==> Elements(o) != []
  {
  }

  /** A parser rule: the options that select it, in iteration order; the parser itself is opaque. */
  datatype Rule = Rule(options: seq<string>)

  /** The dispatcher instance: `collection`, `dispatch`, `parsers` and the mutable `stderr` slot. */
  datatype Dispatcher = Dispatcher(
    collection: string,
    dispatch: string,
    parsers: seq<Rule>,
    stderr: Output)

  /** The keyword arguments `__call__` recognises. */
  datatype Options = Options(catchStdout: bool, raw: bool, splitLines: bool)

  /** The keyword defaults: `catch_stdout=True`, `raw` unset, `split_lines=False`. */
  const DefaultOptions := Options(catchStdout := true, raw := false, splitLines := false)

  /** What the native invoker returns: exit status, captured stderr and stdout. */
  datatype Invocation = Invocation(retval: int, stderr: string, stdout: string)

  /**
    The error raised on a nonzero exit status: the collection, the status, and
    the two `"\n".join(...)` texts its message interpolates.
   */
  datatype SamtoolsError = SamtoolsError(collection: string, retval: int, stdoutText: string, stderrText: string)

  /** What a successful call returns: a parser's result or stdout itself. */
  datatype Value = Parsed(rule: nat, input: Output) | Raw(out: Output)

  datatype Outcome = Returned(value: Value) | Raised(error: SamtoolsError)

  /** The dispatcher after the call and what the call returned or raised. */
  datatype Step = Step(state: Dispatcher, outcome: Outcome)

  /** `__init__`: no messages yet, held as an empty list. */
  function Init(collection: string, dispatch: string, parsers: seq<Rule>): (d: Dispatcher)
    ensures d.stderr == List([]) && !Truthy(d.stderr)
    ensures d.collection == collection && d.dispatch == dispatch && d.parsers == parsers
  {
    Dispatcher(collection, dispatch, parsers, List([]))
  }

  /** `get_messages`: the stored stderr slot, read without any side effect. */
  function GetMessages(d: Dispatcher): (m: Output)
    ensures m == d.stderr
  {
    d.stderr
  }

  /** stdout after the optional split: with `split_lines` it is always a list. */
  function SplitStdout(opts: Options, stdout: string): (o: Output)
    ensures o.List? <==> opts.splitLines
    ensures o.Str? ==> o.text == stdout
    ensures o.List? ==> NoTerminators(o.items)
    ensures o.List? ==> JoinTerminated(o.items) == Terminated(stdout)
    ensures Truthy(o) <==> stdout != ""
  {
    if opts.splitLines then List(SplitLines(stdout)) else Str(stdout)
  }

  /** stderr after the optional split: an empty stderr is never split and stays the empty string. */
  function SplitStderr(opts: Options, stderr: string): (o: Output)
    ensures o.List? <==> opts.splitLines && stderr != ""
    ensures o.Str? ==> o.text == stderr
    ensures o.List? ==> NoTerminators(o.items)
    ensures o.List? ==> o.items != [] && JoinTerminated(o.items) == Terminated(stderr)
  {
    if opts.splitLines && stderr != "" then List(SplitLines(stderr)) else Str(stderr)
  }

  /** The elements `"\n".join(o)` iterates: the characters of a string, the items of a list. */
  function Elements(o: Output): seq<string>
  {
    match o
    case Str(s) => Characters(s)
    case List(xs) => xs
  }

  /**
    `"\n".join(o)` as the error message computes it: a list's items with a
    newline between them, or a string's characters with a newline between them.
   */
  function MessageText(o: Output): (t: string)
    ensures !Truthy(o) ==> t == ""
    ensures o.List? && o.items != [] ==> t + "\n" == JoinTerminated(o.items)
    ensures o.Str? && o.text != "" ==>
      && |t| == 2 * |o.text| - 1
      && (forall i :: 0 <= i < |o.text| ==> t[2 * i] == o.text[i])
      && (forall i :: 0 <= i < |o.text| - 1 ==> t[2 * i + 1] == '\n')
  {
    if o.List? && o.items != [] then
      JoinIsJoinTerminatedLessLast(o.items); Join("\n", Elements(o))
    else if o.Str? && o.text != "" then
      JoinCharactersInterleaves(o.text); Join("\n", Elements(o))
    else
      Join("\n", Elements(o))
  }

  /** Every option of the rule occurs verbatim among the arguments. */
  predicate Covers(rule: Rule, args: seq<string>)
  {
    forall o :: o in rule.options ==> o in args
  }

  /** The rule at `i` is the one the scan picks: it is covered and no earlier rule is. */
  ghost predicate IsFirstMatch(rules: seq<Rule>, args: seq<string>, i: nat)
  {
    i < |rules| && Covers(rules[i], args) && forall j :: 0 <= j < i ==> !Covers(rules[j], args)
  }

  /** First-match-wins selection over the rules, in declaration order. */
  function FirstMatch(rules: seq<Rule>, args: seq<string>): (r: Option<nat>)
    ensures r.Some? ==> IsFirstMatch(rules, args, r.value)
    ensures r.None? <==> forall j :: 0 <= j < |rules| ==> !Covers(rules[j], args)
  {
    if rules == [] then None
    else if Covers(rules[0], args) then Some(0)
    else
      match FirstMatch(rules[1..], args)
      case None => None
      case Some(i) =>
        assert forall j :: 1 <= j <= i ==> rules[j] == rules[1..][j - 1];
        Some(i + 1)
  }

  /**
    `__call__`, given what the invoker returned when asked to run
    `d.collection`/`d.dispatch` on `args` with `opts.catchStdout`.
   */
  function Call(d: Dispatcher, args: seq<string>, opts: Options, inv: Invocation): (r: Step)
    ensures r.outcome.Raised? <==> inv.retval != 0
    ensures r.state.collection == d.collection && r.state.dispatch == d.dispatch && r.state.parsers == d.parsers
    ensures inv.retval != 0 ==> r.state == d
    ensures inv.retval == 0 ==> r.state.stderr == SplitStderr(opts, inv.stderr)
    ensures r.outcome.Raised? ==> r.outcome.error.collection == d.collection && r.outcome.error.retval == inv.retval
    ensures r.outcome.Raised? ==>
      && r.outcome.error.stdoutText == MessageText(SplitStdout(opts, inv.stdout))
      && r.outcome.error.stderrText == MessageText(SplitStderr(opts, inv.stderr))
    ensures r.outcome.Returned? && r.outcome.value.Raw? ==> r.outcome.value.out == SplitStdout(opts, inv.stdout)
    ensures r.outcome.Returned? && r.outcome.value.Parsed? ==>
      && r.outcome.value.input == SplitStdout(opts, inv.stdout)
      && IsFirstMatch(d.parsers, args, r.outcome.value.rule)
  {
    var stdout := SplitStdout(opts, inv.stdout);
    var stderr := SplitStderr(opts, inv.stderr);
    if inv.retval != 0 then
      Step(d, Raised(SamtoolsError(d.collection, inv.retval, MessageText(stdout), MessageText(stderr))))
    else
      var d' := d.(stderr := stderr);
      if !opts.raw && Truthy(stdout) && d.parsers != [] then
        match FirstMatch(d.parsers, args)
        case Some(i) => Step(d', Returned(Parsed(i, stdout)))
        case None => Step(d', Returned(Raw(stdout)))
      else
        Step(d', Returned(Raw(stdout)))
  }

  /**
    The parser scan as the source writes it: an outer loop over the rules and
    an inner loop over a rule's options that breaks on the first missing one;
    a rule whose inner loop finishes without breaking is chosen.
   */
  method ScanParsers(rules: seq<Rule>, args: seq<string>) returns (chosen: Option<nat>)
    ensures chosen.Some? <==> exists i :: 0 <= i < |rules| && Covers(rules[i], args)
    ensures chosen.Some? ==> IsFirstMatch(rules, args, chosen.value)
    ensures chosen == FirstMatch(rules, args)
  {
    var i := 0;
    while i < |rules|
      invariant 0 <= i <= |rules|
      invariant forall j :: 0 <= j < i ==> !Covers(rules[j], args)
    {
      var options := rules[i].options;
      var k := 0;
      var broke := false;
      while k < |options| && !broke
        invariant 0 <= k <= |options|
        invariant forall m :: 0 <= m < k ==> options[m] in args
        invariant broke ==> k < |options| && options[k] !in args
        decreases |options| - k, if broke then 0 else 1
      {
        if options[k] !in args {
          broke := true;
        } else {
          k := k + 1;
        }
      }
      if !broke {
        FirstMatchUnique(rules, args, i);
        return Some(i);
      }
      i := i + 1;
    }
    return None;
  }

  /** The scan's answer is determined: any first match is the one `FirstMatch` finds. */
  lemma FirstMatchUnique(rules: seq<Rule>, args: seq<string>, i: nat)
    requires IsFirstMatch(rules, args, i)
    ensures FirstMatch(rules, args) == Some(i)
  {
  }
}
