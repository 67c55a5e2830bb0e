/**
  Properties of the dispatcher: what a failing and a succeeding call do to
  the remembered stderr, when the parsers are bypassed, which rule a parsed
  result comes from and what it is given, and what `get_messages` reports
  after a whole sequence of calls.
 */
module DispatcherProperties {
  import opened TextLines
  import opened PysamDispatcher

  /** One `__call__`: its arguments, keyword options, and what the invoker returned. */
  datatype CallInput = CallInput(args: seq<string>, opts: Options, inv: Invocation)

  /** The dispatcher after a sequence of calls, each raising or returning. */
  function Run(d: Dispatcher, calls: seq<CallInput>): (e: Dispatcher)
    ensures e.collection == d.collection && e.dispatch == d.dispatch && e.parsers == d.parsers
    decreases |calls|
  {
    if calls == [] then d
    else
      var c := calls[0];
      Run(Call(d, c.args, c.opts, c.inv).state, calls[1..])
  }

  /** Call `k` is the last one of the sequence that exited with status 0. */
  ghost predicate LastSuccessAt(calls: seq<CallInput>, k: int)
  {
    && 0 <= k < |calls|
    && calls[k].inv.retval == 0
    && forall j :: k < j < |calls| ==> calls[j].inv.retval != 0
  }

  /** Every call of the sequence exited with a nonzero status. */
  ghost predicate AllFailed(calls: seq<CallInput>)
  {
    forall j :: 0 <= j < |calls| ==> calls[j].inv.retval != 0
  }

  /** A failing call raises and leaves the remembered stderr as it was. */
  lemma FailureKeepsMessages(d: Dispatcher, args: seq<string>, opts: Options, inv: Invocation)
    requires inv.retval != 0
    ensures Call(d, args, opts, inv).outcome.Raised?
    ensures GetMessages(Call(d, args, opts, inv).state) == GetMessages(d)
  {
  }

  /**
    A successful call returns, and `get_messages` then reports exactly this
    call's (possibly split) stderr, whatever was remembered before: the slot is
    replaced, not appended to.
   */
  lemma SuccessReplacesMessages(d1: Dispatcher, d2: Dispatcher, args: seq<string>, opts: Options, inv: Invocation)
    requires inv.retval == 0
    requires d1.(stderr := d2.stderr) == d2
    ensures Call(d1, args, opts, inv).outcome.Returned?
    ensures GetMessages(Call(d1, args, opts, inv).state) == SplitStderr(opts, inv.stderr)
    ensures Call(d1, args, opts, inv) == Call(d2, args, opts, inv)
  {
  }

  /**
    After a sequence of calls, `get_messages` reports the stderr of the last
    successful call, or what was there before when every call failed.
   */
  lemma {:induction false} RunMessages(d: Dispatcher, calls: seq<CallInput>)
    ensures AllFailed(calls) ==> GetMessages(Run(d, calls)) == GetMessages(d)
    ensures forall k :: LastSuccessAt(calls, k) ==>
      GetMessages(Run(d, calls)) == SplitStderr(calls[k].opts, calls[k].inv.stderr)
    decreases |calls|
  {
    if calls != [] {
      var c := calls[0];
      var d1 := Call(d, c.args, c.opts, c.inv).state;
      var rest := calls[1..];
      assert Run(d, calls) == Run(d1, rest);
      RunMessages(d1, rest);
      forall k | LastSuccessAt(calls, k)
        ensures GetMessages(Run(d, calls)) == SplitStderr(calls[k].opts, calls[k].inv.stderr)
      {
        if k == 0 {
          AllFailedAfterFirst(calls);
        } else {
          LastSuccessInTail(calls, k);
        }
      }
      if AllFailed(calls) {
        AllFailedAfterFirst(calls);
      }
    }
  }

  /** When no call after the first succeeded, the tail of the sequence all failed. */
  lemma AllFailedAfterFirst(calls: seq<CallInput>)
    requires calls != []
    requires forall j :: 0 < j < |calls| ==> calls[j].inv.retval != 0
    ensures AllFailed(calls[1..])
  {
    var rest := calls[1..];
    forall j | 0 <= j < |rest| ensures rest[j].inv.retval != 0 {
      assert rest[j] == calls[j + 1];
    }
  }

  /** A last success past the first call is the last success of the tail, one index earlier. */
  lemma LastSuccessInTail(calls: seq<CallInput>, k: int)
    requires LastSuccessAt(calls, k) && k > 0
    ensures LastSuccessAt(calls[1..], k - 1) && calls[1..][k - 1] == calls[k]
  {
    var rest := calls[1..];
    forall j | k - 1 < j < |rest| ensures rest[j].inv.retval != 0 {
      assert rest[j] == calls[j + 1];
    }
  }

  /** Before any call has succeeded, `get_messages` reports the empty list set by `__init__`. */
  lemma MessagesBeforeAnySuccess(collection: string, dispatch: string, parsers: seq<Rule>, calls: seq<CallInput>)
    requires AllFailed(calls)
    ensures GetMessages(Run(Init(collection, dispatch, parsers), calls)) == List([])
  {
    RunMessages(Init(collection, dispatch, parsers), calls);
  }

  /** With `split_lines` an empty stderr stays the empty string; a non-empty one becomes its lines. */
  lemma SplitLinesShapes(opts: Options, inv: Invocation)
    requires opts.splitLines
    ensures SplitStdout(opts, inv.stdout) == List(SplitLines(inv.stdout))
    ensures inv.stderr == "" ==> SplitStderr(opts, inv.stderr) == Str("")
    ensures inv.stderr != "" ==> SplitStderr(opts, inv.stderr) == List(SplitLines(inv.stderr))
  {
  }

  /**
    `raw`, an empty stdout (an empty string, or the empty list it splits to)
    or an empty rule table each make a successful call return stdout itself.
   */
  lemma BypassReturnsStdout(d: Dispatcher, args: seq<string>, opts: Options, inv: Invocation)
    requires inv.retval == 0
    requires opts.raw || inv.stdout == "" || d.parsers == []
    ensures Call(d, args, opts, inv).outcome == Returned(Raw(SplitStdout(opts, inv.stdout)))
  {
  }

  /** When no rule's options all occur among the arguments, stdout is returned, split if asked. */
  lemma NoMatchReturnsStdout(d: Dispatcher, args: seq<string>, opts: Options, inv: Invocation)
    requires inv.retval == 0
    requires forall j :: 0 <= j < |d.parsers| ==> !Covers(d.parsers[j], args)
    ensures Call(d, args, opts, inv).outcome == Returned(Raw(SplitStdout(opts, inv.stdout)))
  {
  }

  /**
    A call returns the result of parser `i` on input `x` exactly when it
    succeeded, was not `raw`, had non-empty stdout, rule `i` is the first rule
    whose options all occur among the arguments, and `x` is stdout after the
    optional split.
   */
  lemma ParsedIff(d: Dispatcher, args: seq<string>, opts: Options, inv: Invocation, i: nat, x: Output)
    ensures Call(d, args, opts, inv).outcome == Returned(Parsed(i, x)) <==>
      && inv.retval == 0
      && !opts.raw
      && inv.stdout != ""
      && IsFirstMatch(d.parsers, args, i)
      && x == SplitStdout(opts, inv.stdout)
  {
  }

  /** With `split_lines` the chosen parser is handed the list of lines, never the text. */
  lemma ParserReceivesLines(d: Dispatcher, args: seq<string>, opts: Options, inv: Invocation)
    requires opts.splitLines
    requires Call(d, args, opts, inv).outcome.Returned?
    requires Call(d, args, opts, inv).outcome.value.Parsed?
    ensures Call(d, args, opts, inv).outcome.value.input == List(SplitLines(inv.stdout))
  {
  }

  /** A rule with no options matches any arguments, so no later rule is ever chosen. */
  lemma EmptyRuleMatches(rules: seq<Rule>, args: seq<string>, i: nat)
    requires i < |rules| && rules[i].options == []
    ensures FirstMatch(rules, args).Some? && FirstMatch(rules, args).value <= i
  {
  }

  /** An earlier satisfied rule shadows every later one. */
  lemma EarlierRuleShadows(rules: seq<Rule>, args: seq<string>, i: nat, j: nat)
    requires i < j < |rules|
    requires Covers(rules[i], args)
    ensures FirstMatch(rules, args) != Some(j)
  {
  }

  /** Without `split_lines`, the error text for stdout puts a newline between its characters. */
  lemma ErrorTextInterleavesCharacters(d: Dispatcher, args: seq<string>, opts: Options, inv: Invocation)
    requires inv.retval != 0 && !opts.splitLines && inv.stdout != ""
    ensures var t := Call(d, args, opts, inv).outcome.error.stdoutText;
      && |t| == 2 * |inv.stdout| - 1
      && (forall i :: 0 <= i < |inv.stdout| ==> t[2 * i] == inv.stdout[i])
      && (forall i :: 0 <= i < |inv.stdout| - 1 ==> t[2 * i + 1] == '\n')
  {
  }

  /** With `split_lines`, the error text for stdout is the text again, less one trailing newline. */
  lemma ErrorTextRejoinsLines(d: Dispatcher, args: seq<string>, opts: Options, inv: Invocation)
    requires inv.retval != 0 && opts.splitLines
    ensures var s := inv.stdout;
      Call(d, args, opts, inv).outcome.error.stdoutText == if s != "" && s[|s| - 1] == '\n' then s[..|s| - 1] else s
  {
    JoinSplitLines(inv.stdout);
  }

  /** Without `split_lines`, the error text for stderr puts a newline between its characters. */
  lemma ErrorStderrInterleavesCharacters(d: Dispatcher, args: seq<string>, opts: Options, inv: Invocation)
    requires inv.retval != 0 && !opts.splitLines && inv.stderr != ""
    ensures var t := Call(d, args, opts, inv).outcome.error.stderrText;
      && |t| == 2 * |inv.stderr| - 1
      && (forall i :: 0 <= i < |inv.stderr| ==> t[2 * i] == inv.stderr[i])
      && (forall i :: 0 <= i < |inv.stderr| - 1 ==> t[2 * i + 1] == '\n')
  {
  }

  /**
    With `split_lines`, the error text for stderr is the text again, less one
    trailing newline.
   */
  lemma ErrorStderrRejoinsLines(d: Dispatcher, args: seq<string>, opts: Options, inv: Invocation)
    requires inv.retval != 0 && opts.splitLines
    ensures var s := inv.stderr;
      Call(d, args, opts, inv).outcome.error.stderrText == if s != "" && s[|s| - 1] == '\n' then s[..|s| - 1] else s
  {
    JoinSplitLines(inv.stderr);
  }

  /** An empty stderr gives an empty error text for stderr, with or without `split_lines`. */
  lemma ErrorStderrEmpty(d: Dispatcher, args: seq<string>, opts: Options, inv: Invocation)
    requires inv.retval != 0 && inv.stderr == ""
    ensures Call(d, args, opts, inv).outcome.error.stderrText == ""
  {
  }

  /**
    With rules `[{-c}, {-c, -v}]` and arguments `-c -v`, the first rule fires
    although the second is also satisfied; with `raw` neither does.
   */
  lemma FirstDeclaredRuleWins()
    ensures var d := Init("samtools", "pileup", [Rule(["-c"]), Rule(["-c", "-v"])]);
      var inv := Invocation(0, "", "chr1\t1\n");
      && Call(d, ["-c", "-v"], DefaultOptions, inv).outcome == Returned(Parsed(0, Str("chr1\t1\n")))
      && Call(d, ["-c", "-v"], DefaultOptions.(raw := true), inv).outcome == Returned(Raw(Str("chr1\t1\n")))
  {
  }

  /** `split_lines` on `"a\nb\n"` with no rules returns `["a", "b"]`; an empty stdout returns `[]`. */
  lemma SplitLinesExample()
    ensures var d := Init("samtools", "view", []);
      var opts := DefaultOptions.(splitLines := true);
      && Call(d, [], opts, Invocation(0, "", "a\nb\n")).outcome == Returned(Raw(List(["a", "b"])))
      && Call(d, [], opts, Invocation(0, "", "")).outcome == Returned(Raw(List([])))
  {
    SplitJoinTerminated(["a", "b"]);
    assert JoinTerminated(["a", "b"]) == "a\nb\n";
  }
}
