/**
 What handle_args (prometheus2csv.py, lines 28-73) does to the module-level
 settings, as functions of the settings before the call and of what
 getopt returned. The class Prometheus2Csv.Script runs the same steps on
 its fields and is proved to end where these functions say.
 */
module Arguments {
  import opened Wrappers
  import opened Text

  /**
   The module-level settings PROMETHEUS_URL, RESOLUTION, START, END, PERIOD
   and SELECTOR. PERIOD holds '' or an int in the source: None stands for ''.
   */
  datatype Settings = Settings(
    host: string,
    resolution: string,
    start: string,
    end: string,
    period: Option<int>,
    selector: string)

  const DefaultSelector: string := "__name__=~\".+\""
  const DefaultStep: string := "10s"
  const DefaultPeriod: int := 10

  /** The settings as the module defines them before handle_args runs. */
  const Initial: Settings := Settings("", "", "", "", None, DefaultSelector)

  /**
   How handle_args ends: it returns, it calls sys.exit with a code (a bare
   sys.exit() is code 0), or int() raises a ValueError that nothing catches.
   */
  datatype Status = Continue | Exit(code: int) | ValueError(literal: string)

  datatype Outcome = Outcome(settings: Settings, status: Status)

  /** What getopt.getopt returns, or the GetoptError it raises. */
  datatype Getopt = Parsed(opts: seq<(string, string)>, args: seq<string>) | GetoptError

  const HostOptions: set<string> := {"-h", "--host"}
  const StepOptions: set<string> := {"-s", "--step"}
  const StartOptions: set<string> := {"--start"}
  const EndOptions: set<string> := {"--end"}
  const PeriodOptions: set<string> := {"--period"}

  /** The option names the loop of handle_args reacts to. */
  const HandledOptions: set<string> :=
    {"--help"} + HostOptions + StepOptions + StartOptions + EndOptions + PeriodOptions

  /** Options getopt accepts that the loop never mentions. */
  const IgnoredOptions: set<string> := {"-c", "--container", "-p"}

  /** An option that ends the loop: --help, or a --period whose argument int() rejects. */
  predicate Stops(opt: string, arg: string) {
    opt == "--help" || (opt == "--period" && ParseInt(arg).None?)
  }

  /** One turn of the option loop. */
  function Apply(s: Settings, opt: string, arg: string): (o: Outcome)
    ensures o.status == Continue <==> !Stops(opt, arg)
    ensures o.status == Exit(0) <==> opt == "--help"
    ensures o.settings.selector == s.selector
  {
    if opt == "--help" then Outcome(s, Exit(0))
    else if opt in HostOptions then Outcome(s.(host := arg), Continue)
    else if opt in StepOptions then Outcome(s.(resolution := arg), Continue)
    else if opt == "--start" then Outcome(s.(start := arg), Continue)
    else if opt == "--end" then Outcome(s.(end := arg), Continue)
    else if opt == "--period" then
      match ParseInt(arg)
      case None => Outcome(s, ValueError(arg))
      case Some(n) => Outcome(s.(period := Some(n)), Continue)
    else Outcome(s, Continue)
  }

  /** The option loop: options in list order, stopping at the first that ends the run. */
  function Fold(s: Settings, opts: seq<(string, string)>): (o: Outcome)
    ensures o.settings.selector == s.selector
    decreases |opts|
  {
    if opts == [] then Outcome(s, Continue)
    else
      var first := Apply(s, opts[0].0, opts[0].1);
      if first.status == Continue then Fold(first.settings, opts[1..]) else first
  }

  /** The host check and the defaults that follow the option loop. */
  function Complete(s: Settings, args: seq<string>): (o: Outcome)
    ensures o.status == Continue || o.status == Exit(2)
    ensures o.status == Exit(2) <==> s.host == ""
  {
    if s.host == "" then Outcome(s, Exit(2))
    else
      var step := if s.resolution == "" then DefaultStep else s.resolution;
      var period := if s.period == None && s.start == "" && s.end == "" then Some(DefaultPeriod) else s.period;
      var selector := if |args| > 0 then Join(args, ',') else s.selector;
      Outcome(Settings(s.host, step, s.start, s.end, period, selector), Continue)
  }

  /** handle_args: the settings it leaves and how it ends. */
  function Handle(s: Settings, g: Getopt): (o: Outcome)
    ensures g.GetoptError? ==> o == Outcome(s, Exit(2))
    ensures o.status == Continue ==>
      o.settings.host != "" && o.settings.resolution != "" &&
      (o.settings.period.Some? || o.settings.start != "" || o.settings.end != "")
  {
    match g
    case GetoptError => Outcome(s, Exit(2))
    case Parsed(opts, args) =>
      var looped := Fold(s, opts);
      if looped.status == Continue then Complete(looped.settings, args) else looped
  }

  /** The argument of the last option in `opts` whose name is in `names`. */
  function Last(opts: seq<(string, string)>, names: set<string>): Option<string>
    decreases |opts|
  {
    if opts == [] then None
    else if opts[|opts| - 1].0 in names then Some(opts[|opts| - 1].1)
    else Last(opts[..|opts| - 1], names)
  }

  lemma {:induction false} LastIsLastOccurrence(opts: seq<(string, string)>, names: set<string>, i: int)
    requires 0 <= i < |opts| && opts[i].0 in names
    requires forall j :: i < j < |opts| ==> opts[j].0 !in names
    ensures Last(opts, names) == Some(opts[i].1)
    decreases |opts|
  {
    if i < |opts| - 1 {
      LastIsLastOccurrence(opts[..|opts| - 1], names, i);
    }
  }

  lemma {:induction false} LastOfAbsent(opts: seq<(string, string)>, names: set<string>)
    requires forall j :: 0 <= j < |opts| ==> opts[j].0 !in names
    ensures Last(opts, names) == None
    decreases |opts|
  {
    if opts != [] {
      LastOfAbsent(opts[..|opts| - 1], names);
    }
  }

  /** Running the loop over `a + b` is running it over `a`, then, unless that ended the run, over `b`. */
  lemma {:induction false} FoldAppend(s: Settings, a: seq<(string, string)>, b: seq<(string, string)>)
    ensures Fold(s, a + b) ==
      (var o := Fold(s, a); if o.status == Continue then Fold(o.settings, b) else o)
    decreases |a|
  {
    if a == [] {
      assert a + b == b;
    } else {
      assert (a + b)[0] == a[0];
      assert (a + b)[1..] == a[1..] + b;
      var first := Apply(s, a[0].0, a[0].1);
      if first.status == Continue {
        FoldAppend(first.settings, a[1..], b);
      }
    }
  }

  /** The loop runs to the end exactly when no option in the list stops it. */
  lemma {:induction false} FoldContinues(s: Settings, opts: seq<(string, string)>)
    ensures Fold(s, opts).status == Continue <==>
            forall j :: 0 <= j < |opts| ==> !Stops(opts[j].0, opts[j].1)
    decreases |opts|
  {
    if opts != [] {
      var first := Apply(s, opts[0].0, opts[0].1);
      assert first.status == Continue <==> !Stops(opts[0].0, opts[0].1);
      if first.status == Continue {
        FoldContinues(first.settings, opts[1..]);
        assert forall j :: 1 <= j < |opts| ==> opts[j] == opts[1..][j - 1];
      }
    }
  }

  /**
   The first option that stops the loop decides how handle_args ends: exit 0
   for --help, a ValueError carrying the argument for an unparsable --period,
   with the settings as the options before it left them.
   */
  lemma FirstStopDecides(s: Settings, opts: seq<(string, string)>, i: int)
    requires 0 <= i < |opts| && Stops(opts[i].0, opts[i].1)
    requires forall j :: 0 <= j < i ==> !Stops(opts[j].0, opts[j].1)
    ensures Fold(s, opts) == Outcome(Fold(s, opts[..i]).settings,
      if opts[i].0 == "--help" then Exit(0) else ValueError(opts[i].1))
  {
    FoldContinues(s, opts[..i]);
    assert opts == opts[..i] + opts[i..];
    FoldAppend(s, opts[..i], opts[i..]);
  }

  /** An unparsable --period before --help wins: `--period=x --help` raises ValueError("x"). */
  lemma PeriodErrorBeforeHelp(s: Settings)
    ensures Fold(s, [("--period", "x"), ("--help", "")]).status == ValueError("x")
  {
  }

  /** The string-valued settings the loop assigns, and the options that assign them. */
  datatype Field = Host | Step | Start | End

  function Get(s: Settings, f: Field): string {
    match f
    case Host => s.host
    case Step => s.resolution
    case Start => s.start
    case End => s.end
  }

  function OptionsFor(f: Field): set<string> {
    match f
    case Host => HostOptions
    case Step => StepOptions
    case Start => StartOptions
    case End => EndOptions
  }

  /** The period the loop leaves: the last --period's value, or the one it started with. */
  function LastPeriod(opts: seq<(string, string)>, before: Option<int>): Option<int> {
    match Last(opts, PeriodOptions)
    case None => before
    case Some(a) => ParseInt(a)
  }

  /**
   When the loop runs to the end, every setting is the argument of the last
   option that names it, and is left as it was when no option names it.
   */
  lemma {:induction false} FoldLastWins(s: Settings, opts: seq<(string, string)>)
    requires Fold(s, opts).status == Continue
    ensures forall f :: Get(Fold(s, opts).settings, f) == Last(opts, OptionsFor(f)).GetOr(Get(s, f))
    ensures Fold(s, opts).settings.period == LastPeriod(opts, s.period)
    ensures Last(opts, PeriodOptions).Some? ==> Fold(s, opts).settings.period.Some?
    decreases |opts|
  {
    if opts != [] {
      var init := opts[..|opts| - 1];
      var x := opts[|opts| - 1];
      assert opts == init + [x];
      FoldAppend(s, init, [x]);
      var mid := Fold(s, init);
      assert mid.status == Continue;
      FoldLastWins(s, init);
      assert Fold(s, opts) == Apply(mid.settings, x.0, x.1);
    }
  }

  /** Of two options that set the same field, the later one decides it. */
  lemma LaterOptionWins(s: Settings, opts: seq<(string, string)>, f: Field, i: int)
    requires Fold(s, opts).status == Continue
    requires 0 <= i < |opts| && opts[i].0 in OptionsFor(f)
    requires forall j :: i < j < |opts| ==> opts[j].0 !in OptionsFor(f)
    ensures Get(Fold(s, opts).settings, f) == opts[i].1
  {
    FoldLastWins(s, opts);
    LastIsLastOccurrence(opts, OptionsFor(f), i);
  }

  /** `opts` without the options whose names are in `names`. */
  function Without(opts: seq<(string, string)>, names: set<string>): (r: seq<(string, string)>)
    ensures forall j :: 0 <= j < |r| ==> r[j].0 !in names
    decreases |opts|
  {
    if opts == [] then []
    else if opts[0].0 in names then Without(opts[1..], names)
    else [opts[0]] + Without(opts[1..], names)
  }

  /** -c, --container and -p can be struck from the option list without changing anything. */
  lemma {:induction false} IgnoredOptionsChangeNothing(s: Settings, opts: seq<(string, string)>)
    ensures Fold(s, opts) == Fold(s, Without(opts, IgnoredOptions))
    decreases |opts|
  {
    if opts != [] {
      var first := Apply(s, opts[0].0, opts[0].1);
      if opts[0].0 in IgnoredOptions {
        assert first == Outcome(s, Continue);
        IgnoredOptionsChangeNothing(s, opts[1..]);
      } else {
        var rest := Without(opts[1..], IgnoredOptions);
        assert ([opts[0]] + rest)[1..] == rest;
        if first.status == Continue {
          IgnoredOptionsChangeNothing(first.settings, opts[1..]);
        }
      }
    }
  }

  /** --help ends the run with code 0 as soon as the loop reaches it; nothing after it is read. */
  lemma HelpStopsProcessing(s: Settings, opts: seq<(string, string)>, args: seq<string>, i: int)
    requires 0 <= i < |opts| && opts[i].0 == "--help"
    requires Fold(s, opts[..i]).status == Continue
    ensures Handle(s, Parsed(opts, args)) == Outcome(Fold(s, opts[..i]).settings, Exit(0))
  {
    assert opts == opts[..i] + opts[i..];
    FoldAppend(s, opts[..i], opts[i..]);
  }

  /**
   handle_args when the loop runs to the end: which options decide each
   setting, and which defaults fill the rest. `s` is what the settings held
   before the call.
   */
  lemma {:induction false} HandleDecides(s: Settings, opts: seq<(string, string)>, args: seq<string>)
    requires Fold(s, opts).status == Continue
    ensures
      var o := Handle(s, Parsed(opts, args));
      var host := Last(opts, HostOptions).GetOr(s.host);
      var step := Last(opts, StepOptions).GetOr(s.resolution);
      var start := Last(opts, StartOptions).GetOr(s.start);
      var end := Last(opts, EndOptions).GetOr(s.end);
      var period := LastPeriod(opts, s.period);
      && (host == "" ==> o == Outcome(Fold(s, opts).settings, Exit(2)))
      && (host != "" ==> o == Outcome(Settings(
            host,
            if step == "" then DefaultStep else step,
            start,
            end,
            if period.None? && start == "" && end == "" then Some(DefaultPeriod) else period,
            if |args| > 0 then Join(args, ',') else s.selector), Continue))
  {
    var looped := Fold(s, opts);
    FoldLastWins(s, opts);
    assert looped.settings.host == Get(looped.settings, Host);
    assert looped.settings.resolution == Get(looped.settings, Step);
    assert looped.settings.start == Get(looped.settings, Start);
    assert looped.settings.end == Get(looped.settings, End);
    assert Handle(s, Parsed(opts, args)) == Complete(looped.settings, args);
  }

  /**
   handle_args on the module's initial settings, after a loop that ran to the
   end. The run continues exactly when the last host option has a non-empty
   argument. The step is the last step option's argument, or "10s" when that
   is empty or absent. Without --period, the period is 10 when the last
   --start and --end arguments are both empty or absent, and stays unset when
   either is non-empty. With --period, it is the last one's value.
   */
  lemma HandleFromInitial(opts: seq<(string, string)>, args: seq<string>)
    requires Fold(Initial, opts).status == Continue
    ensures
      var o := Handle(Initial, Parsed(opts, args));
      var step := Last(opts, StepOptions).GetOr("");
      var start := Last(opts, StartOptions).GetOr("");
      var end := Last(opts, EndOptions).GetOr("");
      && (o.status == Continue <==> Last(opts, HostOptions).GetOr("") != "")
      && (o.status == Continue ==>
            && o.settings.resolution == (if step == "" then DefaultStep else step)
            && (Last(opts, PeriodOptions).None? && start == "" && end == "" ==>
                  o.settings.period == Some(DefaultPeriod))
            && (Last(opts, PeriodOptions).None? && (start != "" || end != "") ==>
                  o.settings.period == None)
            && (Last(opts, PeriodOptions).Some? ==> o.settings.period == LastPeriod(opts, None))
            && o.settings.selector == (if |args| > 0 then Join(args, ',') else DefaultSelector))
  {
    FoldLastWins(Initial, opts);
    HandleDecides(Initial, opts, args);
  }

  /** The selector of comma-free positional arguments gives them back when split at the commas. */
  lemma SelectorKeepsArguments(s: Settings, args: seq<string>)
    requires s.host != "" && |args| >= 1
    requires forall i :: 0 <= i < |args| ==> ',' !in args[i]
    ensures Split(Complete(s, args).settings.selector, ',') == args
  {
    SplitJoin(args, ',');
  }
}
