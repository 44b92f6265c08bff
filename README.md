# prometheus2csv, modelled in Dafny

prometheus2csv.py is a one-shot script. It reads command-line options into
module-level settings: the Prometheus server URL, the query step, a start/end
pair or a trailing period, and a label selector. It then asks the server's
instant-query endpoint for the names of all metrics that match the selector,
with the aggregation query `sum by(__name__)({<selector>})`. Finally it
issues one ranged query per name over a common window.

This project models those three steps around the network calls:

- `Arguments` is the option fold that `handle_args` performs, as functions
  of the settings before the call and of what getopt returned. It is followed
  by the required-host check, the defaults (step `10s`, period 10 seconds) and
  the selector built from the positional arguments.
- `MetricNames` is the name query string and the decoded response of the
  instant query (a status and a list of label maps). It also defines the name
  each result carries.
- `RangeQueries` is the query window (period-relative or literal) and the
  parameters of one ranged request.
- `Ordering` is Python's ordering of strings and the sort `list.sort()`
  performs on the names.
- `Text` covers the built-ins the option handling uses: `",".join`, with
  `split`, which undoes it for comma-free parts, and `int()`, with `str()`
  as a right inverse: int(str(n)) == n.
- `Prometheus2Csv.Script` is the script itself. Its fields are the six
  module-level variables. `HandleArgs` updates them in place with the same
  loop as the source. `QueryMetricNames` builds the name list with an append
  loop and then sorts it. `ForwardMetricValues` computes the window and loops
  over the names, building the request list. `Run` strings the three together
  as `main` does.

The decoded JSON of the instant query, the clock reading `int(time.time())` and
getopt's result are parameters. Each `sys.exit` becomes a result variant.

`query_metric_names` does not deduplicate. A name reported by several
results appears that many times, and the list has one entry per result.

## Model

| member | source | states |
|---|---|---|
| `Prometheus2Csv.Script.constructor` | prometheus2csv.py:11-18 | the settings start empty, with no period and the match-all selector `__name__=~".+"` |
| `Prometheus2Csv.Script.HandleArgs` | prometheus2csv.py:28-73 | the settings left by the option loop, host check and defaults, and the exit status, are exactly those of `Handle` on the settings before the call |
| `Arguments.Apply` | prometheus2csv.py:44-56 | one turn of the loop: it continues exactly when the option is neither `--help` nor a `--period` that `int()` rejects; exit 0 exactly for `--help`; the selector is never touched. The field it assigns is stated by `FoldLastWins` and `FoldContinues` |
| `Arguments.Fold` | prometheus2csv.py:43-56 | the option loop never changes the selector |
| `Arguments.Complete` | prometheus2csv.py:58-70 | after the loop, exit code 2 happens exactly when the host is still empty, and otherwise the run continues |
| `Arguments.Handle` | prometheus2csv.py:36-70 | a getopt error gives exit 2 with nothing changed; a normal return always leaves a non-empty host, a non-empty step and some window (a period, a start or an end) |
| `Arguments.FoldAppend` | prometheus2csv.py:43-56 | options are applied strictly in list order: the loop over `a + b` is the loop over `a`, then, unless that exited, the loop over `b` |
| `Arguments.LastIsLastOccurrence` | prometheus2csv.py:43-56 | `Last` picks the argument of the last option with one of the given names |
| `Arguments.LastOfAbsent` | prometheus2csv.py:43-56 | `Last` finds nothing when no option has one of the given names |
| `Arguments.FoldLastWins` | prometheus2csv.py:43-56 | when the loop finishes, host, step, start, end and period each equal the last option that sets them, or keep their old value when none does; a given --period is always set afterwards |
| `Arguments.LaterOptionWins` | prometheus2csv.py:43-56 | when an option appears more than once, the value of its last occurrence decides the setting |
| `Arguments.IgnoredOptionsChangeNothing` | prometheus2csv.py:37-56 | striking every `-c`, `--container` and `-p` from the option list leaves the outcome unchanged, so `-p` does not set the period |
| `Arguments.HelpStopsProcessing` | prometheus2csv.py:43-46 | `--help` exits with code 0 as soon as it is reached, with the settings as the earlier options left them, even when no host was given |
| `Arguments.FoldContinues` | prometheus2csv.py:43-56 | the option loop runs to the end exactly when no option is `--help` and every `--period` argument is accepted by `int()` |
| `Arguments.FirstStopDecides` | prometheus2csv.py:43-56 | the first stopping option decides the end: exit 0 for `--help`, an uncaught ValueError with the argument for a rejected `--period`, with the settings the earlier options left |
| `Arguments.PeriodErrorBeforeHelp` | prometheus2csv.py:44-56 | `--period=x --help` ends with ValueError("x"), not with the help exit |
| `Arguments.HandleDecides` | prometheus2csv.py:43-70 | after a finished loop, exit 2 when the last host is empty; otherwise the full settings: last values, step `10s` when empty, period 10 only when period, start and end are all unset, and the selector joined from the arguments |
| `Arguments.HandleFromInitial` | prometheus2csv.py:58-70 | from the initial settings, after a finished loop: the run continues exactly when the last host option has a non-empty argument; the step is the last step option's argument, or `10s` when that is empty or absent; with no --period, the period is 10 when the last start and end arguments are both empty or absent, and stays unset when either is non-empty; with a --period, it is the last one's value; the selector is the comma-joined arguments or the match-all default |
| `Arguments.SelectorKeepsArguments` | prometheus2csv.py:69-70 | splitting the selector at commas gives back the positional arguments when none contains a comma |
| `Text.SplitJoin` | prometheus2csv.py:70 | the join loses nothing: splitting the join of comma-free parts at `,` returns the parts (`Split` is that inverse, stated for this lemma; the source does not split) |
| `Text.ParseIntDecimal` | prometheus2csv.py:56 | the --period parser reads back the decimal form of every integer |
| `MetricNames.NameQueryRoundTrip` | prometheus2csv.py:85-86 | the name query is `sum by(__name__)({` + selector + `})`, and the selector can be recovered from it |
| `MetricNames.NameQueryInjective` | prometheus2csv.py:85-86 | distinct selectors give distinct name queries |
| `MetricNames.RawNames` | prometheus2csv.py:94-97 | the list the append loop builds has one entry per result, and entry i is result i's `__name__` label, or `""` when it is missing |
| `MetricNames.RawNamesCount` | prometheus2csv.py:95-97 | in the names of the first n results, each name occurs as often as there are results among them carrying it: duplicates are kept, nothing is merged |
| `Ordering.InsertSorted` | prometheus2csv.py:98 | inserting a name into a sorted list keeps it sorted |
| `Ordering.SortNames` | prometheus2csv.py:98 | the sorted list is in ascending string order and is a permutation of its input |
| `Ordering.SortedUnique` | prometheus2csv.py:98 | two sorted lists with the same elements are equal, so the sorted order is fully determined |
| `Ordering.SortNamesDeterministic` | prometheus2csv.py:98 | the sorted names depend only on which names the server reported and how often, not on their order |
| `Prometheus2Csv.Script.QueryMetricNames` | prometheus2csv.py:84-100 | the query sent is the name query of the current selector; status `"error"` gives exit 2 and no names, and every other status gives a sorted permutation of the per-result names, one per result |
| `RangeQueries.WindowShape` | prometheus2csv.py:104-109 | a set period (0 included) gives a window that ends now and is exactly that long, whatever start and end hold; with no period, the literal START and END are used |
| `RangeQueries.PlanUnique` | prometheus2csv.py:111-112 | the request list is fully determined by the names, the window and the step |
| `Prometheus2Csv.Script.ForwardMetricValues` | prometheus2csv.py:103-112 | one ranged request per name, in the given order; request i queries name i, and all share the window and step of the current settings |
| `Prometheus2Csv.Script.Run` | prometheus2csv.py:20-26 | an exit in handle_args stops the run; a name query with status "error" gives exit 2 with no ranged request; otherwise the requests are those for the sorted names of the response, so an empty result gives none |
| `Ordering.LexLeTotal` | prometheus2csv.py:98 | any two strings are ordered one way or the other |
| `Ordering.LexLeTransitive` | prometheus2csv.py:98 | the string order is transitive |
| `Ordering.LexLeAntisymmetric` | prometheus2csv.py:98 | strings ordered both ways are equal |
| `Text.Join` | prometheus2csv.py:70 | `",".join(args)`; no contract of its own, its behaviour is stated by `SplitJoin` |
| `Text.ParseInt` | prometheus2csv.py:56 | `int(arg)` on an optional sign and ASCII digits, None where it raises ValueError; no contract of its own, stated by `ParseIntDecimal` |
| `MetricNames.NameQuery` | prometheus2csv.py:85-86 | the format string `sum by(__name__)({...})`; no contract of its own, stated by `NameQueryRoundTrip` and `NameQueryInjective` |
| `MetricNames.NameOf` | prometheus2csv.py:97 | `result['metric'].get('__name__', '')`; no contract of its own, stated through `RawNames` |
| `RangeQueries.QueryWindow` | prometheus2csv.py:104-109 | the start and end of the window; no contract of its own, stated by `WindowShape` |
| `Ordering.LexLe` | prometheus2csv.py:98 | Python's `<=` on `str`, which `list.sort()` orders by; no contract of its own, stated by `LexLeTotal`, `LexLeTransitive` and `LexLeAntisymmetric` |

## Left out

- The HTTP calls (`requests.get`), the URLs built from `PROMETHEUS_URL` and the two API paths, and JSON decoding are left out. The decoded instant-query response is an input value. Ranged requests are returned as parameter records instead of being sent.
- The ranged-query responses (lines 113-116) are not modelled. Line 114 reads `response.json()['data']['result']`, which raises when a body is not JSON or is Prometheus's error object, which has no `data`. Such a failure ends the loop before the remaining names' requests are sent. `ForwardMetricValues` and `Run` return the full plan, as if every response decoded. The `print` of each result is output only.
- A response that is not an error but lacks `data.result`, or a result without `metric`, makes the source raise KeyError; the model's response type always carries both.
- getopt's tokenising of argv is a library call. Its result, or its GetoptError, is the input to `HandleArgs`.
- `Text.ParseInt` accepts only an optional sign followed by ASCII digits. Python's `int()` also strips surrounding whitespace and accepts underscores between digits and non-ASCII decimal digits. For those inputs the model reports a ValueError where the source succeeds.
- `time.time()` is the parameter `now`, which is already truncated to whole seconds as `int(...)` does.
- Logging, `print` and `print_help_info` are output side effects only.
- `import ptpdb; ptpdb.set_trace()` (lines 72-73) is a debugger hook. As written, handle_args stops in the debugger there, or raises ImportError when the module is absent. The model lets handle_args return instead.
- `sys.exit` is a result variant: `Status.Exit`, `Resolved.Failed` and `RunOutcome.Stopped`/`NameQueryFailed`. An uncaught ValueError from `int()` is `Status.ValueError`.
- How `requests` renders integer and string bounds in the URL is not modelled. `Bound` keeps the integer or the literal text.
