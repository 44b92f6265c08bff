/**
 The pure parts of query_metric_names (prometheus2csv.py, lines 84-100):
 the aggregation query built from the selector, the decoded response of
 the instant-query endpoint, and the name each result carries.
 */
module MetricNames {
  import opened Wrappers

  /** The labels of one result, `result['metric']`. */
  type LabelSet = map<string, string>

  /** The decoded JSON of the instant query: `status` and `data.result`. */
  datatype InstantResponse = InstantResponse(status: string, result: seq<LabelSet>)

  /** How query_metric_names ends: the sorted names, or sys.exit with a code. */
  datatype Resolved = Names(names: seq<string>) | Failed(code: int)

  const QueryPrefix: string := "sum by(__name__)({"
  const QuerySuffix: string := "})"

  /** `'sum by(__name__)({{{}}})'.format(selector)`. */
  function NameQuery(selector: string): string {
    QueryPrefix + selector + QuerySuffix
  }

  /** The selector a name query was built from, if `q` is one. */
  function SelectorOf(q: string): Option<string> {
    if |q| >= |QueryPrefix| + |QuerySuffix|
       && q[..|QueryPrefix|] == QueryPrefix
       && q[|q| - |QuerySuffix|..] == QuerySuffix
    then Some(q[|QueryPrefix|..|q| - |QuerySuffix|])
    else None
  }

  /** The selector can be read back from the query, so distinct selectors give distinct queries. */
  lemma NameQueryRoundTrip(selector: string)
    ensures SelectorOf(NameQuery(selector)) == Some(selector)
  {
  }

  lemma NameQueryInjective(a: string, b: string)
    requires NameQuery(a) == NameQuery(b)
    ensures a == b
  {
    NameQueryRoundTrip(a);
    NameQueryRoundTrip(b);
  }

  /** `result['metric'].get('__name__', '')`. */
  function NameOf(labels: LabelSet): string {
    if "__name__" in labels then labels["__name__"] else ""
  }

  /**
   The list the append loop builds: the names of the results in the order
   the server sent them, one per result, duplicates included.
   */
  function RawNames(results: seq<LabelSet>): (names: seq<string>)
    ensures |names| == |results|
    ensures forall i :: 0 <= i < |results| ==> names[i] == NameOf(results[i])
    decreases |results|
  {
    if results == [] then []
    else RawNames(results[..|results| - 1]) + [NameOf(results[|results| - 1])]
  }

  /** The results, among the first `n`, whose name is `name`. */
  function Carrying(results: seq<LabelSet>, name: string, n: nat): set<int>
    requires n <= |results|
  {
    set i | 0 <= i < n && NameOf(results[i]) == name
  }

  /**
   Every result contributes its name, and one without `__name__`
   contributes "": nothing is merged or dropped.
   */
  lemma {:induction false} RawNamesCount(results: seq<LabelSet>, name: string, n: nat)
    requires n <= |results|
    ensures multiset(RawNames(results[..n]))[name] == |Carrying(results, name, n)|
    decreases n
  {
    if n > 0 {
      RawNamesCount(results, name, n - 1);
      var prefix := results[..n];
      assert prefix[..n - 1] == results[..n - 1];
      assert RawNames(prefix) == RawNames(results[..n - 1]) + [NameOf(results[n - 1])];
      assert multiset(RawNames(prefix)) ==
             multiset(RawNames(results[..n - 1])) + multiset{NameOf(results[n - 1])};
      CarryingStep(results, name, n);
    }
  }

  lemma CarryingStep(results: seq<LabelSet>, name: string, n: nat)
    requires 0 < n <= |results|
    ensures |Carrying(results, name, n)| ==
            |Carrying(results, name, n - 1)| + (if NameOf(results[n - 1]) == name then 1 else 0)
  {
    if NameOf(results[n - 1]) == name {
      assert Carrying(results, name, n) == Carrying(results, name, n - 1) + {n - 1};
    } else {
      assert Carrying(results, name, n) == Carrying(results, name, n - 1);
    }
  }
}
