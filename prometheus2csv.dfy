/**
 prometheus2csv.py as a program over its module-level settings: handle_args
 updates them in place, query_metric_names and forward_metric_values read
 them. The HTTP calls are replaced by their inputs and outputs: the decoded
 response of the instant query is a parameter, and the ranged queries are
 returned as a list of request parameters instead of being sent.
 */
module Prometheus2Csv {
  import opened Wrappers
  import opened Text
  import opened Ordering
  import opened Arguments
  import opened MetricNames
  import opened RangeQueries

  /** How main ends: stopped in handle_args, stopped by the name query, or with the ranged queries it sends. */
  datatype RunOutcome =
    | Stopped(status: Status)
    | NameQueryFailed(code: int)
    | Sent(nameQuery: string, requests: seq<RangeRequest>)

  class Script {
    var host: string
    var resolution: string
    var start: string
    var end: string
    var period: Option<int>
    var selector: string

    /** The current settings as one value. */
    function Snapshot(): Settings
      reads this
    {
      Settings(host, resolution, start, end, period, selector)
    }

    /** The module's initial assignments (prometheus2csv.py, lines 11-18). */
    constructor ()
      ensures Snapshot() == Initial
    {
      host, resolution, start, end := "", "", "", "";
      period := None;
      selector := DefaultSelector;
    }

    /** handle_args: the option loop, the host check and the defaults. */
    method HandleArgs(g: Getopt) returns (status: Status)
      modifies this
      ensures Outcome(Snapshot(), status) == Handle(old(Snapshot()), g)
    {
      if g.GetoptError? {
        return Exit(2);
      }
      var opts := g.opts;
      var i := 0;
      while i < |opts|
        invariant 0 <= i <= |opts|
        invariant Fold(old(Snapshot()), opts) == Fold(Snapshot(), opts[i..])
      {
        var (opt, arg) := opts[i];
        assert opts[i..][1..] == opts[i + 1..];
        if opt == "--help" {
          return Exit(0);
        } else if opt == "-h" || opt == "--host" {
          host := arg;
        } else if opt == "-s" || opt == "--step" {
          resolution := arg;
        } else if opt == "--start" {
          start := arg;
        } else if opt == "--end" {
          end := arg;
        } else if opt == "--period" {
          var n := ParseInt(arg);
          if n.None? {
            return ValueError(arg);
          }
          period := n;
        }
        i := i + 1;
      }

      if host == "" {
        return Exit(2);
      }
      if resolution == "" {
        resolution := DefaultStep;
      }
      if period.None? && start == "" && end == "" {
        period := Some(DefaultPeriod);
      }
      if |g.args| > 0 {
        selector := Join(g.args, ',');
      }
      status := Continue;
    }

    /**
     query_metric_names on the server's decoded answer to the name query:
     exit 2 on status "error", otherwise every result's name, sorted.
     */
    method QueryMetricNames(response: InstantResponse) returns (query: string, r: Resolved)
      ensures query == NameQuery(selector)
      ensures r.Failed? <==> response.status == "error"
      ensures r.Failed? ==> r.code == 2
      ensures r.Names? ==> Sorted(r.names)
      ensures r.Names? ==> multiset(r.names) == multiset(RawNames(response.result))
      ensures r.Names? ==> |r.names| == |response.result|
    {
      query := NameQuery(selector);
      if response.status == "error" {
        return query, Failed(2);
      }
      var results := response.result;
      var names: seq<string> := [];
      var i := 0;
      while i < |results|
        invariant 0 <= i <= |results|
        invariant names == RawNames(results[..i])
      {
        assert RawNames(results[..i + 1]) == RawNames(results[..i]) + [NameOf(results[i])] by {
          assert results[..i + 1][..i] == results[..i];
        }
        names := names + [NameOf(results[i])];
        i := i + 1;
      }
      assert results[..i] == results;
      ghost var raw := names;
      names := SortNames(names);
      assert |names| == |multiset(names)| == |multiset(raw)| == |raw|;
      r := Names(names);
    }

    /** forward_metric_values: the window, then one ranged query per name, in order. */
    method ForwardMetricValues(now: int, names: seq<string>) returns (plan: seq<RangeRequest>)
      ensures IsPlan(plan, names, QueryWindow(period, start, end, now), resolution)
    {
      var startTime: Bound;
      var endTime: Bound;
      if period.Some? {
        endTime := Epoch(now);
        startTime := Epoch(now - period.value);
      } else {
        endTime := Literal(end);
        startTime := Literal(start);
      }
      plan := [];
      var i := 0;
      while i < |names|
        invariant 0 <= i <= |names|
        invariant IsPlan(plan, names[..i], Window(startTime, endTime), resolution)
      {
        plan := plan + [RangeRequest(names[i], startTime, endTime, resolution)];
        i := i + 1;
      }
      assert names[..i] == names;
    }

    /** main: handle_args, then the name query, then the ranged queries. */
    method Run(g: Getopt, response: InstantResponse, now: int) returns (o: RunOutcome)
      modifies this
      ensures var h := Handle(old(Snapshot()), g);
        && Snapshot() == h.settings
        && (h.status != Continue ==> o == Stopped(h.status))
        && (h.status == Continue && response.status == "error" ==> o == NameQueryFailed(2))
        && (h.status == Continue && response.status != "error" ==>
              && o.Sent?
              && o.nameQuery == NameQuery(h.settings.selector)
              && IsPlan(o.requests, SortNames(RawNames(response.result)),
                        QueryWindow(h.settings.period, h.settings.start, h.settings.end, now),
                        h.settings.resolution))
    {
      var status := HandleArgs(g);
      if status != Continue {
        return Stopped(status);
      }
      var query, resolved := QueryMetricNames(response);
      if resolved.Failed? {
        return NameQueryFailed(resolved.code);
      }
      SortedUnique(resolved.names, SortNames(RawNames(response.result)));
      var requests := ForwardMetricValues(now, resolved.names);
      o := Sent(query, requests);
    }
  }
}
