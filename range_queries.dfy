/**
 The pure parts of forward_metric_values (prometheus2csv.py, lines 103-116):
 the query window and the parameters of one ranged query.
 */
module RangeQueries {
  import opened Wrappers

  /** A window bound: `int(time.time())` arithmetic, or the START/END text as given. */
  datatype Bound = Epoch(seconds: int) | Literal(text: string)

  datatype Window = Window(start: Bound, end: Bound)

  /** The parameters of one request to the ranged-query endpoint. */
  datatype RangeRequest = RangeRequest(query: string, start: Bound, end: Bound, step: string)

  /** The window of lines 104-109; `now` is `int(time.time())`. */
  function QueryWindow(period: Option<int>, start: string, end: string, now: int): Window {
    if period.Some? then Window(Epoch(now - period.value), Epoch(now))
    else Window(Literal(start), Literal(end))
  }

  /**
   A set period, 0 included, gives a window of exactly that many seconds
   ending now, whatever --start and --end said; otherwise the literals are used.
   */
  lemma WindowShape(period: Option<int>, start: string, end: string, now: int)
    ensures var w := QueryWindow(period, start, end, now);
      && (period.Some? <==> w.start.Epoch? && w.end.Epoch?)
      && (period.Some? ==> w.end.seconds == now && w.end.seconds - w.start.seconds == period.value)
      && (period.None? ==> w.start == Literal(start) && w.end == Literal(end))
  {
  }

  /** One request per name, in order, all sharing one window and step. */
  predicate IsPlan(plan: seq<RangeRequest>, names: seq<string>, w: Window, step: string) {
    && |plan| == |names|
    && forall i :: 0 <= i < |plan| ==> plan[i] == RangeRequest(names[i], w.start, w.end, step)
  }

  /** A plan is fixed by its names, window and step. */
  lemma PlanUnique(p: seq<RangeRequest>, q: seq<RangeRequest>, names: seq<string>, w: Window, step: string)
    requires IsPlan(p, names, w, step) && IsPlan(q, names, w, step)
    ensures p == q
  {
  }
}
