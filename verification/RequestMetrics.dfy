/** Metrics over any number of concurrent requests: the in-flight gauge and the
    observations, while every request runs its own timeout protocol. */
module RequestMetrics {
  import opened ResponseModel
  import opened TimeoutProtocol

  datatype Observation = Observation(id: nat, status: nat)

  // What requests share: the gauge, and what has been observed.
  datatype Totals = Totals(inFlight: int, observed: seq<Observation>)

  function Entered(t: Totals): Totals {
    t.(inFlight := t.inFlight + 1)
  }

  // The deferred decrement runs however the handler leaves; only a handler
  // that returns is observed.
  function Departed(t: Totals, id: nat, handler: Handler, status: nat): Totals {
    Totals(t.inFlight - 1, if handler.Returned? then t.observed + [Observation(id, status)] else t.observed)
  }

  class MetricsRegistry {
    var inFlight: int
    var observed: seq<Observation>

    function Value(): Totals
      reads this
    {
      Totals(inFlight, observed)
    }

    constructor ()
      ensures Value() == Totals(0, [])
    {
      inFlight, observed := 0, [];
    }

    method Enter()
      modifies this
      ensures Value() == Entered(old(Value()))
    {
      inFlight := inFlight + 1;
    }

    // After ServeHTTP: what is left of the middleware, and then its defer.
    method Leave(id: nat, handler: Handler, rec: Recorder)
      modifies this
      ensures Value() == Departed(old(Value()), id, handler, rec.status)
    {
      if handler.Returned? {
        observed := observed + [Observation(id, rec.status)];
      }
      inFlight := inFlight - 1;
    }
  }

  datatype Served = Served(site: Site, state: State)

  datatype System = System(requests: map<nat, Served>, totals: Totals)

  datatype Move = Arrive(id: nat, site: Site) | On(id: nat, step: Step)

  function Next(sys: System, move: Move): System {
    match move
    case Arrive(id, site) =>
      if id in sys.requests then sys
      else System(sys.requests[id := Served(site, Init(site))], Entered(sys.totals))
    case On(id, step) =>
      if id !in sys.requests then sys
      else
        var Served(site, s) := sys.requests[id];
        var s' := TimeoutProtocol.Next(site, s, step);
        System(sys.requests[id := Served(site, s')],
               if s.handler.Running? && !s'.handler.Running? then
                 Departed(sys.totals, id, s'.handler, Metrics(s'.chain).status)
               else sys.totals)
  }

  function Exec(moves: seq<Move>): System {
    if moves == [] then System(map[], Totals(0, [])) else Next(Exec(moves[..|moves| - 1]), moves[|moves| - 1])
  }

  ghost function Running(requests: map<nat, Served>): set<nat> {
    set id | id in requests && requests[id].state.handler.Running?
  }

  // The steps one request took.
  function StepsOf(moves: seq<Move>, id: nat): seq<Step> {
    if moves == [] then []
    else
      var before, move := StepsOf(moves[..|moves| - 1], id), moves[|moves| - 1];
      if move.On? && move.id == id && id in Exec(moves[..|moves| - 1]).requests then before + [move.step] else before
  }

  function Observations(observed: seq<Observation>, id: nat): seq<nat> {
    if observed == [] then []
    else
      var before, last := Observations(observed[..|observed| - 1], id), observed[|observed| - 1];
      if last.id == id then before + [last.status] else before
  }

  /** Concurrent requests do not interfere: each is a run of its own steps. */
  lemma {:induction false} EachRunsAlone(moves: seq<Move>, id: nat)
    ensures var sys := Exec(moves);
            && (id in sys.requests ==>
                  sys.requests[id].state == TimeoutProtocol.Exec(sys.requests[id].site, StepsOf(moves, id)))
            && (id !in sys.requests ==> StepsOf(moves, id) == [])
  {
    if moves == [] {
    } else {
      var front := moves[..|moves| - 1];
      EachRunsAlone(front, id);
      var steps := StepsOf(moves, id);
      if steps != [] {
        assert steps == StepsOf(front, id) || steps[..|steps| - 1] == StepsOf(front, id);
      }
    }
  }

  lemma RunningChanges(requests: map<nat, Served>, id: nat, served: Served)
    ensures var before, after := Running(requests), Running(requests[id := served]);
            after == if served.state.handler.Running? then before + {id} else before - {id}
  {
  }

  /** A request that arrives is entered, running and untouched, and raises the
      gauge by one; the others stay as they are. */
  lemma ArrivalIsEntered(moves: seq<Move>, id: nat, site: Site)
    requires id !in Exec(moves).requests
    ensures var before, after := Exec(moves), Exec(moves + [Arrive(id, site)]);
            && after.requests == before.requests[id := Served(site, Init(site))]
            && after.requests[id].state.handler.Running?
            && after.totals.inFlight == before.totals.inFlight + 1 && after.totals.observed == before.totals.observed
  {
    assert (moves + [Arrive(id, site)])[..|moves|] == moves;
  }

  lemma MoveKeepsGauge(sys: System, move: Move)
    requires sys.totals.inFlight == |Running(sys.requests)|
    ensures Next(sys, move).totals.inFlight == |Running(Next(sys, move).requests)|
  {
    if move.Arrive? && move.id !in sys.requests {
      RunningChanges(sys.requests, move.id, Served(move.site, Init(move.site)));
    } else if move.On? && move.id in sys.requests {
      var Served(site, s) := sys.requests[move.id];
      RunningChanges(sys.requests, move.id, Served(site, TimeoutProtocol.Next(site, s, move.step)));
    }
  }

  /** The gauge is the number of handlers entered and not yet left. */
  lemma {:induction false} GaugeCountsRunning(moves: seq<Move>)
    ensures Exec(moves).totals.inFlight == |Running(Exec(moves).requests)|
  {
    if moves == [] {
      assert Running(map[]) == {};
    } else {
      GaugeCountsRunning(moves[..|moves| - 1]);
      MoveKeepsGauge(Exec(moves[..|moves| - 1]), moves[|moves| - 1]);
    }
  }

  // What should have been observed of a request.
  function Due(sys: System, id: nat): seq<nat> {
    if id in sys.requests && sys.requests[id].state.handler.Returned?
    then [Metrics(sys.requests[id].state.chain).status] else []
  }

  lemma ObservationsGrow(observed: seq<Observation>, last: Observation, id: nat)
    ensures Observations(observed + [last], id) == Observations(observed, id) + if last.id == id then [last.status] else []
  {
    assert (observed + [last])[..|observed|] == observed;
  }

  // A step of this request.
  lemma StepObserves(sys: System, id: nat, step: Step)
    requires id in sys.requests && Observations(sys.totals.observed, id) == Due(sys, id)
    ensures Observations(Next(sys, On(id, step)).totals.observed, id) == Due(Next(sys, On(id, step)), id)
  {
    var Served(site, s) := sys.requests[id];
    var s' := TimeoutProtocol.Next(site, s, step);
    if !s.handler.Running? {
      WatcherLeavesMetricsAlone(site, s, step);
    } else {
      ObservationsGrow(sys.totals.observed, Observation(id, Metrics(s'.chain).status), id);
    }
  }

  // A step of another one.
  lemma OthersStepObserves(sys: System, other: nat, step: Step, id: nat)
    requires other in sys.requests && other != id
    ensures Observations(Next(sys, On(other, step)).totals.observed, id) == Observations(sys.totals.observed, id)
    ensures Due(Next(sys, On(other, step)), id) == Due(sys, id)
  {
    var Served(site, s) := sys.requests[other];
    var s' := TimeoutProtocol.Next(site, s, step);
    ObservationsGrow(sys.totals.observed, Observation(other, Metrics(s'.chain).status), id);
  }

  lemma MoveObserves(sys: System, move: Move, id: nat)
    requires Observations(sys.totals.observed, id) == Due(sys, id)
    ensures Observations(Next(sys, move).totals.observed, id) == Due(Next(sys, move), id)
  {
    if move.On? && move.id in sys.requests {
      if move.id == id {
        StepObserves(sys, id, move.step);
      } else {
        OthersStepObserves(sys, move.id, move.step, id);
      }
    }
  }

  /** A handler that returned is observed exactly once, with what its recorder
      shows; one that is still running or panicked is not observed. */
  lemma {:induction false} ObservedOnce(moves: seq<Move>, id: nat)
    ensures Observations(Exec(moves).totals.observed, id) == Due(Exec(moves), id)
  {
    if moves == [] {
    } else {
      ObservedOnce(moves[..|moves| - 1], id);
      MoveObserves(Exec(moves[..|moves| - 1]), moves[|moves| - 1], id);
    }
  }

  /** An observation differs from what the client got only if the watcher had
      closed the writer before the handler committed a status. */
  lemma ObservationIsTrue(moves: seq<Move>, id: nat)
    requires id in Exec(moves).requests && Exec(moves).requests[id].state.handler.Returned?
    ensures var s := Exec(moves).requests[id].state;
            && |Observations(Exec(moves).totals.observed, id)| == 1
            && (Observations(Exec(moves).totals.observed, id)[0] == ClientStatus(s) ||
                (TimeoutOf(s.chain).closed && !Started(s.seen) && !s.watcher.Finished?))
  {
    EachRunsAlone(moves, id);
    ObservedOnce(moves, id);
    var served := Exec(moves).requests[id];
    ObservedStatus(served.site, StepsOf(moves, id));
  }

  // --- the route label ---------------------------------------------------------

  const ROUTE_UNMATCHED := "unmatched"

  function IndexOf(s: string, c: char): (i: nat)
    ensures i <= |s| && c !in s[..i]
    ensures i < |s| <==> c in s
    ensures i < |s| ==> s[i] == c
  {
    if s == "" || s[0] == c then 0
    else
      var i := IndexOf(s[1..], c);
      assert s[..i + 1] == [s[0]] + s[1..][..i];
      i + 1
  }

  function RouteOf(pattern: string): string {
    if pattern == "" then ROUTE_UNMATCHED
    else
      var space := IndexOf(pattern, ' ');
      var rest := if space < |pattern| then pattern[space + 1..] else pattern;
      var slash := IndexOf(rest, '/');
      if 0 < slash < |rest| then rest[slash..] else rest
  }

  lemma {:induction false} IndexOfFirst(before: string, c: char, after: string)
    requires c !in before
    ensures IndexOf(before + [c] + after, c) == |before|
  {
    var s := before + [c] + after;
    if before != "" {
      assert s[0] == before[0];
      assert s[1..] == before[1..] + [c] + after;
      IndexOfFirst(before[1..], c, after);
    }
  }

  /** A registered pattern, with or without a method and a host, is labelled by
      its path alone: neither splits a route in two.  A request that matched none
      is labelled "unmatched". */
  lemma RouteIsPath(method': string, host: string, path: string)
    requires ' ' !in method' && ' ' !in host && '/' !in host && ' ' !in path && path != "" && path[0] == '/'
    ensures RouteOf(method' + " " + host + path) == path
    ensures RouteOf(host + path) == path
    ensures RouteOf("") == "unmatched"
  {
    var tail := host + path;
    var whole := method' + " " + host + path;
    assert path == [path[0]] + path[1..];
    assert tail == host + ['/'] + path[1..];
    IndexOfFirst(host, '/', path[1..]);
    assert tail[|host|..] == path;
    assert whole == method' + [' '] + tail;
    IndexOfFirst(method', ' ', tail);
    assert whole[|method'| + 1..] == tail;
  }
}
