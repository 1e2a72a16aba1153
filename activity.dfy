/** The inactivity monitor shared by both versions (gofer-0.5/gofer.go:37-61,
    gofer.go:29-55): handlers record when they ran, and a ticker ends the gateway once no
    handler has run for more than a minute. Which paths reach which handler, and so which
    requests count as activity, differs between the versions. Instants and durations are
    whole nanoseconds, as Go's time package counts them; the mutex around the shared
    instant is not modelled, every step here runs alone. */
module Activity {
  import opened Wrappers
  import opened Http
  import opened Gateway
  import PhClient

  const Second := 1_000_000_000

  /** Idle time beyond which the gateway ends. */
  const ShutdownTimeout := 60 * Second

  /** Period of the monitor's ticker. */
  const TickInterval := 5 * Second

  class Monitor {
    /** When a handler last ran. */
    var lastRequestTime: int

    /** The monitor as the program starts: the start counts as activity. */
    constructor (now: int)
      ensures lastRequestTime == now
    {
      lastRequestTime := now;
    }

    /** Whether the gateway has been idle for longer than the timeout at `now`. */
    predicate Idle(now: int)
      reads this
    {
      now - lastRequestTime > ShutdownTimeout
    }

    /** `updateActivity`: a handler ran at `now`. */
    method UpdateActivity(now: int)
      modifies this
      ensures lastRequestTime == now
      ensures !Idle(now)
    {
      lastRequestTime := now;
    }

    /** One tick of `monitorInactivity`: whether the gateway ends at `now`. The state is
        only read. */
    method Tick(now: int) returns (exit: bool)
      ensures exit <==> Idle(now)
      ensures exit <==> now - lastRequestTime > 60 * Second
    {
      var idleDuration := now - lastRequestTime;
      exit := idleDuration > ShutdownTimeout;
    }

    /** The ticker loop of `monitorInactivity` when no request arrives any more: ticks
        come every five seconds from `firstTick` on, and the loop ends at the first tick
        that finds the gateway idle. That tick is more than a minute after the last
        activity, and, unless it is the very first tick, at most a minute and one tick
        period after it. */
    method RunUntilIdle(firstTick: int) returns (exitAt: int)
      ensures Idle(exitAt)
      ensures exitAt >= firstTick && (exitAt - firstTick) % TickInterval == 0
      ensures exitAt > firstTick ==> !Idle(exitAt - TickInterval)
      ensures exitAt > firstTick ==> exitAt - lastRequestTime <= ShutdownTimeout + TickInterval
    {
      var now := firstTick;
      while true
        invariant now >= firstTick && (now - firstTick) % TickInterval == 0
        invariant now > firstTick ==> !Idle(now - TickInterval)
        decreases ShutdownTimeout + TickInterval + lastRequestTime - now
      {
        var exit := Tick(now);
        if exit {
          return now;
        }
        now := now + TickInterval;
      }
    }

    /** A request reaching `route` at `now`: its handler records the activity first,
        unless the route does not reset the timer. */
    method Handle(route: Route, now: int)
      modifies this
      ensures lastRequestTime == if ResetsActivity(route) then now else old(lastRequestTime)
    {
      if ResetsActivity(route) {
        UpdateActivity(now);
      }
    }

    /** A "/focus" request at `now`: the handler records the activity before it looks at
        the query, so even a request it refuses keeps the gateway alive
        (gofer-0.5/gofer.go:536, gofer.go:324). */
    method Focus(query: Values, parse: string -> Option<Url>, now: int) returns (reply: FocusResponse)
      modifies this
      ensures lastRequestTime == now && !Idle(now)
      ensures reply == HandleFocus(query, parse)
    {
      UpdateActivity(now);
      reply := HandleFocus(query, parse);
    }
  }

  /** The handlers a path can reach. `PhRedirect` is the answer of Go's request
      multiplexer to "/ph", the subtree "/ph/" without its slash: a redirect that runs no
      handler. */
  datatype Route = ServeGopher | FocusRoute | Heartbeat | PhEntry | SearchRoute | PhRedirect

  /** The routes of version 0.5 (gofer-0.5/gofer.go:669-673): exact paths "/focus",
      "/heartbeat" and "/search", the subtree "/ph/", and "/" for everything else. */
  function RouteV05(path: string): Route {
    if path == "/focus" then FocusRoute
    else if path == "/heartbeat" then Heartbeat
    else if path == "/search" then SearchRoute
    else if PhClient.PrefixV05 <= path then PhEntry
    else if path == "/ph" then PhRedirect
    else ServeGopher
  }

  /** The routes of the current version (gofer.go:435-437). */
  function RouteRoot(path: string): Route {
    if path == "/focus" then FocusRoute
    else if path == "/heartbeat" then Heartbeat
    else ServeGopher
  }

  /** Every handler records activity except the search handler, which is registered
      directly, without the wrapper that does so; a redirect runs no handler at all. */
  predicate ResetsActivity(route: Route) {
    route != SearchRoute && route != PhRedirect
  }

  /** Only the paths of the handlers version 0.5 added are routed differently. */
  lemma OnlyNewRoutesDiffer(path: string)
    ensures RouteV05(path) != RouteRoot(path)
        <==> path == "/search" || PhClient.PrefixV05 <= path || path == "/ph"
  {
    if PhClient.PrefixV05 <= path {
      assert path[..4] == "/ph/";
      assert path != "/focus" && path != "/heartbeat" && path != "/search" by {
        assert path[3] == '/';
      }
    }
  }

  /** In version 0.5, of the requests that reach a handler, exactly searches do not keep
      the gateway alive; in the current version every request does. */
  lemma SearchNeverResetsActivity(path: string)
    ensures RouteV05(path) != PhRedirect ==> (!ResetsActivity(RouteV05(path)) <==> path == "/search")
    ensures ResetsActivity(RouteRoot(path))
  {
  }
}
