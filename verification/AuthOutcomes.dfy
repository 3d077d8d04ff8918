/** Which `/auth` requests pass, said of the requests and their times alone. */
module AuthOutcomes {
  import opened Arith
  import opened Tables
  import opened RateWindows
  import opened RateLimiter
  import opened FixedWindows
  import opened LayeredLimits

  /** When requests arrived, and which of them the first layer's process-wide budget let on. */
  function Arrivals(events: seq<AuthEvent>): seq<nat> {
    if events == [] then []
    else Arrivals(events[..|events| - 1]) + if events[|events| - 1].Arrives? then [events[|events| - 1].now] else []
  }

  function LetOn(states: seq<Auth>, events: seq<AuthEvent>): seq<nat>
    requires |states| == |events| + 1
  {
    if events == [] then []
    else
      var n := |events| - 1;
      LetOn(states[..n + 1], events[..n])
      + if events[n].Arrives? && |states[n + 1].requests| > |states[n].requests| then [events[n].now] else []
  }

  lemma RunCut(c: Settings, states: seq<Auth>, events: seq<AuthEvent>, k: nat)
    requires AuthRun(c, states, events) && k <= |events|
    ensures AuthRun(c, states[..k + 1], events[..k])
  {
  }

  /** The process-wide counter is the one charged at each arrival. */
  lemma {:induction false} GlobalOfRun(c: Settings, states: seq<Auth>, events: seq<AuthEvent>, at: nat)
    requires AuthRun(c, states, events) && states[0] == Started(at) && 0 < c.global < U32_MAX
    ensures states[|events|].global == FixedWindows.GlobalAfter(c.global, at, Arrivals(events))
    ensures LetOn(states, events) == Admitted(c.global, at, Arrivals(events))
  {
    if events != [] {
      var n := |events| - 1;
      RunCut(c, states, events, n);
      GlobalOfRun(c, states[..n + 1], events[..n], at);
      var arrivals, letOn := Arrivals(events[..n]), LetOn(states[..n + 1], events[..n]);
      assert arrivals + [] == arrivals && letOn + [] == letOn;
      if events[n].Arrives? { assert (arrivals + [events[n].now])[..|arrivals|] == arrivals; }
    }
  }

  /** How many requests the process-wide budget has let on in the window of an arrival. */
  function UsedByAll(states: seq<Auth>, events: seq<AuthEvent>, at: nat, now: nat): nat
    requires |states| == |events| + 1
  {
    InSpan(LetOn(states, events), WindowFor(Opened(Some(at), Arrivals(events)), now))
  }

  lemma BudgetLetsOn(c: Settings, states: seq<Auth>, events: seq<AuthEvent>, at: nat, now: nat)
    requires AuthRun(c, states, events) && states[0] == Started(at) && 0 < c.global < U32_MAX
    requires FixedWindows.Rising(at, Arrivals(events) + [now])
    ensures GlobalVerdict(c, states[|events|], now).Admit? <==> UsedByAll(states, events, at, now) < c.global
  {
    var arrivals := Arrivals(events);
    assert (arrivals + [now])[..|arrivals|] == arrivals;
    GlobalOfRun(c, states, events, at);
    GlobalAnswersByCount(c.global, at, arrivals + [now]);
  }

  /** In every run with arrivals in time order, an arrival is let on exactly while its
      window has let on less than the budget, and goes on to the charge of its address, or
      through if there is none, exactly when the shared layer then allows it. */
  lemma ArrivalDecided(c: Settings, states: seq<Auth>, events: seq<AuthEvent>, at: nat, e: AuthEvent)
    requires AuthRun(c, states, events) && states[0] == Started(at) && c.global <= U32_MAX && e.Arrives?
    requires FixedWindows.Rising(at, Arrivals(events) + [e.now])
    ensures var s, s' := states[|events|], AfterEvent(c, states[|events|], e);
            var on := c.global == 0 || c.global == U32_MAX || UsedByAll(states, events, at, e.now) < c.global;
            var allowed := on && (c.global == 0 || Allows(e.l2, c.posture));
            && s'.ledger == s.ledger && s'.calls == s.calls
            && (!on ==> s'.requests == s.requests)
            && (on ==> && |s'.requests| == |s.requests| + 1 && s'.requests[..|s.requests|] == s.requests
                       && var r := s'.requests[|s.requests|];
                          r.ip == e.ip && (r.pending <==> allowed && c.perIp > 0) && r.cost == if c.global == 0 then 0 else 1)
            && s'.through == if allowed && c.perIp == 0 then s.through + [Passage(e.ip, e.now)] else s.through
  {
    assert states[|events|].through + [] == states[|events|].through;
    if 0 < c.global < U32_MAX { BudgetLetsOn(c, states, events, at, e.now); }
  }

  /** In every run with the charges in time order, a request charged for its address gets
      through exactly when that address has been admitted less often than its budget in the
      window, and the shared layer then allows it. */
  lemma ChargeDecided(c: Settings, states: seq<Auth>, events: seq<AuthEvent>, e: AuthEvent)
    requires AuthRun(c, states, events) && e.ChargesIp? && Enabled(states[|events|], e) && c.perIp <= U32_MAX
    requires var s := states[|events|]; InTime(s.calls + [RateLimiter.Check(s.requests[e.request].ip, e.now)])
    ensures var s, s' := states[|events|], AfterEvent(c, states[|events|], e);
            var r := s.requests[e.request];
            var admitted := Used(c.perIp, s.calls, r.ip, e.now) < c.perIp;
            && s'.calls == s.calls + [RateLimiter.Check(r.ip, e.now)] && s'.global == s.global
            && s'.requests == s.requests[e.request := Request(r.ip, r.window, r.cost + if admitted then 1 else 0, false)]
            && s'.through == if admitted && Allows(e.l2, c.posture) then s.through + [Passage(r.ip, e.now)] else s.through
  {
    var s := states[|events|];
    var call := RateLimiter.Check(s.requests[e.request].ip, e.now);
    RunKeepsAuth(c, states, events, |events|);
    var calls := s.calls + [call];
    assert calls[..|s.calls|] == s.calls;
    AnswersByCount(c.perIp, calls);
    assert s.through + [] == s.through;
  }
}
