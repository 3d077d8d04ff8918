/** The `/auth` limiter: the in-memory layer in front of a shared one, charged for the
    process-wide budget and then for the client address. The shared layer may answer
    anything, and other requests run between the two charges. */
module LayeredLimits {
  import opened Arith
  import opened Tables
  import opened RateWindows
  import opened RateLimiter

  const UNAVAILABLE_RETRY_AFTER := 5

  datatype Posture = AllowAll | DenyAll

  datatype Scope = PerIp | Global

  /** Both layers together: the shared one is asked only where the first admits. */
  function Layered(l1: Verdict, l2: Decision, posture: Posture): Decision {
    match l1
    case Reject(s) => Deny(s)
    case Admit =>
      match l2
      case Unavailable => if posture == AllowAll then Allow else Deny(UNAVAILABLE_RETRY_AFTER)
      case _ => l2
  }

  class LayeredRateLimiter {
    const l1: AgentRateLimiter
    const posture: Posture

    constructor (l1: AgentRateLimiter, posture: Posture)
      ensures this.l1 == l1 && this.posture == posture
    {
      this.l1, this.posture := l1, posture;
    }

    /** `l2` is what the shared layer would answer; `asked` whether it was. */
    method Check(scope: Scope, key: Key, now: nat, l2: Decision) returns (d: Decision, asked: bool)
      modifies l1
      ensures scope == Global ==> l1.State() == old(l1.State())
      ensures scope == PerIp ==>
                && l1.State() == Step(l1.limit, old(l1.State()), RateLimiter.Check(key, now))
                && var v := Answer(l1.limit, Pruned(old(l1.State()), RateLimiter.Check(key, now)).buckets, RateLimiter.Check(key, now));
                   asked == v.Admit? && d == Layered(v, l2, posture) && l1.global == old(l1.global)
      ensures scope == Global && l1.globalLimit != U32_MAX ==>
                && l1.global == Charged(old(l1.global), l1.globalLimit, now)
                && var v := Judge(Roll(old(l1.global), now), l1.globalLimit, now);
                   asked == v.Admit? && d == Layered(v, l2, posture)
      ensures scope == Global && l1.globalLimit == U32_MAX ==>
                l1.global == old(l1.global) && asked && d == Layered(Admit, l2, posture)
      ensures d != Unavailable
    {
      var first;
      match scope {
        case PerIp => first := l1.CheckAt(key, now);
        case Global => first := l1.CheckGlobalAt(now);
      }
      match first {
        case Reject(s) => return Deny(s), false;
        case Admit =>
      }
      asked := true;
      match l2 {
        case Allow => d := Allow;
        case Deny(s) => d := Deny(s);
        case Unavailable =>
          match posture {
            case AllowAll => d := Allow;
            case DenyAll => d := Deny(UNAVAILABLE_RETRY_AFTER);
          }
      }
    }
  }

  /** The shared layer allows a request, or cannot answer and the posture is to allow. */
  predicate Allows(l2: Decision, posture: Posture) {
    l2 == Allow || (l2 == Unavailable && posture == AllowAll)
  }

  /** A charge lets a request pass when both layers do. */
  predicate LetsPass(v: Verdict, l2: Decision, posture: Posture) {
    v.Admit? && Allows(l2, posture)
  }

  /** Otherwise it is refused for as long as the first layer says, or the shared one, or
      five seconds if that cannot answer. */
  predicate RefusedFor(v: Verdict, l2: Decision, posture: Posture, retryAfter: Option<nat>) {
    && (LetsPass(v, l2, posture) <==> retryAfter == None)
    && (v.Reject? ==> retryAfter == Some(v.retryAfter))
    && (v.Admit? && l2.Deny? ==> retryAfter == Some(l2.retryAfter))
    && (v.Admit? && l2 == Unavailable && posture == DenyAll ==> retryAfter == Some(5))
  }

  // ------------------------------------------------------------ the middleware

  /** Budgets per minute. A budget of zero is not charged at all; the largest global one
      is charged and never refuses. */
  datatype Settings = Settings(perIp: nat, global: nat, posture: Posture)

  predicate GlobalMetered(c: Settings) {
    0 < c.global < U32_MAX
  }

  /** A request that got past the process-wide budget: from where, in which of its
      windows, how many questions to the shared layer it has cost, and whether its
      address is still to be charged. */
  datatype Request = Request(ip: Key, window: nat, cost: nat, pending: bool)

  /** A request handed to the handshake, and when it passed its last charge. */
  datatype Passage = Passage(ip: Key, at: nat)

  datatype Auth = Auth(
    global: Bucket,
    requests: seq<Request>,
    ledger: Ledger,
    calls: seq<Call>,
    through: seq<Passage>)

  datatype AuthEvent =
    | Arrives(ip: Key, now: nat, l2: Decision)
    | ChargesIp(request: nat, now: nat, l2: Decision)

  function Started(at: nat): Auth {
    Auth(Bucket(at, 0), [], EMPTY_LEDGER, [], [])
  }

  function GlobalVerdict(c: Settings, s: Auth, now: nat): Verdict {
    if GlobalMetered(c) then Judge(Roll(s.global, now), c.global, now) else Admit
  }

  function GlobalAfter(c: Settings, s: Auth, now: nat): Bucket {
    if GlobalMetered(c) then Charged(s.global, c.global, now) else s.global
  }

  /** The first layer's answer for an address. */
  function AddressVerdict(c: Settings, s: Auth, ip: Key, now: nat): Verdict {
    var call := RateLimiter.Check(ip, now);
    Answer(c.perIp, Pruned(s.ledger, call).buckets, call)
  }

  /** What the process-wide charge answers; with no such budget there is none. */
  function GlobalDecision(c: Settings, s: Auth, now: nat, l2: Decision): Decision {
    if c.global == 0 then Allow else Layered(GlobalVerdict(c, s, now), l2, c.posture)
  }

  /** Charging the process-wide budget, if there is one; a denial ends the request, and
      with no budget per address an admission ends the charging. */
  function AfterArrival(c: Settings, s: Auth, ip: Key, now: nat, l2: Decision): Auth {
    var global := GlobalAfter(c, s, now);
    if GlobalVerdict(c, s, now).Reject? then s.(global := global)
    else
      var allowed := GlobalDecision(c, s, now, l2) == Allow;
      s.(global := global,
         requests := s.requests + [Request(ip, global.windowStart, if c.global == 0 then 0 else 1, allowed && c.perIp > 0)],
         through := s.through + if allowed && c.perIp == 0 then [Passage(ip, now)] else [])
  }

  /** Charging the address of a request that got past the process-wide budget. */
  function AfterCharge(c: Settings, s: Auth, e: AuthEvent): Auth
    requires e.ChargesIp? && e.request < |s.requests|
  {
    var r := s.requests[e.request];
    var call := RateLimiter.Check(r.ip, e.now);
    var v := AddressVerdict(c, s, r.ip, e.now);
    s.(requests := s.requests[e.request := r.(cost := r.cost + (if v.Admit? then 1 else 0), pending := false)],
       ledger := Step(c.perIp, s.ledger, call), calls := s.calls + [call],
       through := s.through + if Layered(v, e.l2, c.posture) == Allow then [Passage(r.ip, e.now)] else [])
  }

  /** A request's arrival and, if it is let on to it, the charge of its address. */
  function AfterRequest(c: Settings, s: Auth, ip: Key, now: nat, globalAnswer: Decision, later: nat, ipAnswer: Decision): Auth {
    var arrived := AfterArrival(c, s, ip, now, globalAnswer);
    if |arrived.requests| > |s.requests| && arrived.requests[|s.requests|].pending
    then AfterCharge(c, arrived, ChargesIp(|s.requests|, later, ipAnswer)) else arrived
  }

  /** The object stands where the events leave it. */
  predicate Tracks(limiter: LayeredRateLimiter, c: Settings, s: Auth)
    reads limiter.l1
  {
    && limiter.l1.limit == c.perIp && limiter.l1.globalLimit == (if c.global == 0 then U32_MAX else c.global)
    && limiter.posture == c.posture && c.global <= U32_MAX
    && limiter.l1.global == s.global && limiter.l1.State() == s.ledger
  }

  method ChargeGlobal(limiter: LayeredRateLimiter, c: Settings, ip: Key, now: nat, answer: Decision, ghost s: Auth)
    returns (retryAfter: Option<nat>)
    requires Tracks(limiter, c, s)
    modifies limiter.l1
    ensures var s' := AfterArrival(c, s, ip, now, answer);
            Tracks(limiter, c, s') && (retryAfter.None? <==> GlobalVerdict(c, s, now).Admit? && GlobalDecision(c, s, now, answer) == Allow)
    ensures c.global == 0 ==> retryAfter == None
    ensures c.global > 0 ==> RefusedFor(GlobalVerdict(c, s, now), answer, c.posture, retryAfter)
  {
    if c.global > 0 {
      var d, _ := limiter.Check(Global, "", now, answer);
      if d.Deny? { return Some(d.retryAfter); }
    }
    return None;
  }

  method ChargeAddress(limiter: LayeredRateLimiter, c: Settings, now: nat, answer: Decision, ip: Key, ghost s: Auth, ghost request: nat)
    returns (retryAfter: Option<nat>)
    requires Tracks(limiter, c, s) && c.perIp > 0 && request < |s.requests| && s.requests[request].ip == ip
    modifies limiter.l1
    ensures var s' := AfterCharge(c, s, ChargesIp(request, now, answer));
            Tracks(limiter, c, s') && (if retryAfter.None? then s'.through == s.through + [Passage(ip, now)] else s'.through == s.through)
    ensures RefusedFor(AddressVerdict(c, s, ip, now), answer, c.posture, retryAfter)
  {
    var d, _ := limiter.Check(PerIp, ip, now, answer);
    assert s.through + [] == s.through;
    return if d.Deny? then Some(d.retryAfter) else None;
  }

  /** One request with no other between its charges: it passes exactly when the events
      let it through. */
  method AuthRateLimit(limiter: LayeredRateLimiter, c: Settings, ip: Key, now: nat, globalAnswer: Decision, later: nat,
                       ipAnswer: Decision, ghost s: Auth) returns (retryAfter: Option<nat>)
    requires Tracks(limiter, c, s)
    modifies limiter.l1
    ensures var s' := AfterRequest(c, s, ip, now, globalAnswer, later, ipAnswer);
            && Tracks(limiter, c, s')
            && (if retryAfter.None? then exists at :: s'.through == s.through + [Passage(ip, at)] else s'.through == s.through)
    ensures var passed := c.global == 0 || LetsPass(GlobalVerdict(c, s, now), globalAnswer, c.posture);
            && (c.global > 0 && !passed ==> RefusedFor(GlobalVerdict(c, s, now), globalAnswer, c.posture, retryAfter))
            && (passed && c.perIp > 0 ==> RefusedFor(AddressVerdict(c, s, ip, later), ipAnswer, c.posture, retryAfter))
            && (passed && c.perIp == 0 ==> retryAfter == None)
  {
    ghost var arrived := AfterArrival(c, s, ip, now, globalAnswer);
    assert s.through + [] == s.through;
    retryAfter := ChargeGlobal(limiter, c, ip, now, globalAnswer, s);
    if retryAfter.None? && c.perIp > 0 {
      retryAfter := ChargeAddress(limiter, c, later, ipAnswer, ip, arrived, |s.requests|);
    }
  }

  predicate Enabled(s: Auth, e: AuthEvent) {
    e.ChargesIp? ==> e.request < |s.requests| && s.requests[e.request].pending
  }

  function AfterEvent(c: Settings, s: Auth, e: AuthEvent): Auth
    requires Enabled(s, e)
  {
    match e
    case Arrives(ip, now, l2) => AfterArrival(c, s, ip, now, l2)
    case ChargesIp(_, _, _) => AfterCharge(c, s, e)
  }

  ghost predicate AuthRun(c: Settings, states: seq<Auth>, events: seq<AuthEvent>) {
    && |states| == |events| + 1 && (exists at :: states[0] == Started(at))
    && forall i {:trigger events[i]} :: 0 <= i < |events| ==>
         Enabled(states[i], events[i]) && states[i + 1] == AfterEvent(c, states[i], events[i])
  }

  /** One more event after a run. */
  lemma RunGrows(c: Settings, states: seq<Auth>, events: seq<AuthEvent>, e: AuthEvent)
    requires AuthRun(c, states, events) && Enabled(states[|events|], e)
    ensures AuthRun(c, states + [AfterEvent(c, states[|events|], e)], events + [e])
  {
  }

  // ---------------------------------------------------- cost to the shared layer

  function Cost(requests: seq<Request>, window: nat): nat {
    if requests == [] then 0
    else
      var r := requests[|requests| - 1];
      Cost(requests[..|requests| - 1], window) + if r.window == window then r.cost else 0
  }

  function Population(requests: seq<Request>, window: nat): nat {
    if requests == [] then 0
    else
      var r := requests[|requests| - 1];
      Population(requests[..|requests| - 1], window) + if r.window == window then 1 else 0
  }

  predicate CostsOk(requests: seq<Request>) {
    forall i :: 0 <= i < |requests| ==> requests[i].cost + (if requests[i].pending then 1 else 0) <= 2
  }

  lemma {:induction false} CostIsDouble(requests: seq<Request>, window: nat)
    requires CostsOk(requests)
    ensures Cost(requests, window) <= 2 * Population(requests, window)
  {
    if requests != [] { CostIsDouble(requests[..|requests| - 1], window); }
  }

  lemma CostGrows(requests: seq<Request>, r: Request, window: nat)
    ensures Cost(requests + [r], window) == Cost(requests, window) + if r.window == window then r.cost else 0
  {
    assert (requests + [r])[..|requests|] == requests;
  }

  lemma {:induction false} PopulationKept(requests: seq<Request>, i: nat, r: Request, window: nat)
    requires i < |requests| && r.window == requests[i].window
    ensures Population(requests[i := r], window) == Population(requests, window)
  {
    var n := |requests| - 1;
    if i < n {
      PopulationKept(requests[..n], i, r, window);
      assert requests[i := r][..n] == requests[..n][i := r];
    } else {
      assert requests[i := r][..n] == requests[..n];
    }
  }

  lemma PopulationGrows(requests: seq<Request>, r: Request, window: nat)
    ensures Population(requests + [r], window) == Population(requests, window) + if r.window == window then 1 else 0
  {
    assert (requests + [r])[..|requests|] == requests;
  }

  lemma {:induction false} PopulationNone(requests: seq<Request>, window: nat)
    requires forall i :: 0 <= i < |requests| ==> requests[i].window < window
    ensures Population(requests, window) == 0
  {
    if requests != [] { PopulationNone(requests[..|requests| - 1], window); }
  }

  /** Windows only move on, and each admitted no more than it counted. */
  ghost predicate Populated(requests: seq<Request>, global: Bucket, limit: nat) {
    && global.count <= limit
    && (forall i :: 0 <= i < |requests| ==> requests[i].window <= global.windowStart)
    && Population(requests, global.windowStart) <= global.count
    && forall w :: Population(requests, w) <= limit
  }

  lemma RollPopulated(requests: seq<Request>, b: Bucket, limit: nat, now: nat)
    requires Populated(requests, b, limit)
    ensures Populated(requests, Roll(b, now), limit)
  {
    if Expired(b, now) { PopulationNone(requests, now); }
  }

  lemma ArrivalPopulated(requests: seq<Request>, b: Bucket, limit: nat, now: nat, r: Request)
    requires Populated(requests, b, limit) && r.window == Charged(b, limit, now).windowStart
    ensures Populated(if Judge(Roll(b, now), limit, now).Admit? then requests + [r] else requests, Charged(b, limit, now), limit)
  {
    RollPopulated(requests, b, limit, now);
    if Roll(b, now).count < limit {
      forall w
        ensures Population(requests + [r], w) == Population(requests, w) + if r.window == w then 1 else 0
      {
        PopulationGrows(requests, r, w);
      }
    }
  }

  // ----------------------------------------------------------- bound per address

  /** When requests from `ip` got through. */
  function TimesOf(through: seq<Passage>, ip: Key): seq<nat> {
    if through == [] then []
    else
      var last := through[|through| - 1];
      TimesOf(through[..|through| - 1], ip) + if last.ip == ip then [last.at] else []
  }

  lemma TimesGrow(through: seq<Passage>, p: Passage, ip: Key, t: int)
    ensures InSpan(TimesOf(through + [p], ip), t)
         == InSpan(TimesOf(through, ip), t) + if p.ip == ip && t <= p.at < t + WINDOW then 1 else 0
  {
    assert (through + [p])[..|through|] == through;
    var times := TimesOf(through, ip);
    assert times + [] == times;
    CountAppend(times, p.at, t, t + WINDOW);
  }

  lemma AdmissionsGrow(limit: nat, calls: seq<Call>, call: Call, ip: Key, t: int)
    requires call.Check?
    ensures InSpan(Admissions(limit, calls + [call], ip), t)
         == InSpan(Admissions(limit, calls, ip), t)
            + if call.key == ip && Answer(limit, Pruned(Run(limit, calls), call).buckets, call).Admit? && t <= call.now < t + WINDOW
              then 1 else 0
  {
    var all := calls + [call];
    assert all[..|all| - 1] == calls;
    var times := Admissions(limit, calls, ip);
    assert times + [] == times;
    CountAppend(times, call.now, t, t + WINDOW);
  }

  /** Every passage of an address was admitted by the first layer. */
  ghost predicate Screened(c: Settings, calls: seq<Call>, through: seq<Passage>) {
    forall ip, t :: InSpan(TimesOf(through, ip), t) <= InSpan(Admissions(c.perIp, calls, ip), t)
  }

  lemma ChargeScreened(c: Settings, s: Auth, e: AuthEvent)
    requires e.ChargesIp? && e.request < |s.requests| && s.ledger == Run(c.perIp, s.calls)
    requires Screened(c, s.calls, s.through)
    ensures Screened(c, AfterCharge(c, s, e).calls, AfterCharge(c, s, e).through)
  {
    var s' := AfterCharge(c, s, e);
    var call := RateLimiter.Check(s.requests[e.request].ip, e.now);
    assert s.through + [] == s.through;
    forall ip, t
      ensures InSpan(TimesOf(s'.through, ip), t) <= InSpan(Admissions(c.perIp, s'.calls, ip), t)
    {
      AdmissionsGrow(c.perIp, s.calls, call, ip, t);
      TimesGrow(s.through, Passage(call.key, e.now), ip, t);
      assert InSpan(TimesOf(s.through, ip), t) <= InSpan(Admissions(c.perIp, s.calls, ip), t);
    }
  }

  // ---------------------------------------------------------------- every event

  ghost predicate AuthInv(c: Settings, s: Auth) {
    && CostsOk(s.requests)
    && (GlobalMetered(c) ==> Populated(s.requests, s.global, c.global))
    && s.ledger == Run(c.perIp, s.calls)
    && (c.perIp > 0 ==> Screened(c, s.calls, s.through))
  }

  lemma ChargeKeeps(c: Settings, s: Auth, e: AuthEvent)
    requires AuthInv(c, s) && e.ChargesIp? && Enabled(s, e)
    ensures AuthInv(c, AfterCharge(c, s, e))
  {
    var s' := AfterCharge(c, s, e);
    assert s'.calls[..|s'.calls| - 1] == s.calls;
    if c.perIp > 0 { ChargeScreened(c, s, e); }
    if GlobalMetered(c) {
      forall w
        ensures Population(s'.requests, w) == Population(s.requests, w)
      {
        PopulationKept(s.requests, e.request, s'.requests[e.request], w);
      }
    }
  }

  lemma ArrivalKeeps(c: Settings, s: Auth, ip: Key, now: nat, l2: Decision)
    requires AuthInv(c, s)
    ensures AuthInv(c, AfterArrival(c, s, ip, now, l2))
  {
    var s' := AfterArrival(c, s, ip, now, l2);
    if GlobalMetered(c) {
      ArrivalPopulated(s.requests, s.global, c.global, now,
                       Request(ip, s'.global.windowStart, 1, GlobalDecision(c, s, now, l2) == Allow && c.perIp > 0));
    }
    assert s.through + [] == s.through;
  }

  lemma {:induction false} RunKeepsAuth(c: Settings, states: seq<Auth>, events: seq<AuthEvent>, k: nat)
    requires AuthRun(c, states, events) && k < |states|
    ensures AuthInv(c, states[k])
  {
    if k > 0 {
      RunKeepsAuth(c, states, events, k - 1);
      var s, e := states[k - 1], events[k - 1];
      match e {
        case Arrives(ip, now, l2) => ArrivalKeeps(c, s, ip, now, l2);
        case ChargesIp(_, _, _) => ChargeKeeps(c, s, e);
      }
    }
  }

  // ----------------------------------------------------------------- theorems

  /** What the first layer's global budget admits in one window asks the shared layer
      at most twice that budget, however requests interleave and whatever it answers. */
  lemma SharedLayerIsSpared(c: Settings, states: seq<Auth>, events: seq<AuthEvent>, k: nat, window: nat)
    requires AuthRun(c, states, events) && k < |states| && 0 < c.global < U32_MAX
    ensures Cost(states[k].requests, window) <= 2 * c.global
  {
    RunKeepsAuth(c, states, events, k);
    CostIsDouble(states[k].requests, window);
    assert Population(states[k].requests, window) <= c.global;
  }

  /** In any half-open span of 60 seconds an address gets through at most twice its
      limit, whatever the shared layer answers and however requests interleave. */
  lemma AddressBound(c: Settings, states: seq<Auth>, events: seq<AuthEvent>, k: nat, ip: Key, t: int)
    requires AuthRun(c, states, events) && k < |states| && 0 < c.perIp <= U32_MAX && InTime(states[k].calls)
    ensures InSpan(TimesOf(states[k].through, ip), t) <= 2 * c.perIp
  {
    RunKeepsAuth(c, states, events, k);
    SpanBound(c.perIp, states[k].calls, ip, t);
    assert InSpan(TimesOf(states[k].through, ip), t) <= InSpan(Admissions(c.perIp, states[k].calls, ip), t);
  }

  /** The state after `n` requests from one address at time zero that were all admitted. */
  predicate AllAdmitted(c: Settings, s: Auth, ip: Key, n: nat) {
    && s.global == Bucket(0, if GlobalMetered(c) then n else 0)
    && s.ledger == EMPTY_LEDGER
    && Cost(s.requests, 0) == (if c.global == 0 then 0 else n)
    && InSpan(TimesOf(s.through, ip), 0) == (if c.perIp == 0 then n else 0)
  }

  /** A request at time zero while the window has room, and the shared layer allows it. */
  lemma RoomAdmits(c: Settings, s: Auth, ip: Key)
    requires s.global.windowStart == 0 && (GlobalMetered(c) ==> s.global.count < c.global)
    ensures AfterArrival(c, s, ip, 0, Allow)
         == s.(global := if GlobalMetered(c) then Bucket(0, s.global.count + 1) else s.global,
               requests := s.requests + [Request(ip, 0, if c.global == 0 then 0 else 1, c.perIp > 0)],
               through := s.through + if c.perIp == 0 then [Passage(ip, 0)] else [])
  {
  }

  lemma AdmitOneMore(c: Settings, s: Auth, ip: Key, n: nat)
    requires AllAdmitted(c, s, ip, n) && (GlobalMetered(c) ==> n < c.global)
    ensures AllAdmitted(c, AfterArrival(c, s, ip, 0, Allow), ip, n + 1)
  {
    RoomAdmits(c, s, ip);
    CostGrows(s.requests, Request(ip, 0, if c.global == 0 then 0 else 1, c.perIp > 0), 0);
    TimesGrow(s.through, Passage(ip, 0), ip, 0);
    assert s.through + [] == s.through;
  }

  lemma {:induction false} AdmitAll(c: Settings, ip: Key, n: nat) returns (states: seq<Auth>, events: seq<AuthEvent>)
    requires GlobalMetered(c) ==> n <= c.global
    ensures AuthRun(c, states, events) && |states| == n + 1 && AllAdmitted(c, states[n], ip, n)
  {
    if n == 0 {
      states, events := [Started(0)], [];
    } else {
      states, events := AdmitAll(c, ip, n - 1);
      var e := Arrives(ip, 0, Allow);
      AdmitOneMore(c, states[n - 1], ip, n - 1);
      RunGrows(c, states, events, e);
      states, events := states + [AfterEvent(c, states[n - 1], e)], events + [e];
    }
  }

  /** The largest global budget means none: then any number of requests reach the shared
      layer in one window, so its bound needs that condition. */
  lemma UnmeteredReachesAll(c: Settings, n: nat) returns (states: seq<Auth>, events: seq<AuthEvent>)
    requires c.global == U32_MAX
    ensures AuthRun(c, states, events) && |states| == n + 1
    ensures states[n].global == Bucket(0, 0) && Cost(states[n].requests, 0) == n
  {
    states, events := AdmitAll(c, "", n);
  }

  /** No budget per address means no bound: then one address gets through, in one span,
      as often as the global budget admits, and any number of times without one. */
  lemma UnboundedAddress(c: Settings, ip: Key, n: nat) returns (states: seq<Auth>, events: seq<AuthEvent>)
    requires c.perIp == 0 && (0 < c.global < U32_MAX ==> n <= c.global)
    ensures AuthRun(c, states, events) && |states| == n + 1
    ensures InSpan(TimesOf(states[n].through, ip), 0) == n
  {
    states, events := AdmitAll(c, ip, n);
  }

  // ------------------------------------------------------- no global budget at all

  /** The `n`-th of infinitely many addresses. */
  function Nth(n: nat): (ip: Key)
    ensures |ip| == n
  {
    seq(n, _ => '1')
  }

  /** After `n` addresses have each made one request, all admitted at time zero. */
  predicate Spread(s: Auth, n: nat) {
    && s.global == Bucket(0, 0) && |s.requests| == n && Cost(s.requests, 0) == n
    && forall k :: k in s.ledger.buckets ==> |k| < n
  }

  lemma OneMoreAddress(c: Settings, s: Auth, n: nat)
    requires c.global == 0 && c.perIp > 0 && Spread(s, n)
    ensures var arrived := AfterEvent(c, s, Arrives(Nth(n), 0, Allow));
            Enabled(arrived, ChargesIp(n, 0, Allow)) && Spread(AfterEvent(c, arrived, ChargesIp(n, 0, Allow)), n + 1)
  {
    var arrived := AfterEvent(c, s, Arrives(Nth(n), 0, Allow));
    var charged := AfterEvent(c, arrived, ChargesIp(n, 0, Allow));
    assert charged.requests == s.requests + [Request(Nth(n), 0, 1, false)];
    CostGrows(s.requests, Request(Nth(n), 0, 1, false), 0);
  }

  /** Without a global budget any number of addresses reach the shared layer at once. */
  lemma {:induction false} NoCeilingReachesAll(c: Settings, n: nat) returns (states: seq<Auth>, events: seq<AuthEvent>)
    requires c.global == 0 && c.perIp > 0
    ensures AuthRun(c, states, events) && |states| == 2 * n + 1
    ensures Spread(states[2 * n], n) && Cost(states[2 * n].requests, 0) == n
  {
    if n == 0 {
      states, events := [Started(0)], [];
    } else {
      states, events := NoCeilingReachesAll(c, n - 1);
      var arrives, charges := Arrives(Nth(n - 1), 0, Allow), ChargesIp(n - 1, 0, Allow);
      var s := states[2 * n - 2];
      OneMoreAddress(c, s, n - 1);
      RunGrows(c, states, events, arrives);
      states, events := states + [AfterEvent(c, s, arrives)], events + [arrives];
      RunGrows(c, states, events, charges);
      states, events := states + [AfterEvent(c, states[2 * n - 1], charges)], events + [charges];
    }
  }
}
