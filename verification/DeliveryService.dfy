/** What is logged, who is registered, and who is offered what, over every run. */
module DeliveryService {

  import opened Machine
  import opened EventCaching
  import opened Subscription
  import opened Sessions
  import opened SessionInvariants
  import opened Delivery
  import opened DeliveryInvariants
  import opened DeliveryOutcomes
  import opened DeliveryCauses

  // ---------------------------------------------------------------------------------------------
  // The log, the registry and the broadcaster

  /** The batches among the log frames of a run: frames without events make none. */
  function Logged(steps: seq<Step>): seq<Batch> {
    if steps == [] then []
    else
      var step := steps[|steps| - 1];
      Logged(steps[..|steps| - 1]) + if step.LogFrame? && step.events != [] then [step.events] else []
  }

  function LogFrames(steps: seq<Step>): nat {
    if steps == [] then 0 else LogFrames(steps[..|steps| - 1]) + if steps[|steps| - 1].LogFrame? then 1 else 0
  }

  lemma LogNext(v: Server, step: Step)
    requires Sound(v) && Enabled(v, step)
    ensures Next(v, step).batches == v.batches + if step.LogFrame? && step.events != [] then [step.events] else []
    ensures Next(v, step).frames == v.frames + if step.LogFrame? then 1 else 0
  {
  }

  /** The server has broadcast, or is broadcasting, exactly the log's batches, in log order. */
  lemma {:induction false} BatchesAreLog(config: Config, steps: seq<Step>, v: Server)
    requires Run(config, steps) == Some(v)
    ensures v.batches == Logged(steps) && v.frames == LogFrames(steps)
  {
    if steps != [] {
      var front, step, before := Unsnoc(config, steps, v);
      BatchesAreLog(config, front, before);
      LogNext(before, step);
      assert steps[..|steps| - 1] == front;
    }
  }

  lemma {:induction false} CapacityStays(config: Config, steps: seq<Step>, v: Server)
    requires Reaches(config, steps, v)
    ensures v.cache.capacity == Min(config.keepHistory, 1_000_000)
  {
    if steps != [] {
      var front, step, before := Unsnoc(config, steps, v);
      CapacityStays(config, front, before);
      if step.LogFrame? {
        PushesKeepCapacity(before.cache, step.events);
      }
    }
  }

  lemma {:induction false} PushesKeepCapacity(c: Cache, es: seq<CachedEvent>)
    ensures PushAll(c, es).capacity == c.capacity
  {
    if es != [] {
      PushesKeepCapacity(c, es[..|es| - 1]);
    }
  }

  /** In every state the cache holds the last `keepHistory` events of the log, or the last million if more
      were asked for, or all there are. */
  lemma CacheIsRecentLog(config: Config, steps: seq<Step>, v: Server) returns (n: nat)
    requires Reaches(config, steps, v)
    ensures var h := Flatten(Logged(steps));
      n <= |h| && v.cache.buffer == h[n..] && |h| - n == Min(|h|, Min(config.keepHistory, 1_000_000))
  {
    RunKeeps(config, steps);
    BatchesAreLog(config, steps, v);
    CapacityStays(config, steps, v);
    n := Evicted(Flatten(v.batches), v.cache.capacity);
  }

  /** Whenever the broadcaster is idle, every registered session has been offered every batch logged since
      it joined, each once and in order. */
  lemma EveryoneIsOffered(config: Config, steps: seq<Step>, v: Server, a: nat)
    requires Reaches(config, steps, v) && v.broadcaster.Idle? && a in v.registry
    ensures a < |v.sessions|
    ensures var s := v.sessions[a];
      && s.joined + |s.attempts| == |Logged(steps)|
      && forall k :: 0 <= k < |s.attempts| ==> s.attempts[k].batch == Logged(steps)[s.joined + k]
  {
    RunKeeps(config, steps);
    BatchesAreLog(config, steps, v);
    At(v, a);
  }

  /** Step `i` of the run is an unregistration by the handler of client `a`. */
  predicate Unregisters(steps: seq<Step>, a: nat, i: nat) {
    i < |steps| && steps[i] == Handler(a, Unregister)
  }

  lemma ListedNext(v: Server, step: Step, a: nat)
    requires Sound(v) && Enabled(v, step) && a < |v.sessions|
    ensures a < |Next(v, step).sessions|
    ensures Listed(Next(v, step).sessions[a].phase) <==>
            Listed(v.sessions[a].phase) && step != Handler(a, Unregister)
  {
    if step.Handler? && step.a == a {
      OwnStep(v, a, step.act);
      ActListed(v.sessions[a], step.act, v.cache, |v.batches|, v.config.maxFrame);
    } else {
      OthersLeave(v, step, a);
    }
  }

  lemma {:induction false} ListedIff(config: Config, steps: seq<Step>, v: Server, a: nat)
    requires Run(config, steps) == Some(v) && a < |v.sessions|
    ensures Listed(v.sessions[a].phase) <==> forall i: nat :: !Unregisters(steps, a, i)
  {
    if steps != [] {
      var front, step, before := Unsnoc(config, steps, v);
      if a < |before.sessions| {
        ListedIff(config, front, before, a);
        ListedNext(before, step, a);
      } else {
        JoinsUntold(before, step, a);
        NobodyUnregisters(config, front, before, a);
      }
      assert forall i: nat :: i < |front| ==> (Unregisters(steps, a, i) <==> Unregisters(front, a, i));
      assert Unregisters(steps, a, |front|) <==> step == Handler(a, Unregister);
    }
  }

  lemma {:induction false} NobodyUnregisters(config: Config, steps: seq<Step>, v: Server, a: nat)
    requires Run(config, steps) == Some(v) && |v.sessions| <= a
    ensures forall i: nat :: !Unregisters(steps, a, i)
  {
    if steps != [] {
      var front, step, before := Unsnoc(config, steps, v);
      NextConfig(before, step);
      NobodyUnregisters(config, front, before, a);
      assert forall i: nat :: i < |front| ==> (Unregisters(steps, a, i) <==> Unregisters(front, a, i));
    }
  }

  /** A session is registered if and only if its handler has not unregistered it. */
  lemma RegisteredIff(config: Config, steps: seq<Step>, v: Server, a: nat)
    requires Reaches(config, steps, v) && a < |v.sessions|
    ensures a in v.registry <==> forall i: nat :: !Unregisters(steps, a, i)
  {
    RunKeeps(config, steps);
    ListedIff(config, steps, v, a);
  }

  lemma {:induction false} RemovalShrinks(registry: seq<nat>, sessions: seq<Session>, id: nat)
    requires forall i :: 0 <= i < |registry| ==> registry[i] < |sessions|
    ensures |RemoveId(registry, sessions, id)| <= |registry|
  {
    if registry != [] {
      RemovalShrinks(registry[..|registry| - 1], sessions, id);
    }
  }

  lemma CapacityNext(v: Server, step: Step)
    requires Sound(v) && Enabled(v, step)
    requires v.config.maxSubscribers != 0 ==> |v.registry| <= v.config.maxSubscribers
    ensures v.config.maxSubscribers != 0 ==> |Next(v, step).registry| <= v.config.maxSubscribers
  {
    if step.Handler? {
      RemovalShrinks(v.registry, v.sessions, v.sessions[step.a].handle.id);
    }
  }

  /** The registry never outgrows its limit; a limit of zero is none. */
  lemma {:induction false} RegistryStaysBounded(config: Config, steps: seq<Step>, v: Server)
    requires Run(config, steps) == Some(v)
    ensures v.config == config
    ensures config.maxSubscribers != 0 ==> |v.registry| <= config.maxSubscribers
  {
    if steps != [] {
      var front, step, before := Unsnoc(config, steps, v);
      RegistryStaysBounded(config, front, before);
      CapacityNext(before, step);
      NextConfig(before, step);
    }
  }

  /** A registration makes a session if and only if there is room for one more. */
  lemma AdmittedIff(config: Config, steps: seq<Step>, v: Server, depth: nat, maxLag: nat, from: U64)
    requires Reaches(config, steps, v)
    ensures Sound(v)
    ensures |Next(v, Register(depth, maxLag, from)).sessions| > |v.sessions| <==>
            config.maxSubscribers == 0 || |v.registry| < config.maxSubscribers
  {
    RunKeeps(config, steps);
    InvIsSound(v);
    RegistryStaysBounded(config, steps, v);
  }

  // ---------------------------------------------------------------------------------------------
  // Registrations

  /** What a registration fixes for good. */
  ghost predicate Started(config: Config, steps: seq<Step>, a: nat, i: nat, s: Session) {
    && i < |steps| && steps[i].Register? && Run(config, steps[..i]).Some?
    && var v := Run(config, steps[..i]).value;
       && |v.sessions| == a && s.joined == |v.batches|
       && s.resumeFrom == steps[i].resumeFrom
       && s.handle.id == a + 1
       && (steps[i].depth == 0 ==> s.handle.depth == 1)
       && (1 <= steps[i].depth <= 65_536 ==> s.handle.depth == steps[i].depth)
       && (steps[i].depth > 65_536 ==> s.handle.depth == 65_536)
       && (steps[i].maxLag <= 1_000_000 ==> s.handle.maxLag == steps[i].maxLag)
       && (steps[i].maxLag > 1_000_000 ==> s.handle.maxLag == 1_000_000)
  }

  ghost predicate SameTerms(s: Session, s': Session) {
    && s'.joined == s.joined && s'.resumeFrom == s.resumeFrom
    && s'.handle.id == s.handle.id && s'.handle.depth == s.handle.depth && s'.handle.maxLag == s.handle.maxLag
  }

  lemma ActKeepsTerms(s: Session, act: Action, cache: Cache, snap: nat, maxFrame: nat)
    requires CanAct(s, act, maxFrame)
    ensures SameTerms(s, Act(s, act, cache, snap, maxFrame))
  {
  }

  lemma TermsStay(v: Server, step: Step, a: nat)
    requires Sound(v) && Enabled(v, step) && a < |v.sessions|
    ensures a < |Next(v, step).sessions| && SameTerms(v.sessions[a], Next(v, step).sessions[a])
  {
    if step.Handler? && step.a == a {
      OwnStep(v, a, step.act);
      ActKeepsTerms(v.sessions[a], step.act, v.cache, |v.batches|, v.config.maxFrame);
    }
  }

  lemma StartedNow(config: Config, front: seq<Step>, step: Step, v: Server, a: nat)
    requires Run(config, front) == Some(v) && Sound(v) && Enabled(v, step)
    requires |v.sessions| <= a < |Next(v, step).sessions|
    ensures Started(config, front + [step], a, |front|, Next(v, step).sessions[a])
  {
    assert (front + [step])[..|front|] == front;
  }

  /** Every session began with a registration: its bound, its place in the log, its id and its clamped
      limits are those of that step, and stay so. */
  lemma {:induction false} StartedByRegister(config: Config, steps: seq<Step>, v: Server, a: nat) returns (i: nat)
    requires Run(config, steps) == Some(v) && a < |v.sessions|
    ensures Started(config, steps, a, i, v.sessions[a])
  {
    var front, step, before := Unsnoc(config, steps, v);
    if a < |before.sessions| {
      i := StartedByRegister(config, front, before, a);
      assert steps[..i] == front[..i];
      TermsStay(before, step, a);
    } else {
      i := |front|;
      StartedNow(config, front, step, before, a);
    }
  }
}
