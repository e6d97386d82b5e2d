/** The whole event-subscription server as a state machine: the extractor thread with its broadcast
    loop, any number of connection handlers, and any number of shutdown requests, interleaved in every
    possible way (runtime/knomosis-event-subscribe/src/server.rs, subscription.rs, event_cache.rs).

    Threads share memory with sequential consistency. The extractor pushes a frame's events and
    broadcasts them under one hold of the cache lock, so handlers query the cache only while the
    broadcaster is idle. */
module Delivery {

  import opened Machine
  import opened EventCaching
  import opened Subscription
  import opened Sessions
  import opened LagPolicy

  datatype Config = Config(keepHistory: nat, maxFrame: nat, maxSubscribers: nat)

  datatype Stage = Checking | Sending | Accounting(result: SendResult)

  /** `Busy` holds the cache lock and still has the subscribers at `todo` to visit. */
  datatype Broadcaster = Idle | Busy(todo: seq<nat>, stage: Stage)

  datatype FlagStage = Looking | Flagging | Signalling

  /** A thread running `request_shutdown` over `targets`, of which those at `todo` are still ahead. */
  datatype Shutter = Shutter(targets: seq<nat>, todo: seq<nat>, stage: FlagStage, done: seq<nat>)

  /** Sessions are never forgotten: `sessions[a]` is the object at address `a`, and `registry` lists
      the addresses currently registered. */
  datatype Server = Server(
    config: Config,
    frames: nat,
    batches: seq<Batch>,
    cache: Cache,
    sessions: seq<Session>,
    registry: seq<nat>,
    broadcaster: Broadcaster,
    shutters: seq<Shutter>)

  datatype Step =
    | LogFrame(events: seq<CachedEvent>)
    | Broadcast
    | Register(depth: nat, maxLag: nat, resumeFrom: U64)
    | Handler(a: nat, act: Action)
    | RequestAll
    | RequestOne(a: nat)
    | Shut(k: nat)

  function Start(config: Config): Server {
    Server(config, 0, [], NewCache(config.keepHistory), [], [], Idle, [])
  }

  predicate Enabled(v: Server, step: Step) {
    match step
    case LogFrame(events) =>
      // The tail reader numbers frames consecutively from 1 and the extractor stamps every event of a
      // frame with the frame's number; 2^64 - 1 is reserved.
      && v.broadcaster.Idle?
      && v.frames + 1 < FROM_OLDEST
      && forall i :: 0 <= i < |events| ==> events[i].seqno == v.frames + 1
    case Broadcast => v.broadcaster.Busy?
    case Register(_, _, _) => true
    case Handler(a, act) =>
      && a < |v.sessions|
      && CanAct(v.sessions[a], act, v.config.maxFrame)
      && (act.ReadCache? ==> v.broadcaster.Idle?)
    case RequestAll => true
    case RequestOne(a) => a < |v.sessions|
    case Shut(k) => k < |v.shutters| && v.shutters[k].todo != []
  }

  function With(v: Server, a: nat, s: Session): Server
    requires a < |v.sessions|
  {
    v.(sessions := v.sessions[a := s])
  }

  function LogFrameStep(v: Server, events: seq<CachedEvent>): Server {
    var v' := v.(frames := v.frames + 1, cache := PushAll(v.cache, events));
    if events == [] then v'
    else v'.(batches := v.batches + [events], broadcaster := Busy(v.registry, Checking))
  }

  function BroadcastStep(v: Server): Server
    requires v.broadcaster.Busy? && v.batches != []
    requires v.broadcaster.todo != [] ==> v.broadcaster.todo[0] < |v.sessions|
  {
    var b := v.batches[|v.batches| - 1];
    var todo := v.broadcaster.todo;
    if todo == [] then v.(broadcaster := Idle)
    else
      var s := v.sessions[todo[0]];
      match v.broadcaster.stage
      case Checking =>
        if s.handle.disconnected then
          With(v, todo[0], Skipped(s, b)).(broadcaster := Busy(todo[1..], Checking))
        else
          v.(broadcaster := Busy(todo, Sending))
      case Sending =>
        With(v, todo[0], Offered(s, b)).(broadcaster := Busy(todo, Accounting(TrySend(s.handle, Live(b)).1)))
      case Accounting(r) =>
        With(v, todo[0], Accounted(s, r)).(broadcaster := Busy(todo[1..], Checking))
  }

  /** Ids count up from 1 in step with the addresses; a full registry refuses. */
  function RegisterStep(v: Server, depth: nat, maxLag: nat, resumeFrom: U64): Server {
    if v.config.maxSubscribers != 0 && |v.registry| >= v.config.maxSubscribers then v
    else
      var s := NewSession(NewHandle(|v.sessions| + 1, depth, maxLag), resumeFrom, |v.batches|);
      v.(sessions := v.sessions + [s], registry := v.registry + [|v.sessions|])
  }

  /** `retain(|s| s.id != id)` */
  function RemoveId(registry: seq<nat>, sessions: seq<Session>, id: nat): seq<nat>
    requires forall i :: 0 <= i < |registry| ==> registry[i] < |sessions|
  {
    if registry == [] then []
    else
      var a := registry[|registry| - 1];
      RemoveId(registry[..|registry| - 1], sessions, id) + if sessions[a].handle.id != id then [a] else []
  }

  function HandlerStep(v: Server, a: nat, act: Action): Server
    requires a < |v.sessions| && CanAct(v.sessions[a], act, v.config.maxFrame)
    requires forall i :: 0 <= i < |v.registry| ==> v.registry[i] < |v.sessions|
  {
    var v' := With(v, a, Act(v.sessions[a], act, v.cache, |v.batches|, v.config.maxFrame));
    if act.Unregister? then v'.(registry := RemoveId(v.registry, v.sessions, v.sessions[a].handle.id)) else v'
  }

  function ShutStep(v: Server, k: nat): Server
    requires k < |v.shutters| && v.shutters[k].todo != [] && v.shutters[k].todo[0] < |v.sessions|
  {
    var Shutter(targets, todo, stage, done) := v.shutters[k];
    var a := todo[0];
    var s := v.sessions[a];
    match stage
    case Looking =>
      v.(shutters := v.shutters[k :=
        if s.handle.disconnected then Shutter(targets, todo[1..], Looking, done + [a])
        else Shutter(targets, todo, Flagging, done)])
    case Flagging =>
      With(v, a, s.(handle := RaiseFlag(s.handle)))
        .(shutters := v.shutters[k := Shutter(targets, todo, Signalling, done)])
    case Signalling =>
      With(v, a, s.(handle := SendSentinel(s.handle).0))
        .(shutters := v.shutters[k := Shutter(targets, todo[1..], Looking, done + [a])])
  }

  /** The addresses held by the registry and the threads exist. Every state of every run is sound; the
      predicate is here only to make `Next` total on the states it is applied to. */
  ghost predicate Sound(v: Server) {
    && (v.broadcaster.Busy? ==> v.batches != [])
    && (v.broadcaster.Busy? && v.broadcaster.todo != [] ==> v.broadcaster.todo[0] < |v.sessions|)
    && (forall i :: 0 <= i < |v.registry| ==> v.registry[i] < |v.sessions|)
    && (forall k :: 0 <= k < |v.shutters| && v.shutters[k].todo != [] ==> v.shutters[k].todo[0] < |v.sessions|)
  }

  ghost function Next(v: Server, step: Step): Server
    requires Sound(v) && Enabled(v, step)
  {
    match step
    case LogFrame(events) => LogFrameStep(v, events)
    case Broadcast => BroadcastStep(v)
    case Register(depth, maxLag, resumeFrom) => RegisterStep(v, depth, maxLag, resumeFrom)
    case Handler(a, act) => HandlerStep(v, a, act)
    case RequestAll => v.(shutters := v.shutters + [Shutter(v.registry, v.registry, Looking, [])])
    case RequestOne(a) => v.(shutters := v.shutters + [Shutter([a], [a], Looking, [])])
    case Shut(k) => ShutStep(v, k)
  }

  /** The states a server passes through as it takes the given steps; `None` once a step is not
      enabled. */
  ghost function Run(config: Config, steps: seq<Step>): Option<Server> {
    if steps == [] then Some(Start(config))
    else
      var before := Run(config, steps[..|steps| - 1]);
      var step := steps[|steps| - 1];
      if before.Some? && Sound(before.value) && Enabled(before.value, step)
      then Some(Next(before.value, step))
      else None
  }
}
