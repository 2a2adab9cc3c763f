/** The blocking structure of the daemon: server, radio and timer thread over
    their mutexes and the promise of a queued frame. A server thread waits for a
    promise while holding the client-list mutex the radio thread needs to
    broadcast (server.cpp, sirserver.cpp, sircon.cpp, ctimer.cpp). */
module Threads {
  import opened Scp
  import Framer
  import E = Endpoint

  datatype Lock =
    | MUTEX          // SERVER::m_mutex, the client list
    | QUEUE_MUTEX    // CSirServer::m_queue_mutex, the control queue
    | QUEUE_LOCK     // CSirCon::m_queue_lock, the frame queue
    | CACHE_LOCK     // CSirCon::m_cache_lock, cached radio state
    | CRITSECT       // CTimer::m_critsect, the timer list

  datatype Thread = SERVER | RADIO | TIMER

  datatype ServerPc =
    | Idle
    | WantClients
    | Serving
    | WantQueue(data: Payload)
    | Pushed(id: nat)
    | Awaiting(id: nat)
    | WantControl
    | InControl
    | WantCheck
    | InCheck
  {
    function Held(): set<Lock> {
      match this
      case Idle => {}
      case WantClients => {}
      case Pushed(_) => {MUTEX, QUEUE_LOCK}
      case InControl => {MUTEX, QUEUE_MUTEX}
      case InCheck => {MUTEX, CACHE_LOCK}
      case _ => {MUTEX}
    }

    function Wants(): Option<Lock> {
      match this
      case WantClients => Some(MUTEX)
      case WantQueue(_) => Some(QUEUE_LOCK)
      case WantControl => Some(QUEUE_MUTEX)
      case WantCheck => Some(CACHE_LOCK)
      case _ => None
    }
  }

  datatype RadioPc =
    | Reading
    | WantAck(frame: Frame)
    | InAck
    | Dispatching
    | WantBroadcast
    | Broadcasting
    | WantCache
    | Caching
    | CachedWantBroadcast
    | CachedBroadcasting
    | WantSend(data: Payload)
    | InSend
  {
    function Held(): set<Lock> {
      match this
      case InAck => {QUEUE_LOCK}
      case InSend => {QUEUE_LOCK}
      case Broadcasting => {MUTEX}
      case Caching => {CACHE_LOCK}
      case CachedWantBroadcast => {CACHE_LOCK}
      case CachedBroadcasting => {CACHE_LOCK, MUTEX}
      case _ => {}
    }

    function Wants(): Option<Lock> {
      match this
      case WantAck(_) => Some(QUEUE_LOCK)
      case WantSend(_) => Some(QUEUE_LOCK)
      case WantBroadcast => Some(MUTEX)
      case CachedWantBroadcast => Some(MUTEX)
      case WantCache => Some(CACHE_LOCK)
      case _ => None
    }
  }

  datatype TimerPc = Sleeping | WantTimers | Firing | WantFrames | InFrames | Fired
  {
    function Held(): set<Lock> {
      match this
      case Sleeping => {}
      case WantTimers => {}
      case InFrames => {CRITSECT, QUEUE_LOCK}
      case _ => {CRITSECT}
    }

    function Wants(): Option<Lock> {
      match this
      case WantTimers => Some(CRITSECT)
      case WantFrames => Some(QUEUE_LOCK)
      case _ => None
    }
  }

  /** heard is the data frame the radio thread is dispatching, if any. */
  datatype Sys = Sys(ep: E.Endpoint, heard: Option<Frame>, srv: ServerPc, rad: RadioPc, tim: TimerPc)

  const INIT := Sys(E.INIT, None, Idle, Reading, Sleeping)

  /** Where a thread has a choice, what it goes on to do. */
  datatype Choice = REQUEST(data: Payload) | CONTROL | CHECK | BROADCAST | CACHE | HEAR(frame: Frame) | DONE

  function Held(s: Sys, t: Thread): set<Lock> {
    match t
    case SERVER => s.srv.Held()
    case RADIO => s.rad.Held()
    case TIMER => s.tim.Held()
  }

  function Wants(s: Sys, t: Thread): Option<Lock> {
    match t
    case SERVER => s.srv.Wants()
    case RADIO => s.rad.Wants()
    case TIMER => s.tim.Wants()
  }

  predicate Free(s: Sys, l: Lock) {
    l !in s.srv.Held() && l !in s.rad.Held() && l !in s.tim.Held()
  }

  /** The promise the server thread is waiting for has not been set. */
  predicate Unresolved(s: Sys) { s.srv.Awaiting? && E.Waiting(s.ep, s.srv.id) }

  predicate Enabled(s: Sys, t: Thread) {
    && (Wants(s, t).Some? ==> Free(s, Wants(s, t).value))
    && (t.SERVER? ==> !Unresolved(s))
  }

  /** What TimerProc does once it has looked at the busy timer and found it 0,
      whatever became of it since. */
  function FramesTick(e: E.Endpoint): E.Endpoint {
    E.OnTick(e.(busyTimer := 0)).ep.(busyTimer := e.busyTimer)
  }

  /** checks says whether command handlers consult CSirCon::IsValidChannel. In
      this repository none does. */
  function ServerStep(checks: bool, s: Sys, c: Choice): Sys {
    match s.srv
    case Idle => s.(srv := WantClients)
    case WantClients => s.(srv := Serving)
    case Serving =>
      (match c
       case REQUEST(data) => s.(srv := WantQueue(data))
       case CONTROL => s.(srv := WantControl)
       case CHECK => if checks then s.(srv := WantCheck) else s
       case _ => s.(srv := Idle))
    case WantQueue(data) => s.(srv := Pushed(s.ep.sent), ep := E.OnRequest(s.ep, data).ep)
    case Pushed(id) => s.(srv := Awaiting(id))
    case Awaiting(_) => s.(srv := Serving)
    case WantControl => s.(srv := InControl)
    case InControl => s.(srv := Serving)
    case WantCheck => s.(srv := InCheck)
    case InCheck => s.(srv := Serving)
  }

  /** The sequence number is noted, and the back-off ended, once the dispatch of
      a frame has returned. */
  function Dispatched(s: Sys): Sys {
    match s.heard
    case None => s
    case Some(f) => s.(heard := None, ep := E.OnDataFrame(s.ep, f).ep)
  }

  function RadioStep(s: Sys, c: Choice): Sys {
    match s.rad
    case Reading =>
      (match c
       case HEAR(f) =>
         if HasAck(f.flags) then s.(rad := WantAck(f))
         else if f.seqno == s.ep.lastSeq then s.(ep := E.OnDataFrame(s.ep, f).ep)
         else s.(rad := Dispatching, heard := Some(f))
       case REQUEST(data) => s.(rad := WantSend(data))
       case _ => s)
    case WantAck(f) => s.(rad := InAck, ep := E.OnAckFrame(s.ep, f).ep)
    case InAck => s.(rad := Reading)
    case Dispatching =>
      (match c
       case BROADCAST => s.(rad := WantBroadcast)
       case CACHE => s.(rad := WantCache)
       case REQUEST(data) => s.(rad := WantSend(data))
       case _ => Dispatched(s).(rad := Reading))
    case WantBroadcast => s.(rad := Broadcasting)
    case Broadcasting => s.(rad := Dispatching)
    case WantCache => s.(rad := Caching)
    case Caching => if c.BROADCAST? then s.(rad := CachedWantBroadcast) else s.(rad := Dispatching)
    case CachedWantBroadcast => s.(rad := CachedBroadcasting)
    case CachedBroadcasting => s.(rad := Caching)
    case WantSend(data) => s.(rad := InSend, ep := E.OnRequest(s.ep, data).ep)
    case InSend => s.(rad := Dispatching)
  }

  function TimerStep(s: Sys): Sys {
    match s.tim
    case Sleeping => s.(tim := WantTimers)
    case WantTimers => s.(tim := Firing)
    case Firing =>
      if s.ep.busyTimer > 0 then s.(tim := Fired, ep := E.OnTick(s.ep).ep) else s.(tim := WantFrames)
    case WantFrames => s.(tim := InFrames, ep := FramesTick(s.ep))
    case InFrames => s.(tim := Fired)
    case Fired => s.(tim := Sleeping)
  }

  datatype Move = Move(thread: Thread, choice: Choice)

  /** A blocked thread stays where it is. */
  function Step(checks: bool, s: Sys, m: Move): Sys {
    if !Enabled(s, m.thread) then s
    else
      match m.thread
      case SERVER => ServerStep(checks, s, m.choice)
      case RADIO => RadioStep(s, m.choice)
      case TIMER => TimerStep(s)
  }

  function RunFrom(checks: bool, s: Sys, ms: seq<Move>): Sys {
    if ms == [] then s else Step(checks, RunFrom(checks, s, ms[..|ms| - 1]), ms[|ms| - 1])
  }

  // --------------------------------------------------------------- invariant

  ghost predicate Exclusive(s: Sys) {
    s.srv.Held() !! s.rad.Held() && s.srv.Held() !! s.tim.Held() && s.rad.Held() !! s.tim.Held()
  }

  /** The frame queue is sound; the server waits for promises that were handed
      out; the radio thread tells data from acknowledgements. */
  ghost predicate Ordered(s: Sys) {
    && E.Sound(s.ep)
    && ((s.srv.Pushed? || s.srv.Awaiting?) ==> s.srv.id < s.ep.sent)
    && (s.rad.WantAck? ==> HasAck(s.rad.frame.flags))
    && (s.heard.Some? ==> !HasAck(s.heard.value.flags))
  }

  /** No mutex has two owners, and the rest is in order. */
  ghost predicate Inv(s: Sys) { Exclusive(s) && Ordered(s) }

  lemma FramesTickSound(e: E.Endpoint)
    requires E.Sound(e)
    ensures E.Sound(FramesTick(e)) && FramesTick(e).sent == e.sent
  {
    var h :| E.Inv(e, h);
    var e0 := e.(busyTimer := 0);
    assert E.Inv(e0, h);
    E.TickKeepsInv(e0, h);
    var h' := E.RecordAll(h, E.OnTick(e0).out);
    assert E.Inv(FramesTick(e), h');
  }

  lemma EndpointStep(e: E.Endpoint, i: E.Input)
    requires E.Sound(e)
    ensures E.Sound(E.Step(e, i).ep) && e.sent <= E.Step(e, i).ep.sent
    ensures i.Request? ==> E.Step(e, i).ep.sent == e.sent + 1
  {
    E.StepSound(e, i);
  }

  lemma ServerKeepsInv(checks: bool, s: Sys, c: Choice)
    requires Inv(s) && Enabled(s, SERVER)
    ensures Inv(ServerStep(checks, s, c))
  {
    ServerExclusive(checks, s, c);
    if s.srv.WantQueue? {
      RequestKeepsSound(s.ep, s.srv.data);
    }
  }

  lemma ServerExclusive(checks: bool, s: Sys, c: Choice)
    requires Exclusive(s) && Enabled(s, SERVER)
    ensures Exclusive(ServerStep(checks, s, c))
  {
  }

  lemma RadioExclusive(s: Sys, c: Choice)
    requires Exclusive(s) && Enabled(s, RADIO)
    ensures Exclusive(RadioStep(s, c))
  {
  }

  lemma DataKeepsSound(e: E.Endpoint, f: Frame)
    requires E.Sound(e) && !HasAck(f.flags)
    ensures E.Sound(E.OnDataFrame(e, f).ep) && E.OnDataFrame(e, f).ep.sent == e.sent
  {
    EndpointStep(e, E.Receive(Framer.Accept(f)));
  }

  lemma AckKeepsSound(e: E.Endpoint, f: Frame)
    requires E.Sound(e) && HasAck(f.flags)
    ensures E.Sound(E.OnAckFrame(e, f).ep) && E.OnAckFrame(e, f).ep.sent == e.sent
  {
    EndpointStep(e, E.Receive(Framer.Accept(f)));
  }

  lemma RequestKeepsSound(e: E.Endpoint, data: Payload)
    requires E.Sound(e)
    ensures E.Sound(E.OnRequest(e, data).ep) && E.OnRequest(e, data).ep.sent == e.sent + 1
  {
    EndpointStep(e, E.Request(data));
  }

  lemma RadioKeepsInv(s: Sys, c: Choice)
    requires Inv(s) && Enabled(s, RADIO)
    ensures Inv(RadioStep(s, c))
  {
    RadioExclusive(s, c);
    RadioOrdered(s, c);
  }

  lemma RadioOrdered(s: Sys, c: Choice)
    requires Ordered(s)
    ensures Ordered(RadioStep(s, c))
  {
    match s.rad
    case WantAck(f) => AckKeepsSound(s.ep, f);
    case WantSend(data) => RequestKeepsSound(s.ep, data);
    case Reading =>
      if c.HEAR? && !HasAck(c.frame.flags) {
        DataKeepsSound(s.ep, c.frame);
      }
    case Dispatching =>
      if s.heard.Some? {
        DataKeepsSound(s.ep, s.heard.value);
      }
    case _ =>
  }

  lemma TimerKeepsInv(s: Sys)
    requires Inv(s) && Enabled(s, TIMER)
    ensures Inv(TimerStep(s))
  {
    if s.tim.Firing? {
      EndpointStep(s.ep, E.Tick);
    } else if s.tim.WantFrames? {
      FramesTickSound(s.ep);
    }
  }

  lemma StepKeepsInv(checks: bool, s: Sys, m: Move)
    requires Inv(s)
    ensures Inv(Step(checks, s, m))
  {
    if Enabled(s, m.thread) {
      match m.thread
      case SERVER => ServerKeepsInv(checks, s, m.choice);
      case RADIO => RadioKeepsInv(s, m.choice);
      case TIMER => TimerKeepsInv(s);
    }
  }

  lemma InitInv()
    ensures Inv(INIT)
  {
    assert E.Inv(E.INIT, E.NO_HIST);
  }

  /** The invariant behind everything below: over every interleaving from the
      start no mutex has two owners, the frame queue is sound, and the server
      waits only for promises that were handed out. */
  lemma {:induction false} MutualExclusion(checks: bool, ms: seq<Move>)
    ensures Inv(RunFrom(checks, INIT, ms))
  {
    if ms == [] {
      InitInv();
    } else {
      MutualExclusion(checks, ms[..|ms| - 1]);
      StepKeepsInv(checks, RunFrom(checks, INIT, ms[..|ms| - 1]), ms[|ms| - 1]);
    }
  }

  /** The server thread is going through the client list, or waits within it. */
  predicate WithClients(s: Sys) { !s.srv.Idle? && !s.srv.WantClients? }

  predicate RadioBroadcasts(s: Sys) { s.rad.Broadcasting? || s.rad.CachedBroadcasting? }

  predicate RadioInCache(s: Sys) { s.rad.Caching? || s.rad.CachedWantBroadcast? || s.rad.CachedBroadcasting? }

  predicate RadioInQueue(s: Sys) { s.rad.InAck? || s.rad.InSend? }

  /** What the mutexes are for, in terms of what the threads are doing: over every
      interleaving from the start the client list is never walked by two threads,
      the frame queue never worked by two, the cached state never read while it is
      changed. */
  lemma NeverTogether(checks: bool, ms: seq<Move>)
    ensures var s := RunFrom(checks, INIT, ms);
            && !(WithClients(s) && RadioBroadcasts(s))
            && !(s.srv.Pushed? && RadioInQueue(s)) && !(s.srv.Pushed? && s.tim.InFrames?)
            && !(RadioInQueue(s) && s.tim.InFrames?)
            && !(s.srv.InCheck? && RadioInCache(s))
  {
    MutualExclusion(checks, ms);
  }

  /** Who has to wait does: the server for its promise, the radio thread for the
      client list while the server is in it, everyone for the frame queue. */
  lemma WaitersStay(checks: bool, s: Sys, c: Choice)
    ensures Unresolved(s) ==> Step(checks, s, Move(SERVER, c)) == s
    ensures (s.rad.WantBroadcast? || s.rad.CachedWantBroadcast?) && WithClients(s) ==>
              Step(checks, s, Move(RADIO, c)) == s
    ensures s.srv.WantClients? && RadioBroadcasts(s) ==> Step(checks, s, Move(SERVER, c)) == s
    ensures s.srv.WantQueue? && (RadioInQueue(s) || s.tim.InFrames?) ==> Step(checks, s, Move(SERVER, c)) == s
    ensures (s.rad.WantAck? || s.rad.WantSend?) && (s.srv.Pushed? || s.tim.InFrames?) ==>
              Step(checks, s, Move(RADIO, c)) == s
    ensures s.tim.WantFrames? && (s.srv.Pushed? || RadioInQueue(s)) ==> Step(checks, s, Move(TIMER, c)) == s
  {
  }

  /** An acknowledgement of the head frame releases the server that waits for it,
      as soon as the radio thread can take the frame queue. */
  lemma AckReleases(checks: bool, s: Sys, c: Choice)
    requires Inv(s) && Unresolved(s) && s.rad.WantAck? && Enabled(s, RADIO)
    requires s.srv.id == s.ep.queue[0].id && s.rad.frame.seqno == s.ep.queue[0].frame.seqno
    requires E.IsPositive(s.rad.frame.flags)
    ensures var t := Step(checks, s, Move(RADIO, c));
            Enabled(t, SERVER) && Step(checks, t, Move(SERVER, c)).srv == Serving
  {
    var h :| E.Inv(s.ep, h);
  }

  lemma OneMoreMove(checks: bool, ms: seq<Move>, m: Move, s: Sys, t: Sys) returns (more: seq<Move>)
    requires RunFrom(checks, INIT, ms) == s && Step(checks, s, m) == t
    ensures RunFrom(checks, INIT, more) == t
  {
    more := ms + [m];
    assert more[..|ms|] == ms;
  }

  const HEARD := Frame(0, 0, [])

  const AWAITING := INIT.(srv := Awaiting(0), ep := E.OnRequest(E.INIT, []).ep)

  lemma ServerAsks(checks: bool) returns (ms: seq<Move>)
    ensures RunFrom(checks, INIT, ms) == INIT.(srv := WantQueue([]))
  {
    var go, ask := Move(SERVER, DONE), Move(SERVER, REQUEST([]));
    ms := OneMoreMove(checks, [], go, INIT, INIT.(srv := WantClients));
    ms := OneMoreMove(checks, ms, go, INIT.(srv := WantClients), INIT.(srv := Serving));
    ms := OneMoreMove(checks, ms, ask, INIT.(srv := Serving), INIT.(srv := WantQueue([])));
  }

  lemma ServerAwaits(checks: bool) returns (ms: seq<Move>)
    ensures RunFrom(checks, INIT, ms) == AWAITING
  {
    var go := Move(SERVER, DONE);
    ms := ServerAsks(checks);
    ms := OneMoreMove(checks, ms, go, INIT.(srv := WantQueue([])), AWAITING.(srv := Pushed(0)));
    ms := OneMoreMove(checks, ms, go, AWAITING.(srv := Pushed(0)), AWAITING);
  }

  /** From anywhere the radio thread is reading, it hears a frame and sets out to
      broadcast or to cache something. */
  lemma RadioSetsOut(checks: bool, s: Sys, ms: seq<Move>) returns (cast: seq<Move>, cache: seq<Move>)
    requires RunFrom(checks, INIT, ms) == s && s.rad.Reading? && s.ep.lastSeq == -1
    ensures var r := s.(heard := Some(HEARD));
            && RunFrom(checks, INIT, cast) == r.(rad := WantBroadcast)
            && RunFrom(checks, INIT, cache) == r.(rad := WantCache)
  {
    var r := s.(rad := Dispatching, heard := Some(HEARD));
    var heard := OneMoreMove(checks, ms, Move(RADIO, HEAR(HEARD)), s, r);
    cast := OneMoreMove(checks, heard, Move(RADIO, BROADCAST), r, r.(rad := WantBroadcast));
    cache := OneMoreMove(checks, heard, Move(RADIO, CACHE), r, r.(rad := WantCache));
  }

  /** The case the bounded wait is for does come up: the server waits for a promise
      under the client-list mutex, and the radio thread for that mutex. */
  lemma WaitsUnderClients(checks: bool) returns (ms: seq<Move>)
    ensures var s := RunFrom(checks, INIT, ms); Unresolved(s) && s.rad.WantBroadcast?
  {
    ms := ServerAwaits(checks);
    var cache;
    ms, cache := RadioSetsOut(checks, AWAITING, ms);
  }

  lemma RadioGets(checks: bool) returns (cast: seq<Move>, cached: seq<Move>)
    ensures RunFrom(checks, INIT, cast).rad.Broadcasting?
    ensures RunFrom(checks, INIT, cached) == INIT.(heard := Some(HEARD), rad := Caching)
  {
    var go, r := Move(RADIO, DONE), INIT.(heard := Some(HEARD));
    cast, cached := RadioSetsOut(checks, INIT, []);
    cast := OneMoreMove(checks, cast, go, r.(rad := WantBroadcast), r.(rad := Broadcasting));
    cached := OneMoreMove(checks, cached, go, r.(rad := WantCache), r.(rad := Caching));
  }

  lemma RadioGetsBoth(checks: bool) returns (ms: seq<Move>)
    ensures RunFrom(checks, INIT, ms).rad.CachedBroadcasting?
  {
    var r, cast := INIT.(heard := Some(HEARD)), [];
    cast, ms := RadioGets(checks);
    ms := OneMoreMove(checks, ms, Move(RADIO, BROADCAST), r.(rad := Caching), r.(rad := CachedWantBroadcast));
    ms := OneMoreMove(checks, ms, Move(RADIO, DONE), r.(rad := CachedWantBroadcast), r.(rad := CachedBroadcasting));
  }

  lemma ServerGetsControl(checks: bool) returns (ms: seq<Move>)
    ensures RunFrom(checks, INIT, ms).srv.InControl?
  {
    var go := Move(SERVER, DONE);
    ms := OneMoreMove(checks, [], go, INIT, INIT.(srv := WantClients));
    ms := OneMoreMove(checks, ms, go, INIT.(srv := WantClients), INIT.(srv := Serving));
    ms := OneMoreMove(checks, ms, Move(SERVER, CONTROL), INIT.(srv := Serving), INIT.(srv := WantControl));
    ms := OneMoreMove(checks, ms, go, INIT.(srv := WantControl), INIT.(srv := InControl));
  }

  /** Both threads get where they want to when nothing is in the way: the radio
      thread to the client list, with or without the cached state, the server to
      the control queue. */
  lemma PlainSailing(checks: bool) returns (a: seq<Move>, b: seq<Move>, c: seq<Move>)
    ensures RunFrom(checks, INIT, a).rad.Broadcasting?
    ensures RunFrom(checks, INIT, b).rad.CachedBroadcasting?
    ensures RunFrom(checks, INIT, c).srv.InControl?
  {
    a, b := RadioGets(checks);
    b := RadioGetsBoth(checks);
    c := ServerGetsControl(checks);
  }

  /** A request, of whichever thread, goes into the frame queue as it is made. */
  lemma RequestQueued(checks: bool, s: Sys, m: Move)
    requires Inv(s) && Enabled(s, m.thread)
    requires if m.thread.RADIO? then s.rad.WantSend? else m.thread.SERVER? && s.srv.WantQueue?
    ensures var t := Step(checks, s, m);
            && !E.Waiting(s.ep, s.ep.sent) && E.Waiting(t.ep, s.ep.sent) && |t.ep.queue| == |s.ep.queue| + 1
            && t.ep.queue[|s.ep.queue|].frame.data == (if m.thread.RADIO? then s.rad.data else s.srv.data)
            && (m.thread.SERVER? ==> t.srv == Pushed(s.ep.sent))
  {
    var h :| E.Inv(s.ep, h);
  }

  /** A frame not heard before is dispatched first; until that is over the endpoint
      is as it was. A copy of the last one ends the back-off at once. */
  lemma DispatchedFirst(checks: bool, s: Sys, f: Frame)
    requires s.rad.Reading? && !HasAck(f.flags)
    ensures var t := Step(checks, s, Move(RADIO, HEAR(f)));
            if f.seqno == s.ep.lastSeq then t.rad == Reading && t.heard == s.heard && t.ep.busyTimer == 0
            else t.rad == Dispatching && t.heard == Some(f) && t.ep == s.ep
  {
  }

  /** A frame heard is noted when its dispatch ends, whatever was broadcast, cached
      or sent meanwhile: from then on a copy of it is not dispatched. */
  lemma CopyNotDispatched(checks: bool, s: Sys, f: Frame)
    requires s.rad.Dispatching? && s.heard == Some(f) && !HasAck(f.flags)
    ensures var t := Step(checks, s, Move(RADIO, DONE));
            && t.rad == Reading && t.heard == None && t.ep.busyTimer == 0
            && Step(checks, t, Move(RADIO, HEAR(f))).rad == Reading
  {
  }

  // -------------------------------------------------------- deadlock freedom

  /** Whom a blocked thread is waiting for: the owner of the mutex it wants, or
      the timer thread, which in the end resolves every promise. */
  function Blocker(s: Sys, t: Thread): Thread {
    if Wants(s, t).None? then TIMER
    else
      var l := Wants(s, t).value;
      if l in s.srv.Held() then SERVER else if l in s.rad.Held() then RADIO else TIMER
  }

  /** Following the blockers from t leads to a thread that can run. */
  predicate Unwinds(s: Sys, t: Thread, hops: nat)
    decreases hops
  {
    Enabled(s, t) || (hops > 0 && Unwinds(s, Blocker(s, t), hops - 1))
  }

  predicate NoDeadlock(s: Sys, hops: nat) {
    Unwinds(s, SERVER, hops) && Unwinds(s, RADIO, hops) && Unwinds(s, TIMER, hops)
  }

  /** Nobody but the radio thread wants or holds the cache mutex. */
  predicate NoChecks(s: Sys) { !s.srv.WantCheck? && !s.srv.InCheck? }

  lemma {:induction false} NeverChecks(ms: seq<Move>)
    ensures NoChecks(RunFrom(false, INIT, ms))
  {
    if ms != [] {
      NeverChecks(ms[..|ms| - 1]);
    }
  }

  lemma TimerUnwinds(s: Sys)
    requires Inv(s)
    ensures Unwinds(s, TIMER, 1)
  {
  }

  lemma ServerUnwinds(s: Sys)
    requires Inv(s) && NoChecks(s)
    ensures Unwinds(s, SERVER, 2)
  {
    TimerUnwinds(s);
    if s.srv.Awaiting? {
      assert Blocker(s, SERVER) == TIMER;
    }
  }

  lemma RadioUnwinds(s: Sys)
    requires Inv(s) && NoChecks(s)
    ensures Unwinds(s, RADIO, 3)
  {
    ServerUnwinds(s);
    TimerUnwinds(s);
  }

  lemma {:induction false} MoreHops(s: Sys, t: Thread, few: nat, many: nat)
    requires Unwinds(s, t, few) && few <= many
    ensures Unwinds(s, t, many)
    decreases few
  {
    if !Enabled(s, t) {
      MoreHops(s, Blocker(s, t), few - 1, many - 1);
    }
  }

  ghost predicate AlwaysUnwinds(checks: bool, hops: nat) {
    forall ms :: NoDeadlock(RunFrom(checks, INIT, ms), hops)
  }

  ghost predicate NeverDeadlocks(checks: bool) {
    exists hops: nat :: AlwaysUnwinds(checks, hops)
  }

  /** With no handler checking channels, whatever the interleaving, every blocked
      thread waits, in at most three hops, for one that can run. */
  lemma DeadlockFree(ms: seq<Move>)
    ensures NoDeadlock(RunFrom(false, INIT, ms), 3)
  {
    var s := RunFrom(false, INIT, ms);
    MutualExclusion(false, ms);
    NeverChecks(ms);
    TimerUnwinds(s);
    ServerUnwinds(s);
    RadioUnwinds(s);
    MoreHops(s, TIMER, 1, 3);
    MoreHops(s, SERVER, 2, 3);
  }

  /** The embrace: the radio thread broadcasting from under the cache mutex, the
      server thread asking for that mutex from under the client list's. */
  predicate Embrace(s: Sys) { s.srv.WantCheck? && s.rad.CachedWantBroadcast? }

  lemma {:induction false} EmbraceBlocks(s: Sys, hops: nat)
    requires Embrace(s)
    ensures !Unwinds(s, SERVER, hops) && !Unwinds(s, RADIO, hops)
  {
    if hops > 0 {
      EmbraceBlocks(s, hops - 1);
    }
  }

  lemma {:induction false} EmbraceForever(checks: bool, s: Sys, ms: seq<Move>)
    requires Embrace(s)
    ensures Embrace(RunFrom(checks, s, ms))
  {
    if ms != [] {
      EmbraceForever(checks, s, ms[..|ms| - 1]);
    }
  }

  lemma RunSnoc(checks: bool, s: Sys, ms: seq<Move>, m: Move)
    ensures RunFrom(checks, s, ms + [m]) == Step(checks, RunFrom(checks, s, ms), m)
  {
    assert (ms + [m])[..|ms|] == ms;
  }

  /** A schedule into the embrace. */
  lemma EmbraceReachable() returns (ms: seq<Move>)
    ensures Embrace(RunFrom(true, INIT, ms))
  {
    var data := Move(RADIO, HEAR(Frame(0, 0, [])));
    var cache, cast := Move(RADIO, CACHE), Move(RADIO, BROADCAST);
    var go, check := Move(SERVER, DONE), Move(SERVER, CHECK);
    ms := [];
    RunSnoc(true, INIT, ms, data);
    ms := ms + [data];
    RunSnoc(true, INIT, ms, cache);
    ms := ms + [cache];
    RunSnoc(true, INIT, ms, cache);
    ms := ms + [cache];
    RunSnoc(true, INIT, ms, cast);
    ms := ms + [cast];
    RunSnoc(true, INIT, ms, go);
    ms := ms + [go];
    RunSnoc(true, INIT, ms, go);
    ms := ms + [go];
    RunSnoc(true, INIT, ms, check);
    ms := ms + [check];
  }

  /** The daemon is free of deadlock exactly because no command handler consults
      IsValidChannel, which takes the cache mutex. */
  lemma DeadlockFreeExactly(checks: bool)
    ensures NeverDeadlocks(checks) <==> !checks
  {
    if checks {
      var ms := EmbraceReachable();
      forall hops: nat
        ensures !AlwaysUnwinds(true, hops)
      {
        EmbraceBlocks(RunFrom(true, INIT, ms), hops);
        assert !NoDeadlock(RunFrom(true, INIT, ms), hops);
      }
    } else {
      forall ms
        ensures NoDeadlock(RunFrom(false, INIT, ms), 3)
      {
        DeadlockFree(ms);
      }
      assert AlwaysUnwinds(false, 3);
    }
  }

  // ------------------------------------------------------------ bounded wait

  /** Steps the timer thread still has to take until it next works the queue. */
  function Phase(pc: TimerPc): nat {
    match pc
    case WantFrames => 1
    case Firing => 2
    case WantTimers => 3
    case Sleeping => 4
    case Fired => 5
    case InFrames => 6
  }

  /** Timer steps a waiting server may still have to sit out. */
  function StepsLeft(s: Sys): int
    requires Unresolved(s)
  {
    6 * (E.TicksLeft(s.ep, s.srv.id) - 1) + Phase(s.tim)
  }

  predicate IsBusyStep(s: Sys, m: Move) {
    m.thread.RADIO? && Enabled(s, RADIO) && s.rad.WantAck? && E.IsBusyNak(s.rad.frame.flags)
  }

  predicate IsTimerStep(s: Sys, m: Move) { m.thread.TIMER? && Enabled(s, TIMER) }

  function CountTimerSteps(checks: bool, s: Sys, ms: seq<Move>): nat {
    if ms == [] then 0
    else
      var init := ms[..|ms| - 1];
      CountTimerSteps(checks, s, init) + if IsTimerStep(RunFrom(checks, s, init), ms[|ms| - 1]) then 1 else 0
  }

  function CountBusySteps(checks: bool, s: Sys, ms: seq<Move>): nat {
    if ms == [] then 0
    else
      var init := ms[..|ms| - 1];
      CountBusySteps(checks, s, init) + if IsBusyStep(RunFrom(checks, s, init), ms[|ms| - 1]) then 1 else 0
  }

  lemma FramesTickLeft(e: E.Endpoint, id: nat)
    requires E.Sound(e) && E.Waiting(FramesTick(e), id)
    ensures E.Waiting(e, id) && 1 <= E.TicksLeft(FramesTick(e), id) <= E.TicksLeft(e, id) - 1
  {
    var h :| E.Inv(e, h);
    var e0 := e.(busyTimer := 0);
    assert E.Inv(e0, h);
    E.TickTicksLeft(e0, id);
  }

  /** One move of any thread: the timer brings a waiting server closer to its
      answer, nothing but a busy NAK sets it back, and by six steps at most. */
  lemma MoveStepsLeft(checks: bool, s: Sys, m: Move)
    requires Inv(s) && s.srv.Awaiting?
    requires Unresolved(Step(checks, s, m))
    ensures Unresolved(s) && Step(checks, s, m).srv == s.srv
    ensures 1 <= StepsLeft(Step(checks, s, m))
         <= StepsLeft(s) - (if IsTimerStep(s, m) then 1 else 0) + (if IsBusyStep(s, m) then 6 else 0)
  {
    if Enabled(s, m.thread) {
      match m.thread
      case SERVER =>
      case RADIO => RadioStepsLeft(s, m.choice);
      case TIMER => TimerStepsLeft(s);
    }
  }

  lemma TimerStepsLeft(s: Sys)
    requires Inv(s) && s.srv.Awaiting? && Enabled(s, TIMER) && Unresolved(TimerStep(s))
    ensures Unresolved(s) && 1 <= StepsLeft(TimerStep(s)) <= StepsLeft(s) - 1
  {
    var id := s.srv.id;
    if s.tim.Firing? && s.ep.busyTimer > 0 {
      E.TickTicksLeft(s.ep, id);
    } else if s.tim.WantFrames? {
      FramesTickLeft(s.ep, id);
    } else {
      var h :| E.Inv(s.ep, h);
    }
  }

  lemma StillWaiting(e: E.Endpoint, id: nat)
    requires E.Sound(e) && E.Waiting(e, id)
    ensures 1 <= E.TicksLeft(e, id)
  {
    var h :| E.Inv(e, h);
  }

  lemma DispatchedStepsLeft(s: Sys)
    requires Inv(s) && s.srv.Awaiting? && Unresolved(Dispatched(s))
    ensures Unresolved(s) && 1 <= StepsLeft(Dispatched(s)) <= StepsLeft(s)
  {
    StillWaiting(s.ep, s.srv.id);
    if s.heard.Some? {
      DataTicksLeft(s.ep, s.heard.value, s.srv.id);
    }
  }

  lemma DataTicksLeft(e: E.Endpoint, f: Frame, id: nat)
    requires E.Sound(e) && E.Waiting(e, id) && !HasAck(f.flags)
    ensures var e' := E.OnDataFrame(e, f).ep;
            E.Waiting(e', id) && 1 <= E.TicksLeft(e', id) <= E.TicksLeft(e, id)
  {
    var h :| E.Inv(e, h);
  }

  lemma RequestTicksLeft(e: E.Endpoint, data: Payload, id: nat)
    requires E.Sound(e) && id < e.sent && E.Waiting(E.OnRequest(e, data).ep, id)
    ensures E.Waiting(e, id) && 1 <= E.TicksLeft(E.OnRequest(e, data).ep, id) == E.TicksLeft(e, id)
  {
    var h :| E.Inv(e, h);
  }

  lemma ReadingStepsLeft(s: Sys, c: Choice)
    requires Inv(s) && s.srv.Awaiting? && s.rad.Reading? && Unresolved(RadioStep(s, c))
    ensures Unresolved(s) && 1 <= StepsLeft(RadioStep(s, c)) <= StepsLeft(s)
  {
    StillWaiting(s.ep, s.srv.id);
    if c.HEAR? && !HasAck(c.frame.flags) {
      DataTicksLeft(s.ep, c.frame, s.srv.id);
    }
  }

  lemma RadioStepsLeft(s: Sys, c: Choice)
    requires Inv(s) && s.srv.Awaiting? && Enabled(s, RADIO) && Unresolved(RadioStep(s, c))
    ensures Unresolved(s)
    ensures 1 <= StepsLeft(RadioStep(s, c)) <= StepsLeft(s) + (if IsBusyStep(s, Move(RADIO, c)) then 6 else 0)
  {
    var id := s.srv.id;
    match s.rad
    case WantAck(f) => E.AckTicksLeft(s.ep, f, id);
    case WantSend(data) => RequestTicksLeft(s.ep, data, id);
    case Reading => ReadingStepsLeft(s, c);
    case Dispatching =>
      StillWaiting(s.ep, id);
      DispatchedStepsLeft(s);
    case _ => StillWaiting(s.ep, id);
  }

  /** A server that still waits for the same promise has waited all along. */
  lemma {:induction false} WaitInvariant(checks: bool, s: Sys, ms: seq<Move>)
    requires Inv(s) && Unresolved(s)
    ensures var t := RunFrom(checks, s, ms);
            && Inv(t)
            && s.ep.sent <= t.ep.sent
            && (E.Waiting(t.ep, s.srv.id) ==>
                  && t.srv == s.srv
                  && 1 <= StepsLeft(t)
                  && CountTimerSteps(checks, s, ms) + StepsLeft(t)
                       <= StepsLeft(s) + 6 * CountBusySteps(checks, s, ms))
  {
    if ms == [] {
      var h :| E.Inv(s.ep, h);
    } else {
      var init, m := ms[..|ms| - 1], ms[|ms| - 1];
      WaitInvariant(checks, s, init);
      var t := RunFrom(checks, s, init);
      StepKeepsInv(checks, t, m);
      WaitStep(checks, t, m, s.srv.id);
      if E.Waiting(Step(checks, t, m).ep, s.srv.id) {
        MoveStepsLeft(checks, t, m);
      }
    }
  }

  /** A resolved promise stays resolved. */
  ghost predicate Later(e: E.Endpoint, e': E.Endpoint, id: nat) {
    e.sent <= e'.sent && (E.Waiting(e', id) ==> E.Waiting(e, id))
  }

  lemma RequestLater(e: E.Endpoint, data: Payload, id: nat)
    requires E.Sound(e) && id < e.sent
    ensures Later(e, E.OnRequest(e, data).ep, id)
  {
    var h :| E.Inv(e, h);
  }

  lemma AckLater(e: E.Endpoint, f: Frame, id: nat)
    requires E.Sound(e)
    ensures Later(e, E.OnAckFrame(e, f).ep, id)
  {
    var h :| E.Inv(e, h);
  }

  lemma TickLater(e: E.Endpoint, id: nat)
    requires E.Sound(e)
    ensures Later(e, E.OnTick(e).ep, id) && Later(e, FramesTick(e), id)
  {
    var h :| E.Inv(e, h);
  }

  lemma RadioLater(s: Sys, c: Choice, id: nat)
    requires Ordered(s) && id < s.ep.sent
    ensures Later(s.ep, RadioStep(s, c).ep, id)
  {
    match s.rad
    case WantAck(f) => AckLater(s.ep, f, id);
    case WantSend(data) => RequestLater(s.ep, data, id);
    case _ =>
  }

  lemma WaitStep(checks: bool, s: Sys, m: Move, id: nat)
    requires Inv(s) && id < s.ep.sent
    ensures Later(s.ep, Step(checks, s, m).ep, id)
  {
    if Enabled(s, m.thread) {
      match m.thread
      case SERVER =>
        if s.srv.WantQueue? {
          RequestLater(s.ep, s.srv.data, id);
        }
      case RADIO => RadioLater(s, m.choice, id);
      case TIMER => TickLater(s.ep, id);
    }
  }

  /** However the threads are scheduled, the promise a server thread waits for is
      set by the time the timer thread has taken StepsLeft steps, plus six for
      every busy NAK: the client-list mutex is never held for ever, even while
      the radio thread stands in line for it. */
  lemma ServerReleased(checks: bool, s: Sys, ms: seq<Move>)
    requires Inv(s) && Unresolved(s)
    requires CountTimerSteps(checks, s, ms) >= StepsLeft(s) + 6 * CountBusySteps(checks, s, ms)
    ensures !E.Waiting(RunFrom(checks, s, ms).ep, s.srv.id)
  {
    WaitInvariant(checks, s, ms);
  }

  /** In figures: 24 timer steps for the frame and for each ahead of it, and six
      more, are enough. */
  lemma StepsLeftBound(s: Sys)
    requires Inv(s) && Unresolved(s)
    ensures StepsLeft(s) <= 24 * (s.srv.id - s.ep.queue[0].id + 1) + 6
  {
    var h :| E.Inv(s.ep, h);
  }

  /** And those steps can be taken: the timer thread is held up only by a thread
      that is in the frame queue, can run, and leaves the queue in one step. */
  lemma TimerHeldUpBriefly(checks: bool, s: Sys, c: Choice)
    requires Inv(s) && !Enabled(s, TIMER)
    ensures var t := Blocker(s, TIMER);
            && !t.TIMER? && Enabled(s, t)
            && Enabled(Step(checks, s, Move(t, c)), TIMER)
  {
  }
}
