/** The goroutines of `Serve` and of the request handlers as a step system: the JWKS refresher,
    the licence loader, any number of watchers of the update channel (the reporter and the
    watch requests), any number of reload requests, and the signal loop. Timers, the network,
    the folder scan and the scheduler are arbitrary choices of steps. */
module Protocol {
  import opened License

  const OFFLINE_THRESHOLD: nat := 3

  // ---------- State ----------

  /** The outcome of `JWKSFetcher.Update`: a key set; no change (304); cancelled while waiting
      to retry; or an error. The last two leave the fetcher offline. */
  datatype Fetched = NewKeys | NotModified | Cancelled | FetchError

  predicate FetchedOffline(o: Fetched) {
    o == Cancelled || o == FetchError
  }

  /** Where the JWKS goroutine is. From `JAcquiring` to `JUnlocking` it owns the write side of
      the mutex; from `JStoring` on it holds it. */
  datatype JwksPc =
    | JNoUris | JFetching
    | JLocking(o: Fetched) | JAcquiring(o: Fetched)
    | JStoring(o: Fetched) | JSending(o: Fetched) | JCounting(o: Fetched) | JUnlocking
    | JAnnouncing | JSleeping | JStopped

  /** Where the loader is. `cb` is the reload request being served. The closure `f` runs from
      `LLocking` to `LClosing`. */
  datatype LoaderPc =
    | LStarting
    | LDraining(cb: Option<nat>)
    | LLocking(cb: Option<nat>) | LReading(cb: Option<nat>)
    | LScanning(cb: Option<nat>)
    | LPublishing(cb: Option<nat>) | LAcquiring(cb: Option<nat>)
    | LStoring(cb: Option<nat>) | LSwapping(cb: Option<nat>) | LUnlocking(cb: Option<nat>, replaced: nat)
    | LReady(cb: Option<nat>, replaced: nat) | LClosing(cb: Option<nat>, replaced: nat)
    | LReturning(cb: Option<nat>)
    | LIdle | LStopped

  /** Where a watcher is. `ch` is the update channel it captured. */
  datatype WatcherPc =
    | WLocking | WReading | WWaiting(ch: nat) | WWoken(ch: nat) | WReadingClaims(ch: nat) | WGone

  /** `seen` is the claims version the watcher read last. */
  datatype Watcher = Watcher(pc: WatcherPc, seen: nat)

  /** A reload request: waiting to be accepted; accepted when `at` runs of `f` had begun;
      answered with 200 when `done` runs had finished; or gone. */
  datatype Client = Trying | Accepted(at: nat) | Replied(at: nat, done: nat) | Left

  datatype Writer = JwksWriter | LoaderWriter
  datatype Reader = LoaderReader | WatcherReader(id: nat)

  /** Go's read-write mutex: `owner` has announced (and maybe completed) a `Lock`, and readers
      that come after the announcement wait for its `Unlock`. */
  datatype Mutex = Mutex(owner: Option<Writer>, readers: set<Reader>, waiting: set<Reader>)

  /** The server's fields. Key sets, claims and update channels are numbered in the order in
      which they are made; 0 is the initial one. */
  datatype Server = Server(
    jwks: nat, offline: nat, claims: nat, updateCh: nat, closed: set<nat>, readyClosed: bool)

  /** The channels of `Serve`. */
  datatype Channels = Channels(ready: bool, trigger: bool, cancelled: bool)

  /** The JWKS goroutine; `outcomes` remembers those of its updates. */
  datatype Refresher = Refresher(pc: JwksPc, started: bool, outcomes: seq<Fetched>)

  /** The loader; `begun` and `done` count the runs of `f`. */
  datatype Loading = Loading(pc: LoaderPc, captured: nat, first: bool, begun: nat, done: nat)

  /** The reload requests and the callback channels that were closed. */
  datatype Requests = Requests(clients: map<nat, Client>, callbacks: set<nat>)

  datatype State = State(
    hasUris: bool, mutex: Mutex, server: Server, ch: Channels,
    j: Refresher, l: Loading, watchers: map<nat, Watcher>, reqs: Requests)

  function Initial(hasUris: bool): State {
    State(
      hasUris,
      Mutex(None, {}, {}),
      Server(0, OFFLINE_THRESHOLD, 0, 0, {}, false),
      Channels(false, false, false),
      Refresher(if hasUris then JFetching else JNoUris, false, []),
      Loading(LStarting, 0, true, 0, 0),
      map[],
      Requests(map[], {}))
  }

  // ---------- The mutex ----------

  /** `RLock`: joins the readers, or waits if a writer was announced. */
  function RLock(m: Mutex, r: Reader): Mutex {
    if m.owner.None? then m.(readers := m.readers + {r}) else m.(waiting := m.waiting + {r})
  }

  function RUnlock(m: Mutex, r: Reader): Mutex {
    m.(readers := m.readers - {r})
  }

  function Announce(m: Mutex, w: Writer): Mutex {
    m.(owner := Some(w))
  }

  /** `Unlock`: lets in all readers that were waiting. */
  function Unlock(m: Mutex): Mutex {
    Mutex(None, m.readers + m.waiting, {})
  }

  // ---------- The JWKS goroutine ----------

  datatype JwksStep =
    | JClose | JFetch(o: Fetched) | JLock | JAcquire | JStore | JSend | JCount | JUnlock
    | JAnnounce | JWake | JStop

  predicate JwksEnabled(s: State, step: JwksStep) {
    match step
    case JClose => s.j.pc.JNoUris?
    case JFetch(_) => s.j.pc.JFetching?
    case JLock => s.j.pc.JLocking? && s.mutex.owner.None?
    case JAcquire => s.j.pc.JAcquiring? && s.mutex.readers == {}
    case JStore => s.j.pc.JStoring?
    case JSend => s.j.pc.JSending? && !s.ch.trigger
    case JCount => s.j.pc.JCounting?
    case JUnlock => s.j.pc.JUnlocking?
    case JAnnounce => s.j.pc.JAnnouncing?
    case JWake => s.j.pc.JSleeping?
    case JStop => s.j.pc.JSleeping? && s.ch.cancelled
  }

  /** The offline counter after an update. */
  function Count(offline: nat, failed: bool): nat {
    if !failed then 0
    else if offline + 1 > OFFLINE_THRESHOLD then OFFLINE_THRESHOLD
    else offline + 1
  }

  function JGoto(s: State, pc: JwksPc): State {
    s.(j := s.j.(pc := pc))
  }

  function JwksDo(s: State, step: JwksStep): State
    requires JwksEnabled(s, step)
  {
    match step
    case JClose => JGoto(s, JStopped).(ch := s.ch.(ready := true))
    case JFetch(o) => JGoto(s, JLocking(o))
    case JLock => JGoto(s, JAcquiring(s.j.pc.o)).(mutex := Announce(s.mutex, JwksWriter))
    case JAcquire => JGoto(s, JStoring(s.j.pc.o))
    case JStore =>
      if !s.j.pc.o.NewKeys? then JGoto(s, JCounting(s.j.pc.o))
      else
        JGoto(s, if s.j.started then JSending(s.j.pc.o) else JCounting(s.j.pc.o))
        .(server := s.server.(jwks := s.server.jwks + 1))
    case JSend => JGoto(s, JCounting(s.j.pc.o)).(ch := s.ch.(trigger := true))
    case JCount =>
      s.(j := s.j.(pc := JUnlocking, outcomes := s.j.outcomes + [s.j.pc.o]),
         server := s.server.(offline := Count(s.server.offline, FetchedOffline(s.j.pc.o))))
    case JUnlock => JGoto(s, JAnnouncing).(mutex := Unlock(s.mutex))
    case JAnnounce =>
      if s.j.started then JGoto(s, JSleeping)
      else s.(j := s.j.(pc := JSleeping, started := true), ch := s.ch.(ready := true))
    case JWake => JGoto(s, JFetching)
    case JStop => JGoto(s, JStopped)
  }

  // ---------- The loader ----------

  datatype LoaderStep =
    | LStart | LDrain | LRLock | LRead | LScan(publish: bool) | LLock | LAcquire | LStore | LSwap | LUnlock
    | LCloseReady | LCloseUpdate | LReturn | LAccept(id: nat) | LTake | LTick | LStop

  predicate LoaderEnabled(s: State, step: LoaderStep) {
    var pc := s.l.pc;
    match step
    case LStart => pc.LStarting? && s.ch.ready
    case LDrain => pc.LDraining?
    case LRLock => pc.LLocking?
    case LRead => pc.LReading? && LoaderReader in s.mutex.readers
    case LScan(publish) => pc.LScanning? && (s.l.first ==> publish)
    case LLock => pc.LPublishing? && s.mutex.owner.None?
    case LAcquire => pc.LAcquiring? && s.mutex.readers == {}
    case LStore => pc.LStoring?
    case LSwap => pc.LSwapping?
    case LUnlock => pc.LUnlocking?
    case LCloseReady => pc.LReady?
    case LCloseUpdate => pc.LClosing?
    case LReturn => pc.LReturning?
    case LAccept(id) => pc.LIdle? && id in s.reqs.clients && s.reqs.clients[id].Trying?
    case LTake => pc.LIdle? && s.ch.trigger
    case LTick => pc.LIdle?
    case LStop => (pc.LStarting? || pc.LIdle?) && s.ch.cancelled
  }

  function LGoto(s: State, pc: LoaderPc): State {
    s.(l := s.l.(pc := pc))
  }

  /** Empties the trigger buffer, if it is full, and begins a run of `f`. */
  function Begin(s: State, cb: Option<nat>): State {
    s.(l := s.l.(pc := LLocking(cb), begun := s.l.begun + 1), ch := s.ch.(trigger := false))
  }

  function LoaderDo(s: State, step: LoaderStep): State
    requires LoaderEnabled(s, step)
  {
    var pc := s.l.pc;
    match step
    case LStart => LGoto(s, LDraining(None))
    case LDrain => Begin(s, pc.cb)
    case LRLock => LGoto(s, LReading(pc.cb)).(mutex := RLock(s.mutex, LoaderReader))
    case LRead =>
      s.(l := s.l.(pc := LScanning(pc.cb), captured := s.server.jwks),
         mutex := RUnlock(s.mutex, LoaderReader))
    case LScan(publish) =>
      if publish then LGoto(s, LPublishing(pc.cb))
      else s.(l := s.l.(pc := LReturning(pc.cb), done := s.l.done + 1))
    case LLock => LGoto(s, LAcquiring(pc.cb)).(mutex := Announce(s.mutex, LoaderWriter))
    case LAcquire => LGoto(s, LStoring(pc.cb))
    case LStore => LGoto(s, LSwapping(pc.cb)).(server := s.server.(claims := s.server.claims + 1))
    case LSwap =>
      LGoto(s, LUnlocking(pc.cb, s.server.updateCh)).(server := s.server.(updateCh := s.server.updateCh + 1))
    case LUnlock => LGoto(s, LReady(pc.cb, pc.replaced)).(mutex := Unlock(s.mutex))
    case LCloseReady =>
      if s.l.first then
        s.(l := s.l.(pc := LClosing(pc.cb, pc.replaced), first := false), server := s.server.(readyClosed := true))
      else LGoto(s, LClosing(pc.cb, pc.replaced))
    case LCloseUpdate =>
      s.(l := s.l.(pc := LReturning(pc.cb), done := s.l.done + 1),
         server := s.server.(closed := s.server.closed + {pc.replaced}))
    case LReturn =>
      if pc.cb.None? then LGoto(s, LIdle)
      else LGoto(s, LIdle).(reqs := s.reqs.(callbacks := s.reqs.callbacks + {pc.cb.value}))
    case LAccept(id) =>
      LGoto(s, LDraining(Some(id))).(reqs := s.reqs.(clients := s.reqs.clients[id := Accepted(s.l.begun)]))
    case LTake => Begin(s, None)
    case LTick => LGoto(s, LDraining(None))
    case LStop => LGoto(s, LStopped)
  }

  // ---------- Watchers ----------

  /** Woken, the reporter reads the claims, while a watch request only notifies its client. */
  datatype WatcherStep = WJoin | WRLock | WRead | WWake | WTimeout | WNotify | WRLockClaims | WReadClaims | WLeave

  predicate WatcherEnabled(s: State, id: nat, step: WatcherStep) {
    if step.WJoin? then id !in s.watchers
    else
      id in s.watchers &&
      var pc := s.watchers[id].pc;
      match step
      case WJoin => false
      case WRLock => pc.WLocking?
      case WRead => pc.WReading? && WatcherReader(id) in s.mutex.readers
      case WWake => pc.WWaiting? && pc.ch in s.server.closed
      case WTimeout => pc.WWaiting?
      case WNotify => pc.WWoken?
      case WRLockClaims => pc.WWoken?
      case WReadClaims => pc.WReadingClaims? && WatcherReader(id) in s.mutex.readers
      case WLeave => pc.WWaiting? || pc.WWoken? || pc.WLocking?
  }

  /** The watcher after a step; reading, it captures the server's channel or claims. */
  function WatcherAfter(server: Server, w: Watcher, step: WatcherStep): Watcher {
    match step
    case WJoin => Watcher(WLocking, 0)
    case WRLock => w.(pc := WReading)
    case WRead => w.(pc := WWaiting(server.updateCh))
    case WWake => if w.pc.WWaiting? then w.(pc := WWoken(w.pc.ch)) else w
    case WTimeout => w.(pc := WLocking)
    case WNotify => w.(pc := WLocking)
    case WRLockClaims => if w.pc.WWoken? then w.(pc := WReadingClaims(w.pc.ch)) else w
    case WReadClaims => Watcher(WLocking, server.claims)
    case WLeave => w.(pc := WGone)
  }

  function WatcherMutex(m: Mutex, id: nat, step: WatcherStep): Mutex {
    if step.WRLock? || step.WRLockClaims? then RLock(m, WatcherReader(id))
    else if step.WRead? || step.WReadClaims? then RUnlock(m, WatcherReader(id))
    else m
  }

  function WatcherDo(s: State, id: nat, step: WatcherStep): State
    requires WatcherEnabled(s, id, step)
  {
    var w := if step.WJoin? then Watcher(WLocking, 0) else s.watchers[id];
    s.(watchers := s.watchers[id := WatcherAfter(s.server, w, step)], mutex := WatcherMutex(s.mutex, id, step))
  }

  // ---------- Reload requests, signals, shutdown ----------

  datatype ClientStep = CArrive | CLeave | CReply

  predicate ClientEnabled(s: State, id: nat, step: ClientStep) {
    match step
    case CArrive => id !in s.reqs.clients
    case CLeave => id in s.reqs.clients && (s.reqs.clients[id].Trying? || s.reqs.clients[id].Accepted?)
    case CReply => id in s.reqs.clients && s.reqs.clients[id].Accepted? && id in s.reqs.callbacks
  }

  function ClientDo(s: State, id: nat, step: ClientStep): State
    requires ClientEnabled(s, id, step)
  {
    var client := match step
      case CArrive => Trying
      case CLeave => Left
      case CReply => Replied(s.reqs.clients[id].at, s.l.done);
    s.(reqs := s.reqs.(clients := s.reqs.clients[id := client]))
  }

  datatype Step =
    | Jwks(j: JwksStep) | Loader(l: LoaderStep)
    | Watch(w: nat, ws: WatcherStep) | Reload(c: nat, cs: ClientStep)
    | Hup | Cancel

  predicate Enabled(s: State, step: Step) {
    match step
    case Jwks(j) => JwksEnabled(s, j)
    case Loader(l) => LoaderEnabled(s, l)
    case Watch(id, w) => WatcherEnabled(s, id, w)
    case Reload(id, c) => ClientEnabled(s, id, c)
    case Hup => true
    case Cancel => true
  }

  /** A handled SIGHUP puts a trigger into the buffer unless there is one already. */
  function Do(s: State, step: Step): State
    requires Enabled(s, step)
  {
    match step
    case Jwks(j) => JwksDo(s, j)
    case Loader(l) => LoaderDo(s, l)
    case Watch(id, w) => WatcherDo(s, id, w)
    case Reload(id, c) => ClientDo(s, id, c)
    case Hup => s.(ch := s.ch.(trigger := true))
    case Cancel => s.(ch := s.ch.(cancelled := true))
  }

  /** The steps lead from `s` to `t`. */
  ghost predicate Leads(s: State, steps: seq<Step>, t: State)
    decreases |steps|
  {
    if steps == [] then s == t
    else Enabled(s, steps[0]) && Leads(Do(s, steps[0]), steps[1..], t)
  }

  ghost predicate Reachable(t: State) {
    exists hasUris, steps :: Leads(Initial(hasUris), steps, t)
  }
}
