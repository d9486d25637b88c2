/** When the loader can get the mutex inside `f`, and exactly when it never will. */
module ProtocolProgress {
  import opened License
  import opened Protocol
  import opened ProtocolSafety

  /** The loader is at one of the two lock acquisitions of `f`, and has not got the lock. */
  ghost predicate AtLock(s: State) {
    var pc := s.l.pc;
    pc.LLocking? || (pc.LReading? && LoaderReader !in s.mutex.readers) || pc.LPublishing? || pc.LAcquiring?
  }

  /** The refresher owns the write side and, before it gives it up, will send a trigger. */
  ghost predicate WillSend(j: Refresher) {
    j.started && (
      (j.pc.JAcquiring? && j.pc.o.NewKeys?) || (j.pc.JStoring? && j.pc.o.NewKeys?) || j.pc.JSending?)
  }

  /** The trigger buffer is full, and the refresher will block on it while it owns the mutex
      that the loader, the only one to empty the buffer, is waiting for. */
  ghost predicate Doomed(s: State) {
    AtLock(s) && !s.l.pc.LAcquiring? && s.ch.trigger && WillSend(s.j)
  }

  // ---------- A doomed state stays doomed ----------

  lemma DoomedStep(s: State, step: Step)
    requires Inv(s) && Doomed(s) && Enabled(s, step)
    ensures Doomed(Do(s, step))
  {
    assert LockInv(s);
    if step.Loader? {
      DoomedLoader(s, step.l);
    }
  }

  lemma DoomedLoader(s: State, step: LoaderStep)
    requires LockInv(s) && Doomed(s) && LoaderEnabled(s, step)
    ensures Doomed(LoaderDo(s, step))
  {
    assert s.mutex.owner == Some(JwksWriter);
    assert s.l.pc.LLocking? ==> LoaderReader !in s.mutex.readers + s.mutex.waiting;
  }

  lemma {:induction false} DoomedForever(s: State, steps: seq<Step>, t: State)
    requires Inv(s) && Doomed(s) && Leads(s, steps, t)
    ensures Doomed(t)
    decreases |steps|
  {
    if steps != [] {
      InvStep(s, steps[0]);
      DoomedStep(s, steps[0]);
      DoomedForever(Do(s, steps[0]), steps[1..], t);
    }
  }

  lemma DoomedMutex(s: State)
    requires Inv(s) && Doomed(s)
    ensures s.mutex.owner == Some(JwksWriter)
  {
    assert LockInv(s);
  }

  lemma DoomedReadersStep(s: State, step: Step)
    requires Inv(s) && Doomed(s) && Enabled(s, step)
    ensures Do(s, step).mutex.readers <= s.mutex.readers
  {
    DoomedMutex(s);
    assert LockInv(s);
    match step
    case Jwks(_) =>
    case Loader(_) =>
    case Watch(_, _) =>
    case _ =>
  }

  /** The refresher never gives up the mutex again, so in particular no request handler, watcher
      or other reader that is not inside already ever gets the read side: no request that reads
      the claims is answered any more. */
  lemma {:induction false} DoomedReaders(s: State, steps: seq<Step>, t: State)
    requires Inv(s) && Doomed(s) && Leads(s, steps, t)
    ensures t.mutex.owner == Some(JwksWriter) && t.mutex.readers <= s.mutex.readers
    decreases |steps|
  {
    DoomedMutex(s);
    if steps != [] {
      InvStep(s, steps[0]);
      DoomedStep(s, steps[0]);
      DoomedReadersStep(s, steps[0]);
      DoomedReaders(Do(s, steps[0]), steps[1..], t);
    }
  }

  // ---------- Any other state has a way out ----------

  /** The stages the refresher has left in its critical section. */
  ghost function Stages(pc: JwksPc): nat {
    match pc
    case JAcquiring(_) => 5
    case JStoring(_) => 4
    case JSending(_) => 3
    case JCounting(_) => 2
    case JUnlocking => 1
    case _ => 0
  }

  ghost function Distance(s: State): nat {
    2 * Stages(s.j.pc) + |s.mutex.readers| + |s.mutex.waiting| +
    (if s.l.pc.LLocking? || s.l.pc.LPublishing? then 1 else 0)
  }

  ghost function SomeReader(readers: set<Reader>): Reader
    requires readers != {}
  {
    var r :| r in readers;
    r
  }

  /** A step, not of a timer and not of the environment, that brings the loader closer to the
      lock: a reader finishes, the refresher moves through its critical section, or the loader
      itself asks for the lock. */
  ghost function Helper(s: State): Step {
    if JwksHolds(s.j.pc) || (s.j.pc.JAcquiring? && s.mutex.readers == {}) then
      Jwks(match s.j.pc
           case JAcquiring(_) => JAcquire
           case JStoring(_) => JStore
           case JSending(_) => JSend
           case JCounting(_) => JCount
           case _ => JUnlock)
    else if s.mutex.readers != {} && SomeReader(s.mutex.readers).WatcherReader? then
      var id := SomeReader(s.mutex.readers).id;
      Watch(id, if id in s.watchers && s.watchers[id].pc.WReading? then WRead else WReadClaims)
    else Loader(match s.l.pc
                case LLocking(_) => LRLock
                case LPublishing(_) => LLock
                case _ => LAcquire)
  }

  /** The loader has the lock it asked for. */
  ghost predicate GotLock(s: State) {
    (s.l.pc.LReading? && LoaderReader in s.mutex.readers) || s.l.pc.LStoring?
  }

  /** The cases of a loader waiting for a lock in a state that is not doomed. */
  lemma WaitingCases(s: State)
    requires Inv(s) && AtLock(s)
    ensures LoaderReader !in s.mutex.readers
    ensures s.mutex.owner.None? || JwksOwns(s.j.pc) || s.l.pc.LAcquiring?
    ensures s.l.pc.LReading? ==> JwksOwns(s.j.pc)
  {
    assert LockInv(s);
    assert LoaderReader in s.mutex.readers + s.mutex.waiting <==> Reads(s, LoaderReader);
    match s.mutex.owner
    case None =>
    case Some(JwksWriter) =>
    case Some(LoaderWriter) =>
  }

  lemma HelperEnabled(s: State)
    requires Inv(s) && AtLock(s) && !Doomed(s)
    ensures Enabled(s, Helper(s))
  {
    WaitingCases(s);
    if s.mutex.readers != {} {
      var r := SomeReader(s.mutex.readers);
      assert r in s.mutex.readers + s.mutex.waiting && Reads(s, r);
    }
  }

  /** The loader stays at the same acquisition of the same run of `f`. */
  ghost predicate SameRun(l: Loading, m: Loading) {
    && m.first == l.first && Serving(m.pc) == Serving(l.pc)
    && (if l.pc.LLocking? || l.pc.LReading? then m.pc.LLocking? || m.pc.LReading?
        else m.pc.LPublishing? || m.pc.LAcquiring? || m.pc.LStoring?)
  }

  /** The loader got its lock, and the refresher has nothing to send while it does so. */
  ghost predicate Through(s: State) {
    GotLock(s) && !WillSend(s.j)
  }

  lemma HelperHelps(s: State)
    requires Inv(s) && AtLock(s) && !Doomed(s) && Enabled(s, Helper(s))
    ensures var t := Do(s, Helper(s));
            SameRun(s.l, t.l) && (Through(t) || (AtLock(t) && !Doomed(t) && Distance(t) < Distance(s)))
  {
    WaitingCases(s);
    match Helper(s)
    case Jwks(step) => RefresherHelps(s, step);
    case Watch(id, step) => ReaderHelps(s, id, step);
    case Loader(step) => LoaderHelps(s, step);
  }

  lemma LoaderHelps(s: State, step: LoaderStep)
    requires Inv(s) && AtLock(s) && !Doomed(s) && !JwksHolds(s.j.pc) && LoaderEnabled(s, step)
    requires !s.j.pc.JAcquiring? && s.mutex.readers == {}
    requires step == if s.l.pc.LLocking? then LRLock else if s.l.pc.LPublishing? then LLock else LAcquire
    ensures var t := LoaderDo(s, step);
            SameRun(s.l, t.l) && (Through(t) || (AtLock(t) && !Doomed(t) && Distance(t) < Distance(s)))
  {
    WaitingCases(s);
  }

  lemma RefresherHelps(s: State, step: JwksStep)
    requires Inv(s) && AtLock(s) && !Doomed(s) && JwksOwns(s.j.pc) && JwksEnabled(s, step)
    ensures var t := JwksDo(s, step);
            SameRun(s.l, t.l) && (Through(t) || (AtLock(t) && !Doomed(t) && Distance(t) < Distance(s)))
  {
    WaitingCases(s);
    var m := s.mutex;
    assert |m.readers + m.waiting| <= |m.readers| + |m.waiting|;
    assert s.l.pc.LReading? ==> LoaderReader in m.readers + m.waiting by {
      assert LockInv(s) && Reads(s, LoaderReader) == s.l.pc.LReading?;
    }
  }

  lemma ReaderHelps(s: State, id: nat, step: WatcherStep)
    requires Inv(s) && AtLock(s) && !Doomed(s) && WatcherEnabled(s, id, step) && (step.WRead? || step.WReadClaims?)
    ensures var t := WatcherDo(s, id, step);
            SameRun(s.l, t.l) && AtLock(t) && !Doomed(t) && Distance(t) < Distance(s)
  {
  }

  lemma HelperKeepsRequests(s: State)
    requires Enabled(s, Helper(s))
    ensures Do(s, Helper(s)).reqs == s.reqs
  {
    match Helper(s)
    case Jwks(_) =>
    case Watch(_, _) =>
    case Loader(_) =>
  }

  lemma {:induction false} WayOut(s: State) returns (steps: seq<Step>, t: State)
    requires Inv(s) && AtLock(s) && !Doomed(s)
    ensures Leads(s, steps, t) && Through(t) && SameRun(s.l, t.l) && t.reqs == s.reqs
    decreases Distance(s)
  {
    HelperEnabled(s);
    HelperKeepsRequests(s);
    HelperHelps(s);
    InvStep(s, Helper(s));
    var next := Do(s, Helper(s));
    if Through(next) {
      steps, t := [Helper(s)], next;
      assert steps[1..] == [];
    } else {
      var rest;
      rest, t := WayOut(next);
      steps := [Helper(s)] + rest;
      assert steps[1..] == rest;
    }
  }

  /** Some continuation, by steps of any goroutine, gives the loader the lock. */
  ghost predicate CanGetLock(s: State) {
    exists steps, t :: Leads(s, steps, t) && GotLock(t)
  }

  /** In every reachable state in which the loader waits for a lock inside `f`: it will never
      get it exactly if the state is doomed. */
  lemma NeverIffDoomed(s: State)
    requires Reachable(s) && AtLock(s)
    ensures !CanGetLock(s) <==> Doomed(s)
  {
    InvReachable(s);
    if Doomed(s) {
      forall steps, t | Leads(s, steps, t)
        ensures !GotLock(t)
      {
        DoomedForever(s, steps, t);
      }
    } else {
      var steps, t := WayOut(s);
    }
  }

  /** The proviso under which `f` always gets its locks: when the refresher owns the mutex with
      a trigger to send, the buffer has room. */
  lemma RoomMeansProgress(s: State)
    requires Reachable(s) && AtLock(s) && (WillSend(s.j) ==> !s.ch.trigger)
    ensures CanGetLock(s)
  {
    InvReachable(s);
    var steps, t := WayOut(s);
  }

  // ---------- Doomed states do occur ----------

  lemma {:induction false} LeadsOn(s: State, a: seq<Step>, m: State, b: seq<Step>, t: State)
    requires Leads(s, a, m) && Leads(m, b, t)
    ensures Leads(s, a + b, t)
    decreases |a|
  {
    if a == [] {
      assert a + b == b;
    } else {
      assert (a + b)[1..] == a[1..] + b;
      LeadsOn(Do(s, a[0]), a[1..], m, b, t);
    }
  }

  lemma ReachableStep(s: State, step: Step)
    requires Reachable(s) && Enabled(s, step)
    ensures Reachable(Do(s, step))
  {
    var hasUris, steps :| Leads(Initial(hasUris), steps, s);
    assert [step][1..] == [];
    LeadsOn(Initial(hasUris), steps, s, [step], Do(s, step));
  }

  /** The server has started: the first key set is in, and the loader has begun its first run
      of `f` and not yet asked for the lock. */
  const STARTED := State(
    true, Mutex(None, {}, {}), Server(1, 0, 0, 0, {}, false), Channels(true, false, false),
    Refresher(JSleeping, true, [NewKeys]), Loading(LLocking(None), 0, true, 1, 0), map[], Requests(map[], {}))

  lemma Take(s: State, step: Step) returns (t: State)
    requires Reachable(s) && Enabled(s, step)
    ensures t == Do(s, step) && Reachable(t)
  {
    ReachableStep(s, step);
    t := Do(s, step);
  }

  /** Before that: the first key set is stored, and the refresher has unlocked. */
  const FETCHED := State(
    true, Mutex(None, {}, {}), Server(1, 0, 0, 0, {}, false), Channels(false, false, false),
    Refresher(JAnnouncing, false, [NewKeys]), Loading(LStarting, 0, true, 0, 0), map[], Requests(map[], {}))

  lemma FetchedIsReachable()
    ensures Reachable(FETCHED)
  {
    assert Leads(Initial(true), [], Initial(true));
    var s := Take(Initial(true), Jwks(JFetch(NewKeys)));
    s := Take(s, Jwks(JLock));
    s := Take(s, Jwks(JAcquire));
    s := Take(s, Jwks(JStore));
    s := Take(s, Jwks(JCount));
    s := Take(s, Jwks(JUnlock));
    assert s == FETCHED;
  }

  lemma StartedIsReachable()
    ensures Reachable(STARTED)
  {
    FetchedIsReachable();
    var s := Take(FETCHED, Jwks(JAnnounce));
    s := Take(s, Loader(LStart));
    s := Take(s, Loader(LDrain));
    assert s == STARTED;
  }

  /** From there: the refresher's timer fires, a second key set arrives and it asks for the
      mutex, and a SIGHUP fills the buffer. Refresher and loader then block each other. */
  lemma DoomIsReachable()
    ensures exists s :: Reachable(s) && Doomed(s)
  {
    StartedIsReachable();
    var s := Take(STARTED, Jwks(JWake));
    s := Take(s, Jwks(JFetch(NewKeys)));
    s := Take(s, Jwks(JLock));
    s := Take(s, Hup);
    assert Doomed(s);
  }
}
