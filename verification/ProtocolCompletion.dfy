/** Which runs of `f` can still be completed, and what that means for reload requests. */
module ProtocolCompletion {
  import opened License
  import opened Protocol
  import opened ProtocolSafety
  import opened ProtocolProgress

  /** The loader is on its way through a run of `f`, from draining the trigger to returning. */
  ghost predicate Underway(l: LoaderPc) {
    l.LDraining? || Running(l) || l.LReturning?
  }

  /** The trigger buffer is full, the refresher will block on it while it owns the mutex, and
      the loader waits for the mutex or, in its first run, is bound to. */
  ghost predicate Stuck(s: State) {
    s.ch.trigger && WillSend(s.j) &&
    ((AtLock(s) && !s.l.pc.LAcquiring?) || (s.l.first && (s.l.pc.LReading? || s.l.pc.LScanning?)))
  }

  // ---------- Stuck runs never complete ----------

  lemma StuckStep(s: State, step: Step)
    requires LockInv(s) && Stuck(s) && Enabled(s, step)
    ensures Stuck(Do(s, step))
  {
    match step
    case Jwks(j) => StuckJwks(s, j);
    case Loader(l) => StuckLoader(s, l);
    case _ =>
  }

  lemma StuckJwks(s: State, step: JwksStep)
    requires LockInv(s) && Stuck(s) && JwksEnabled(s, step)
    ensures Stuck(JwksDo(s, step))
  {
  }

  lemma StuckLoader(s: State, step: LoaderStep)
    requires LockInv(s) && Stuck(s) && LoaderEnabled(s, step)
    ensures Stuck(LoaderDo(s, step))
  {
    assert s.mutex.owner == Some(JwksWriter);
    assert s.l.pc.LLocking? ==> LoaderReader !in s.mutex.readers + s.mutex.waiting;
  }

  lemma {:induction false} StuckForever(s: State, steps: seq<Step>, t: State)
    requires Inv(s) && Stuck(s) && Leads(s, steps, t)
    ensures Stuck(t)
    decreases |steps|
  {
    if steps != [] {
      InvStep(s, steps[0]);
      StuckStep(s, steps[0]);
      StuckForever(Do(s, steps[0]), steps[1..], t);
    }
  }

  // ---------- All other runs complete ----------

  ghost function Remaining(s: State): nat {
    match s.l.pc
    case LDraining(_) => 13
    case LLocking(_) => 12
    case LReading(_) => if LoaderReader in s.mutex.readers then 10 else 11
    case LScanning(_) => 9
    case LPublishing(_) => 8
    case LAcquiring(_) => 7
    case LStoring(_) => 6
    case LSwapping(_) => 5
    case LUnlocking(_, _) => 4
    case LReady(_, _) => 3
    case LClosing(_, _) => 2
    case LReturning(_) => 1
    case _ => 0
  }

  /** The loader's own next step, away from the locks; a scan of the first run publishes. */
  ghost function Next(s: State): LoaderStep {
    match s.l.pc
    case LDraining(_) => LDrain
    case LReading(_) => LRead
    case LScanning(_) => LScan(s.l.first)
    case LStoring(_) => LStore
    case LSwapping(_) => LSwap
    case LUnlocking(_, _) => LUnlock
    case LReady(_, _) => LCloseReady
    case LClosing(_, _) => LCloseUpdate
    case _ => LReturn
  }

  lemma NextStep(s: State)
    requires Underway(s.l.pc) && !AtLock(s) && !Stuck(s)
    ensures LoaderEnabled(s, Next(s))
    ensures var t := LoaderDo(s, Next(s));
            !Stuck(t) && Remaining(t) < Remaining(s) && t.reqs.clients == s.reqs.clients &&
            if s.l.pc.LReturning? then t.l.pc.LIdle? && (s.l.pc.cb.Some? ==> s.l.pc.cb.value in t.reqs.callbacks)
            else Underway(t.l.pc) && Serving(t.l.pc) == Serving(s.l.pc)
  {
  }

  /** Steps of the loader, the refresher and the readers bring the run to its end and answer the
      request that it serves, whether or not its client is still there. */
  lemma {:induction false} Complete(s: State) returns (steps: seq<Step>, t: State)
    requires Inv(s) && Underway(s.l.pc) && !Stuck(s)
    ensures Leads(s, steps, t) && t.l.pc.LIdle? && t.reqs.clients == s.reqs.clients
    ensures Serving(s.l.pc).Some? ==> Serving(s.l.pc).value in t.reqs.callbacks
    decreases Remaining(s)
  {
    if AtLock(s) {
      var a, m := WayOut(s);
      InvAlong(s, a, m);
      var b;
      b, t := Complete(m);
      LeadsOn(s, a, m, b, t);
      steps := a + b;
    } else {
      NextStep(s);
      var step := Loader(Next(s));
      InvStep(s, step);
      var b;
      if s.l.pc.LReturning? {
        b, t := [], Do(s, step);
      } else {
        b, t := Complete(Do(s, step));
      }
      steps := [step] + b;
      assert steps[1..] == b;
    }
  }

  ghost predicate CanComplete(s: State) {
    exists steps, t :: Leads(s, steps, t) && t.l.pc.LIdle?
  }

  /** In every reachable state in which a run of `f` is underway: some continuation, with some
      outcome of the scan, completes it exactly if the state is not stuck. */
  lemma CompletesIff(s: State)
    requires Reachable(s) && Underway(s.l.pc)
    ensures CanComplete(s) <==> !Stuck(s)
  {
    InvReachable(s);
    if Stuck(s) {
      forall steps, t | Leads(s, steps, t)
        ensures !t.l.pc.LIdle?
      {
        StuckForever(s, steps, t);
      }
    } else {
      var steps, t := Complete(s);
    }
  }

  /** The loader does not depend on its clients: an accepted request that it serves can be
      completed, with its callback channel closed, unless the state is stuck. */
  lemma ServedRequestCompletes(s: State, id: nat)
    requires Reachable(s) && Serving(s.l.pc) == Some(id) && !Stuck(s)
    ensures exists steps, t :: Leads(s, steps, t) && t.l.pc.LIdle? && id in t.reqs.callbacks
  {
    InvReachable(s);
    var steps, t := Complete(s);
  }
  lemma OneStep(s: State, step: Step)
    requires Enabled(s, step)
    ensures Leads(s, [step], Do(s, step))
  {
    assert [step][1..] == [];
  }

  lemma RequestIsAccepted(s: State, id: nat) returns (steps: seq<Step>, t: State)
    requires s.l.pc.LIdle? && id !in s.reqs.clients
    ensures Leads(s, steps, t) && t.l.pc == LDraining(Some(id)) && id in t.reqs.clients && t.reqs.clients[id].Accepted?
  {
    var arrive := Reload(id, CArrive);
    var arrived := Do(s, arrive);
    var accept := Loader(LAccept(id));
    OneStep(s, arrive);
    OneStep(arrived, accept);
    steps, t := [arrive] + [accept], Do(arrived, accept);
    LeadsOn(s, [arrive], arrived, [accept], t);
  }

  lemma RequestIsReplied(s: State, id: nat)
    requires id in s.reqs.clients && s.reqs.clients[id].Accepted? && id in s.reqs.callbacks
    ensures Leads(s, [Reload(id, CReply)], Do(s, Reload(id, CReply)))
    ensures var t := Do(s, Reload(id, CReply)); id in t.reqs.clients && t.reqs.clients[id].Replied?
  {
    OneStep(s, Reload(id, CReply));
  }

  /** Whenever the loader is idle, a new reload request can be accepted and, after a complete run of
      `f`, answered with 200, whatever the other goroutines are doing. */
  lemma RequestCanBeAnswered(s: State, id: nat)
    requires Reachable(s) && s.l.pc.LIdle? && id !in s.reqs.clients
    ensures exists steps, t :: Leads(s, steps, t) && id in t.reqs.clients && t.reqs.clients[id].Replied?
  {
    var first, accepted := RequestIsAccepted(s, id);
    InvReachable(s);
    InvAlong(s, first, accepted);
    var run, done := Complete(accepted);
    RequestIsReplied(done, id);
    LeadsOn(s, first, accepted, run, done);
    LeadsOn(s, first + run, done, [Reload(id, CReply)], Do(done, Reload(id, CReply)));
  }
  // ---------- What one update of the key set does ----------

  lemma TakeStep(s: State, steps: seq<Step>, m: State, step: Step)
    requires Leads(s, steps, m) && Enabled(m, step)
    ensures Leads(s, steps + [step], Do(m, step))
  {
    OneStep(m, step);
    LeadsOn(s, steps, m, [step], Do(m, step));
  }

  /** The refresher gets the mutex with its outcome. */
  lemma OutcomeIsCarried(s: State, o: Fetched) returns (steps: seq<Step>, t: State)
    requires s.j.pc.JFetching? && s.mutex == Mutex(None, {}, {})
    ensures Leads(s, steps, t)
    ensures t == s.(j := s.j.(pc := JStoring(o)), mutex := Mutex(Some(JwksWriter), {}, {}))
  {
    var fetched := Do(s, Jwks(JFetch(o)));
    OneStep(s, Jwks(JFetch(o)));
    TakeStep(s, [Jwks(JFetch(o))], fetched, Jwks(JLock));
    var locked := Do(fetched, Jwks(JLock));
    TakeStep(s, [Jwks(JFetch(o))] + [Jwks(JLock)], locked, Jwks(JAcquire));
    steps, t := [Jwks(JFetch(o))] + [Jwks(JLock)] + [Jwks(JAcquire)], Do(locked, Jwks(JAcquire));
  }

  /** The refresher stores new keys, and after the first update triggers a scan for them. */
  lemma KeysAreStored(s: State, o: Fetched) returns (steps: seq<Step>, t: State)
    requires s.j.pc == JStoring(o) && !s.ch.trigger
    ensures Leads(s, steps, t)
    ensures t == s.(j := s.j.(pc := JCounting(o)),
                    server := s.server.(jwks := s.server.jwks + if o == NewKeys then 1 else 0),
                    ch := s.ch.(trigger := o == NewKeys && s.j.started))
  {
    var stored := Do(s, Jwks(JStore));
    OneStep(s, Jwks(JStore));
    steps, t := [Jwks(JStore)], stored;
    if o == NewKeys && s.j.started {
      TakeStep(s, steps, stored, Jwks(JSend));
      steps, t := steps + [Jwks(JSend)], Do(stored, Jwks(JSend));
    }
  }

  /** An update can have any outcome: a key set is stored and, after the first update, triggers a
      scan; the outcome is counted, as a failure if it was cancelled or an error. */
  lemma AnyOutcomeIsCounted(s: State, o: Fetched) returns (steps: seq<Step>, t: State)
    requires s.j.pc.JFetching? && s.mutex == Mutex(None, {}, {}) && !s.ch.trigger
    ensures Leads(s, steps, t) && t.j.outcomes == s.j.outcomes + [o]
    ensures t.server.jwks == s.server.jwks + if o == NewKeys then 1 else 0
    ensures t.ch.trigger <==> o == NewKeys && s.j.started
    ensures t.server.offline == if o == NewKeys || o == NotModified then 0
                                else if s.server.offline >= 2 then 3 else s.server.offline + 1
  {
    var first, a := OutcomeIsCarried(s, o);
    var second, b := KeysAreStored(a, o);
    LeadsOn(s, first, a, second, b);
    TakeStep(s, first + second, b, Jwks(JCount));
    steps, t := first + second + [Jwks(JCount)], Do(b, Jwks(JCount));
  }
}
