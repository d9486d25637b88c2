/** What holds in every reachable state of the goroutine protocol. */
module ProtocolSafety {
  import opened License
  import opened Protocol

  // ---------- The mutex ----------

  ghost predicate JwksOwns(j: JwksPc) {
    j.JAcquiring? || j.JStoring? || j.JSending? || j.JCounting? || j.JUnlocking?
  }

  ghost predicate JwksHolds(j: JwksPc) {
    j.JStoring? || j.JSending? || j.JCounting? || j.JUnlocking?
  }

  ghost predicate LoaderOwns(l: LoaderPc) {
    l.LAcquiring? || l.LStoring? || l.LSwapping? || l.LUnlocking?
  }

  ghost predicate LoaderHolds(l: LoaderPc) {
    l.LStoring? || l.LSwapping? || l.LUnlocking?
  }

  /** Whether a reader is inside or waiting for the read side, by its program counter. */
  ghost predicate Reads(s: State, r: Reader) {
    match r
    case LoaderReader => s.l.pc.LReading?
    case WatcherReader(id) => id in s.watchers && (s.watchers[id].pc.WReading? || s.watchers[id].pc.WReadingClaims?)
  }

  ghost predicate LockInv(s: State) {
    && s.mutex.readers !! s.mutex.waiting
    && (forall r :: r in s.mutex.readers + s.mutex.waiting <==> Reads(s, r))
    && (s.mutex.owner == Some(JwksWriter) <==> JwksOwns(s.j.pc))
    && (s.mutex.owner == Some(LoaderWriter) <==> LoaderOwns(s.l.pc))
    && (JwksHolds(s.j.pc) || LoaderHolds(s.l.pc) ==> s.mutex.readers == {})
    && (s.mutex.owner.None? ==> s.mutex.waiting == {})
  }

  lemma LockStep(s: State, step: Step)
    requires LockInv(s) && Enabled(s, step)
    ensures LockInv(Do(s, step))
  {
    match step
    case Jwks(j) => LockJwks(s, j);
    case Loader(l) => LockLoader(s, l);
    case Watch(id, w) => LockWatcher(s, id, w);
    case Reload(id, c) => LockOther(s, step);
    case Hup => LockOther(s, step);
    case Cancel => LockOther(s, step);
  }

  lemma LockJwks(s: State, step: JwksStep)
    requires LockInv(s) && JwksEnabled(s, step)
    ensures LockInv(JwksDo(s, step))
  {
    var t := JwksDo(s, step);
    assert forall r :: Reads(t, r) <==> Reads(s, r);
  }

  /** The loader's steps at the mutex. */
  predicate AtMutex(step: LoaderStep) {
    step.LRLock? || step.LRead? || step.LLock? || step.LAcquire? || step.LUnlock?
  }

  lemma LockLoader(s: State, step: LoaderStep)
    requires LockInv(s) && LoaderEnabled(s, step)
    ensures LockInv(LoaderDo(s, step))
  {
    if !AtMutex(step) {
      LockLoaderElsewhere(s, step);
    } else if step.LRLock? || step.LRead? {
      LockLoaderReads(s, step);
    } else {
      LockLoaderWrites(s, step);
    }
  }

  lemma LockLoaderElsewhere(s: State, step: LoaderStep)
    requires LockInv(s) && LoaderEnabled(s, step) && !AtMutex(step)
    ensures LockInv(LoaderDo(s, step))
  {
    var t := LoaderDo(s, step);
    assert forall r :: Reads(t, r) <==> Reads(s, r);
  }

  lemma LockLoaderReads(s: State, step: LoaderStep)
    requires LockInv(s) && LoaderEnabled(s, step) && (step.LRLock? || step.LRead?)
    ensures LockInv(LoaderDo(s, step))
  {
    var t := LoaderDo(s, step);
    assert forall r :: r != LoaderReader ==> (Reads(t, r) <==> Reads(s, r));
    assert LoaderReader in s.mutex.readers + s.mutex.waiting <==> Reads(s, LoaderReader);
  }

  lemma LockLoaderWrites(s: State, step: LoaderStep)
    requires LockInv(s) && LoaderEnabled(s, step) && (step.LLock? || step.LAcquire? || step.LUnlock?)
    ensures LockInv(LoaderDo(s, step))
  {
    var t := LoaderDo(s, step);
    assert forall r :: Reads(t, r) <==> Reads(s, r);
  }

  lemma LockWatcher(s: State, id: nat, step: WatcherStep)
    requires LockInv(s) && WatcherEnabled(s, id, step)
    ensures LockInv(WatcherDo(s, id, step))
  {
    var t := WatcherDo(s, id, step);
    assert forall r :: r != WatcherReader(id) ==> (Reads(t, r) <==> Reads(s, r));
    assert WatcherReader(id) in s.mutex.readers + s.mutex.waiting <==> Reads(s, WatcherReader(id));
  }

  lemma LockOther(s: State, step: Step)
    requires LockInv(s) && Enabled(s, step) && (step.Reload? || step.Hup? || step.Cancel?)
    ensures LockInv(Do(s, step))
  {
  }

  // ---------- No key set is lost ----------

  /** The loader has drained or consumed a trigger, or is about to drain, and reads the key set
      after that. */
  ghost predicate BeforeRead(l: LoaderPc) {
    l.LDraining? || l.LLocking? || l.LReading?
  }

  ghost predicate KeysInv(s: State) {
    && (!s.hasUris ==> s.server.jwks == 0 && (s.j.pc.JNoUris? || s.j.pc.JStopped?))
    && (s.j.pc.JNoUris? ==> !s.ch.ready)
    && (s.j.pc.JSending? ==> s.j.started)
    && (s.hasUris ==> !s.j.pc.JNoUris? && s.ch.ready == s.j.started)
    && (!s.ch.ready ==> s.l.pc.LStarting? || s.l.pc.LStopped?)
    && (s.l.captured == s.server.jwks || s.l.pc.LStarting? || s.l.pc.LStopped? || s.ch.trigger ||
        BeforeRead(s.l.pc) || s.j.pc.JSending?)
  }

  lemma KeysStep(s: State, step: Step)
    requires LockInv(s) && KeysInv(s) && Enabled(s, step)
    ensures KeysInv(Do(s, step))
  {
    match step
    case Jwks(j) => KeysJwks(s, j);
    case Loader(l) => KeysLoader(s, l);
    case _ => KeysOther(s, step);
  }

  lemma KeysJwks(s: State, step: JwksStep)
    requires LockInv(s) && KeysInv(s) && JwksEnabled(s, step)
    ensures KeysInv(JwksDo(s, step))
  {
  }

  /** The loader's steps before a run of `f`. */
  predicate BeforeRun(step: LoaderStep) {
    step.LStart? || step.LDrain? || step.LAccept? || step.LTake? || step.LTick? || step.LStop?
  }

  lemma KeysLoader(s: State, step: LoaderStep)
    requires LockInv(s) && KeysInv(s) && LoaderEnabled(s, step)
    ensures KeysInv(LoaderDo(s, step))
  {
    if BeforeRun(step) {
      KeysBeforeRun(s, step);
    } else {
      KeysInRun(s, step);
    }
  }

  lemma KeysBeforeRun(s: State, step: LoaderStep)
    requires KeysInv(s) && LoaderEnabled(s, step) && BeforeRun(step)
    ensures KeysInv(LoaderDo(s, step))
  {
  }

  lemma KeysInRun(s: State, step: LoaderStep)
    requires KeysInv(s) && LoaderEnabled(s, step) && !BeforeRun(step)
    ensures KeysInv(LoaderDo(s, step))
  {
  }

  lemma KeysOther(s: State, step: Step)
    requires LockInv(s) && KeysInv(s) && Enabled(s, step) && !step.Jwks? && !step.Loader?
    ensures KeysInv(Do(s, step))
  {
  }

  // ---------- Updates are broadcast ----------

  /** The loader has replaced the update channel and not yet closed the old one. */
  ghost predicate Replacing(l: LoaderPc) {
    l.LUnlocking? || l.LReady? || l.LClosing?
  }

  ghost predicate UpdateInv(s: State) {
    var pc := s.l.pc;
    && s.server.claims == s.server.updateCh + (if pc.LSwapping? then 1 else 0)
    && (Replacing(pc) ==> pc.replaced + 1 == s.server.updateCh)
    && (forall ch: nat :: ch in s.server.closed <==> ch < s.server.updateCh && !(Replacing(pc) && ch == pc.replaced))
    && (s.server.readyClosed <==> !s.l.first)
  }

  lemma UpdateStep(s: State, step: Step)
    requires UpdateInv(s) && Enabled(s, step)
    ensures UpdateInv(Do(s, step))
  {
    match step
    case Jwks(j) => UpdateJwks(s, j);
    case Loader(l) => UpdateLoader(s, l);
    case _ => UpdateOther(s, step);
  }

  lemma UpdateJwks(s: State, step: JwksStep)
    requires UpdateInv(s) && JwksEnabled(s, step)
    ensures UpdateInv(JwksDo(s, step))
  {
  }

  lemma UpdateLoader(s: State, step: LoaderStep)
    requires UpdateInv(s) && LoaderEnabled(s, step)
    ensures UpdateInv(LoaderDo(s, step))
  {
    if BeforeRun(step) {
      UpdateBeforeRun(s, step);
    } else {
      UpdateInRun(s, step);
    }
  }

  lemma UpdateBeforeRun(s: State, step: LoaderStep)
    requires UpdateInv(s) && LoaderEnabled(s, step) && BeforeRun(step)
    ensures UpdateInv(LoaderDo(s, step))
  {
  }

  lemma UpdateInRun(s: State, step: LoaderStep)
    requires UpdateInv(s) && LoaderEnabled(s, step) && !BeforeRun(step)
    ensures UpdateInv(LoaderDo(s, step))
  {
  }

  lemma UpdateOther(s: State, step: Step)
    requires UpdateInv(s) && Enabled(s, step) && !step.Jwks? && !step.Loader?
    ensures UpdateInv(Do(s, step))
  {
  }

  ghost predicate WatcherInv(s: State, w: Watcher) {
    && w.seen <= s.server.claims
    && (w.pc.WWaiting? ==> w.seen <= w.pc.ch <= s.server.updateCh)
    && (w.pc.WWoken? || w.pc.WReadingClaims? ==> w.seen <= w.pc.ch < s.server.updateCh)
  }

  ghost predicate WatchersInv(s: State) {
    forall id :: id in s.watchers ==> WatcherInv(s, s.watchers[id])
  }

  lemma WatchersStep(s: State, step: Step)
    requires LockInv(s) && UpdateInv(s) && WatchersInv(s) && Enabled(s, step)
    ensures WatchersInv(Do(s, step))
  {
    match step
    case Jwks(j) => WatchersJwks(s, j);
    case Loader(l) => WatchersLoader(s, l);
    case Watch(id, w) => WatchersWatch(s, id, w);
    case _ =>
  }

  lemma WatchersJwks(s: State, step: JwksStep)
    requires LockInv(s) && UpdateInv(s) && WatchersInv(s) && JwksEnabled(s, step)
    ensures WatchersInv(JwksDo(s, step))
  {
  }

  lemma WatchersLoader(s: State, step: LoaderStep)
    requires LockInv(s) && UpdateInv(s) && WatchersInv(s) && LoaderEnabled(s, step)
    ensures WatchersInv(LoaderDo(s, step))
  {
  }

  lemma WatchersWatch(s: State, id: nat, step: WatcherStep)
    requires LockInv(s) && UpdateInv(s) && WatchersInv(s) && WatcherEnabled(s, id, step)
    ensures WatchersInv(WatcherDo(s, id, step))
  {
  }

  // ---------- Reload requests ----------

  /** Whether a run of `f` is in progress. */
  ghost predicate Running(l: LoaderPc) {
    l.LLocking? || l.LReading? || l.LScanning? || l.LPublishing? || LoaderOwns(l) || l.LReady? || l.LClosing?
  }

  ghost function Serving(l: LoaderPc): Option<nat> {
    if l.LStarting? || l.LIdle? || l.LStopped? then None else l.cb
  }

  /** `served` tells whether the loader is serving this request, `called` whether its callback
      channel was closed. */
  ghost predicate ClientInv(l: Loading, served: bool, called: bool, client: Client) {
    match client
    case Trying => !called && !served
    case Accepted(at) =>
      && at <= l.begun
      && (called ==> at < l.done)
      && (served ==> !called && if l.pc.LDraining? then at == l.begun else at < l.begun)
    case Replied(at, done) => at < done <= l.done && called && !served
    case Left => !(served && called)
  }

  /** Runs of `f` are counted, and requests are only served after they came. */
  ghost predicate Counted(s: State) {
    && s.l.begun == s.l.done + (if Running(s.l.pc) then 1 else 0)
    && (forall id :: id in s.reqs.callbacks ==> id in s.reqs.clients)
    && (Serving(s.l.pc).Some? ==> Serving(s.l.pc).value in s.reqs.clients)
  }

  ghost predicate ClientsInv(s: State) {
    && Counted(s)
    && forall id :: id in s.reqs.clients ==>
         ClientInv(s.l, Serving(s.l.pc) == Some(id), id in s.reqs.callbacks, s.reqs.clients[id])
  }

  lemma ClientsStep(s: State, step: Step)
    requires ClientsInv(s) && Enabled(s, step)
    ensures ClientsInv(Do(s, step))
  {
    match step
    case Jwks(j) => ClientsJwks(s, j);
    case Loader(l) => ClientsLoader(s, l);
    case _ => ClientsOther(s, step);
  }

  lemma ClientsJwks(s: State, step: JwksStep)
    requires ClientsInv(s) && JwksEnabled(s, step)
    ensures ClientsInv(JwksDo(s, step))
  {
  }

  lemma ClientLoader(s: State, step: LoaderStep, id: nat)
    requires ClientsInv(s) && LoaderEnabled(s, step) && id in s.reqs.clients
    ensures var t := LoaderDo(s, step);
            id in t.reqs.clients &&
            ClientInv(t.l, Serving(t.l.pc) == Some(id), id in t.reqs.callbacks, t.reqs.clients[id])
  {
    if BeforeRun(step) {
      ClientBeforeRun(s, step, id);
    } else {
      ClientInRun(s, step, id);
    }
  }

  lemma ClientBeforeRun(s: State, step: LoaderStep, id: nat)
    requires ClientsInv(s) && LoaderEnabled(s, step) && id in s.reqs.clients && BeforeRun(step)
    ensures var t := LoaderDo(s, step);
            id in t.reqs.clients &&
            ClientInv(t.l, Serving(t.l.pc) == Some(id), id in t.reqs.callbacks, t.reqs.clients[id])
  {
    assert ClientInv(s.l, Serving(s.l.pc) == Some(id), id in s.reqs.callbacks, s.reqs.clients[id]);
  }

  lemma ClientInRun(s: State, step: LoaderStep, id: nat)
    requires ClientsInv(s) && LoaderEnabled(s, step) && id in s.reqs.clients && !BeforeRun(step)
    ensures var t := LoaderDo(s, step);
            id in t.reqs.clients &&
            ClientInv(t.l, Serving(t.l.pc) == Some(id), id in t.reqs.callbacks, t.reqs.clients[id])
  {
    assert ClientInv(s.l, Serving(s.l.pc) == Some(id), id in s.reqs.callbacks, s.reqs.clients[id]);
  }

  lemma ClientsLoader(s: State, step: LoaderStep)
    requires ClientsInv(s) && LoaderEnabled(s, step)
    ensures ClientsInv(LoaderDo(s, step))
  {
    var t := LoaderDo(s, step);
    RunsCounted(s, step);
    forall id | id in t.reqs.clients
      ensures ClientInv(t.l, Serving(t.l.pc) == Some(id), id in t.reqs.callbacks, t.reqs.clients[id])
    {
      ClientLoader(s, step, id);
    }
  }

  lemma RunsCounted(s: State, step: LoaderStep)
    requires Counted(s) && LoaderEnabled(s, step)
    ensures Counted(LoaderDo(s, step)) && LoaderDo(s, step).reqs.clients.Keys == s.reqs.clients.Keys
  {
    if BeforeRun(step) {
      CountedBeforeRun(s, step);
    } else {
      CountedInRun(s, step);
    }
  }

  lemma CountedBeforeRun(s: State, step: LoaderStep)
    requires Counted(s) && LoaderEnabled(s, step) && BeforeRun(step)
    ensures Counted(LoaderDo(s, step)) && LoaderDo(s, step).reqs.clients.Keys == s.reqs.clients.Keys
  {
  }

  lemma CountedInRun(s: State, step: LoaderStep)
    requires Counted(s) && LoaderEnabled(s, step) && !BeforeRun(step)
    ensures Counted(LoaderDo(s, step)) && LoaderDo(s, step).reqs.clients.Keys == s.reqs.clients.Keys
  {
  }

  lemma ClientsOther(s: State, step: Step)
    requires ClientsInv(s) && Enabled(s, step) && !step.Jwks? && !step.Loader?
    ensures ClientsInv(Do(s, step))
  {
  }

  // ---------- Signals and the offline counter ----------

  /** A trigger is in the buffer, or the loader has taken it and not yet begun its scan. */
  ghost predicate ScanComes(s: State) {
    s.ch.trigger || s.l.pc.LLocking? || s.l.pc.LReading?
  }

  lemma ScanStillComes(s: State, step: Step)
    requires ScanComes(s) && Enabled(s, step) && step != Loader(LRead)
    ensures ScanComes(Do(s, step))
  {
    match step
    case Jwks(j) =>
    case Loader(l) =>
    case _ =>
  }

  // ---------- Readiness ----------

  /** The ready channel is closed once, after the first publication. */
  ghost predicate ReadyInv(s: State) {
    var pc := s.l.pc;
    && (s.l.first ==> s.server.claims == 0 || pc.LSwapping? || pc.LUnlocking? || pc.LReady?)
    && (!s.l.first || pc.LSwapping? || pc.LUnlocking? || pc.LReady? ==> s.server.claims > 0)
  }

  lemma ReadyStep(s: State, step: Step)
    requires ReadyInv(s) && Enabled(s, step)
    ensures ReadyInv(Do(s, step))
  {
    match step
    case Jwks(j) =>
    case Loader(l) =>
    case _ =>
  }

  ghost predicate Failure(o: Fetched) {
    o.Cancelled? || o.FetchError?
  }

  ghost function TrailingFailures(os: seq<Fetched>): nat {
    if os == [] || !Failure(os[|os| - 1]) then 0 else 1 + TrailingFailures(os[..|os| - 1])
  }

  /** The failures since the last success, capped; the threshold when there was no success. */
  ghost function OfflineCount(os: seq<Fetched>): nat {
    if (forall i :: 0 <= i < |os| ==> Failure(os[i])) || TrailingFailures(os) > OFFLINE_THRESHOLD then OFFLINE_THRESHOLD
    else TrailingFailures(os)
  }

  lemma OfflineCountGrows(os: seq<Fetched>, o: Fetched)
    ensures OfflineCount(os + [o]) == Count(OfflineCount(os), FetchedOffline(o))
  {
    var more := os + [o];
    assert more[..|os|] == os && more[|os|] == o;
    assert forall i :: 0 <= i < |os| ==> more[i] == os[i];
  }

  lemma OfflineStep(s: State, step: Step)
    requires s.server.offline == OfflineCount(s.j.outcomes) && Enabled(s, step)
    ensures Do(s, step).server.offline == OfflineCount(Do(s, step).j.outcomes)
  {
    if step == Jwks(JCount) {
      OfflineCountGrows(s.j.outcomes, s.j.pc.o);
    } else {
      OfflineStays(s, step);
    }
  }

  lemma OfflineStays(s: State, step: Step)
    requires Enabled(s, step) && step != Jwks(JCount)
    ensures Do(s, step).server.offline == s.server.offline && Do(s, step).j.outcomes == s.j.outcomes
  {
    match step
    case Jwks(_) =>
    case Loader(_) =>
    case _ =>
  }

  // ---------- Every reachable state ----------

  ghost predicate Inv(s: State) {
    && LockInv(s) && KeysInv(s) && UpdateInv(s) && WatchersInv(s) && ClientsInv(s) && ReadyInv(s)
    && s.server.offline == OfflineCount(s.j.outcomes)
  }

  lemma InvStep(s: State, step: Step)
    requires Inv(s) && Enabled(s, step)
    ensures Inv(Do(s, step))
  {
    LockStep(s, step);
    KeysStep(s, step);
    UpdateStep(s, step);
    WatchersStep(s, step);
    ClientsStep(s, step);
    ReadyStep(s, step);
    OfflineStep(s, step);
  }

  lemma {:induction false} InvAlong(s: State, steps: seq<Step>, t: State)
    requires Inv(s) && Leads(s, steps, t)
    ensures Inv(t)
    decreases |steps|
  {
    if steps != [] {
      InvStep(s, steps[0]);
      InvAlong(Do(s, steps[0]), steps[1..], t);
    }
  }

  lemma InitialInv(hasUris: bool)
    ensures Inv(Initial(hasUris))
  {
  }

  lemma InvReachable(t: State)
    requires Reachable(t)
    ensures Inv(t)
  {
    var hasUris, steps :| Leads(Initial(hasUris), steps, t);
    InitialInv(hasUris);
    InvAlong(Initial(hasUris), steps, t);
  }

  // ---------- The promises ----------

  /** No update of the key set is lost: outside the refresher's critical section, the loader
      works with the current keys, or its first read is still to come, or a trigger is in the
      buffer, or the loader has taken one and not read the keys since, or it was stopped. */
  lemma NoKeysLost(t: State)
    requires Reachable(t)
    requires !t.j.pc.JStoring? && !t.j.pc.JSending? && !t.j.pc.JCounting? && !t.j.pc.JUnlocking?
    ensures || t.l.captured == t.server.jwks
            || t.l.pc.LStarting? || t.ch.trigger
            || t.l.pc.LDraining? || t.l.pc.LLocking? || t.l.pc.LReading?
            || t.l.pc.LStopped?
  {
    InvReachable(t);
  }

  /** Every channel is closed at most once: closing a closed channel would panic. */
  lemma ChannelsClosedOnce(t: State)
    requires Reachable(t)
    ensures t.l.pc.LClosing? ==> t.l.pc.replaced !in t.server.closed
    ensures t.l.pc.LReady? && t.l.first ==> !t.server.readyClosed
    ensures t.l.pc.LReturning? && t.l.pc.cb.Some? ==> t.l.pc.cb.value !in t.reqs.callbacks
    ensures t.j.pc.JNoUris? || (t.j.pc.JAnnouncing? && !t.j.started) ==> !t.ch.ready
  {
    InvReachable(t);
  }

  /** The claims and the channel change in one critical section: whoever holds the read side
      sees the channel that belongs to the claims. */
  lemma SwapIsAtomic(t: State)
    requires Reachable(t) && t.mutex.readers != {}
    ensures t.server.claims == t.server.updateCh
  {
    InvReachable(t);
  }

  /** A watcher woken by channel `ch` reads claims newer than that channel's, and newer than
      all it has read before. */
  lemma WokenReadsNewer(t: State, id: nat)
    requires Reachable(t) && WatcherEnabled(t, id, WReadClaims)
    ensures var before, after := t.watchers[id], WatcherDo(t, id, WReadClaims).watchers[id];
            after.seen == t.server.claims && after.seen >= before.pc.ch + 1 && after.seen > before.seen
  {
    InvReachable(t);
    assert WatcherInv(t, t.watchers[id]);
  }

  /** A watcher that waits on an open channel waits on the current one, unless the loader is
      just about to close it: no publication leaves a watcher behind for good. */
  lemma WaitsOnCurrentChannel(t: State, id: nat)
    requires Reachable(t) && id in t.watchers && t.watchers[id].pc.WWaiting?
    requires t.watchers[id].pc.ch !in t.server.closed
    ensures var ch := t.watchers[id].pc.ch;
            ch == t.server.updateCh ||
            ((t.l.pc.LUnlocking? || t.l.pc.LReady? || t.l.pc.LClosing?) && ch == t.l.pc.replaced)
  {
    InvReachable(t);
    assert WatcherInv(t, t.watchers[id]);
  }

  ghost predicate StopInv(s: State) {
    && (s.l.pc.LStopped? ==> s.ch.cancelled)
    && (s.j.pc.JStopped? ==> s.ch.cancelled || !s.hasUris)
    && (s.j.pc.JNoUris? ==> !s.hasUris)
  }

  lemma StopStep(s: State, step: Step)
    requires StopInv(s) && Enabled(s, step)
    ensures StopInv(Do(s, step))
  {
    match step
    case Jwks(_) =>
    case Loader(_) =>
    case _ =>
  }

  lemma {:induction false} StopAlong(s: State, steps: seq<Step>, t: State)
    requires StopInv(s) && Leads(s, steps, t)
    ensures StopInv(t)
    decreases |steps|
  {
    if steps != [] {
      StopStep(s, steps[0]);
      StopAlong(Do(s, steps[0]), steps[1..], t);
    }
  }

  /** The loader stops only after a shutdown was requested, and so does a refresher with mirrors. */
  lemma RunsUntilCancelled(t: State)
    requires Reachable(t)
    ensures t.l.pc.LStopped? ==> t.ch.cancelled
    ensures t.j.pc.JStopped? && t.hasUris ==> t.ch.cancelled
  {
    var hasUris, steps :| Leads(Initial(hasUris), steps, t);
    StopAlong(Initial(hasUris), steps, t);
  }

  /** A reload request that was answered with 200 saw a run of `f` that began after it was
      accepted and finished before the answer. */
  lemma ReplyMeansReload(t: State, id: nat)
    requires Reachable(t) && id in t.reqs.clients && t.reqs.clients[id].Replied?
    ensures t.reqs.clients[id].at + 1 <= t.reqs.clients[id].done
  {
    InvReachable(t);
  }

  lemma {:induction false} ScanComesAlong(s: State, steps: seq<Step>, t: State)
    requires ScanComes(s) && Leads(s, steps, t) && forall i :: 0 <= i < |steps| ==> steps[i] != Loader(LRead)
    ensures ScanComes(t)
    decreases |steps|
  {
    if steps != [] {
      ScanStillComes(s, steps[0]);
      ScanComesAlong(Do(s, steps[0]), steps[1..], t);
    }
  }

  /** A handled SIGHUP is not lost: as long as no scan begins after it, a trigger is in the buffer
      or the loader is on its way to that scan. */
  lemma HupNotLost(s: State, steps: seq<Step>, t: State)
    requires Leads(Do(s, Hup), steps, t) && forall i :: 0 <= i < |steps| ==> steps[i] != Loader(LRead)
    ensures t.ch.trigger || t.l.pc.LLocking? || t.l.pc.LReading?
  {
    ScanComesAlong(Do(s, Hup), steps, t);
  }

  /** The server is ready exactly from the end of the first publication on. */
  lemma ReadyOncePublished(t: State)
    requires Reachable(t) && !t.l.pc.LSwapping? && !t.l.pc.LUnlocking? && !t.l.pc.LReady?
    ensures t.server.readyClosed <==> t.server.claims > 0
  {
    InvReachable(t);
  }

  /** Shutdown gets through: once it is requested, an idle loader and a sleeping refresher can stop. */
  lemma CanBeStopped(s: State)
    requires s.l.pc.LIdle? || s.l.pc.LStarting?
    ensures var cancelled := Do(s, Cancel);
            && Enabled(s, Cancel) && cancelled.ch.cancelled
            && Enabled(cancelled, Loader(LStop)) && Do(cancelled, Loader(LStop)).l.pc.LStopped?
            && (s.j.pc.JSleeping? ==>
                  Enabled(cancelled, Jwks(JStop)) && Do(cancelled, Jwks(JStop)).j.pc.JStopped?)
  {
  }

  /** Clients can leave whenever they wait, and nobody else notices. */
  lemma DeparturesGoUnnoticed(s: State, id: nat)
    ensures id in s.reqs.clients && (s.reqs.clients[id].Trying? || s.reqs.clients[id].Accepted?) ==>
              var leave := Reload(id, CLeave);
              Enabled(s, leave) && Do(s, leave) == s.(reqs := s.reqs.(clients := s.reqs.clients[id := Left]))
    ensures id in s.watchers && (var pc := s.watchers[id].pc; pc.WLocking? || pc.WWaiting? || pc.WWoken?) ==>
              var leave := Watch(id, WLeave);
              Enabled(s, leave) && Do(s, leave) == s.(watchers := s.watchers[id := s.watchers[id].(pc := WGone)])
  {
  }

  /** The API reports offline exactly if no update has yet brought a key set or found the old one
      unchanged, or each of the last three was cancelled or failed. */
  lemma OfflineMeansThreeFailures(t: State)
    requires Reachable(t)
    ensures var os := t.j.outcomes;
            t.server.offline >= OFFLINE_THRESHOLD <==>
            (forall i :: 0 <= i < |os| ==> os[i] != NewKeys && os[i] != NotModified) ||
            (|os| >= 3 && forall i :: |os| - 3 <= i < |os| ==> os[i] == Cancelled || os[i] == FetchError)
  {
    InvReachable(t);
    var os := t.j.outcomes;
    FailuresAtLeast(os, 3);
    assert forall i :: 0 <= i < |os| ==> (Failure(os[i]) <==> os[i] != NewKeys && os[i] != NotModified);
  }

  lemma {:induction false} FailuresAtLeast(os: seq<Fetched>, k: nat)
    ensures TrailingFailures(os) >= k <==> |os| >= k && forall i :: |os| - k <= i < |os| ==> Failure(os[i])
  {
    if k > 0 && os != [] {
      var n := |os| - 1;
      FailuresAtLeast(os[..n], k - 1);
      assert forall i :: 0 <= i < n ==> os[..n][i] == os[i];
    }
  }
}
