/** Over all fair runs: if the trigger buffer has room whenever the refresher gets to its send,
    then every run of `f` gets its locks and completes. */
module ProtocolFairness {
  import opened Protocol
  import opened ProtocolSafety
  import opened ProtocolProgress
  import opened ProtocolCompletion

  /** The proviso. */
  ghost predicate Room(s: State) {
    s.j.pc.JSending? ==> !s.ch.trigger
  }

  /** The loader waits in a call of `RLock` or `Lock`: for the refresher to unlock, for the
      readers to leave, or for the refresher to unlock before it can announce its own `Lock`. */
  ghost predicate Waiting(s: State) {
    || (s.l.pc.LReading? && LoaderReader !in s.mutex.readers)
    || s.l.pc.LAcquiring?
    || (s.l.pc.LPublishing? && JwksOwns(s.j.pc))
  }

  /** What the loader waits for: the lock, or the chance to announce its `Lock`. */
  ghost predicate Released(s: State) {
    GotLock(s) || (s.l.pc.LPublishing? && s.mutex.owner.None?)
  }

  /** The steps that can still come before the loader is released: stages of the refresher's
      critical section, readers inside, and the loader's own last step. */
  ghost function Measure(s: State): nat {
    Stages(s.j.pc) + |s.mutex.readers| + if s.l.pc.LAcquiring? then 1 else 0
  }

  /** A step of the refresher in its critical section, of a reader inside, or of the loader. */
  ghost predicate Helps(s: State, step: Step) {
    match step
    case Jwks(_) => JwksOwns(s.j.pc)
    case Watch(id, _) => WatcherReader(id) in s.mutex.readers
    case Loader(_) => true
    case _ => false
  }

  // ---------- While the loader waits ----------

  /** No step raises the measure, every helping step lowers it, and the loader stays where it is
      until it is released. */
  lemma WaitStep(s: State, step: Step)
    requires Inv(s) && Waiting(s) && Enabled(s, step)
    ensures var t := Do(s, step);
            && Serving(t.l.pc) == Serving(s.l.pc)
            && (t.l == s.l || (s.l.pc.LAcquiring? && t.l.pc.LStoring?))
            && (Released(t) || (Waiting(t) && if Helps(s, step) then Measure(t) < Measure(s) else Measure(t) == Measure(s)))
  {
    WaitingFacts(s);
    match step
    case Jwks(j) => WaitJwks(s, j);
    case Loader(l) =>
    case Watch(id, w) => WaitWatcher(s, id, w);
    case _ =>
  }

  lemma WaitingFacts(s: State)
    requires Inv(s) && Waiting(s)
    ensures s.mutex.owner.Some? && LoaderReader !in s.mutex.readers
    ensures s.l.pc.LAcquiring? ==> !JwksOwns(s.j.pc)
    ensures !s.l.pc.LAcquiring? ==> JwksOwns(s.j.pc)
    ensures JwksHolds(s.j.pc) ==> s.mutex.readers == {}
    ensures s.l.pc.LReading? ==> LoaderReader in s.mutex.waiting
    ensures forall id :: WatcherReader(id) in s.mutex.readers ==>
              id in s.watchers && (s.watchers[id].pc.WReading? || s.watchers[id].pc.WReadingClaims?)
  {
    assert LockInv(s);
    assert LoaderReader in s.mutex.readers + s.mutex.waiting <==> Reads(s, LoaderReader);
    assert s.mutex.owner.Some?;
    match s.mutex.owner.value
    case JwksWriter =>
    case LoaderWriter =>
    forall id | WatcherReader(id) in s.mutex.readers
      ensures Reads(s, WatcherReader(id))
    {
      assert WatcherReader(id) in s.mutex.readers + s.mutex.waiting;
    }
  }

  lemma WaitJwks(s: State, step: JwksStep)
    requires Inv(s) && Waiting(s) && JwksEnabled(s, step)
    ensures var t := JwksDo(s, step);
            Released(t) || (Waiting(t) && if JwksOwns(s.j.pc) then Measure(t) < Measure(s) else Measure(t) == Measure(s))
  {
    WaitingFacts(s);
  }

  lemma WaitWatcher(s: State, id: nat, step: WatcherStep)
    requires Inv(s) && Waiting(s) && WatcherEnabled(s, id, step)
    ensures var t := WatcherDo(s, id, step);
            && t.l == s.l && Waiting(t)
            && (if WatcherReader(id) in s.mutex.readers then Measure(t) < Measure(s) else Measure(t) == Measure(s))
  {
    WaitingFacts(s);
    var r := WatcherReader(id);
    if r in s.mutex.readers {
      assert s.mutex.readers == (s.mutex.readers - {r}) + {r};
    }
  }

  /** Those whose next step is not up to timers or the environment. */
  datatype Agent = RefresherAgent | ReaderAgent(id: nat) | LoaderAgent

  /** The agent is in the middle of its work and can go on. */
  ghost predicate Ready(s: State, a: Agent) {
    match a
    case RefresherAgent =>
      || (s.j.pc.JAcquiring? && s.mutex.readers == {})
      || s.j.pc.JStoring? || (s.j.pc.JSending? && !s.ch.trigger) || s.j.pc.JCounting? || s.j.pc.JUnlocking?
    case ReaderAgent(id) => WatcherReader(id) in s.mutex.readers
    case LoaderAgent => Underway(s.l.pc) && LoaderEnabled(s, Move(s.l.pc))
  }

  /** The loader's own next step within `f`. */
  ghost function Move(pc: LoaderPc): LoaderStep {
    match pc
    case LDraining(_) => LDrain
    case LLocking(_) => LRLock
    case LReading(_) => LRead
    case LScanning(_) => LScan(true)
    case LPublishing(_) => LLock
    case LAcquiring(_) => LAcquire
    case LStoring(_) => LStore
    case LSwapping(_) => LSwap
    case LUnlocking(_, _) => LUnlock
    case LReady(_, _) => LCloseReady
    case LClosing(_, _) => LCloseUpdate
    case _ => LReturn
  }

  predicate Acts(step: Step, a: Agent) {
    match a
    case RefresherAgent => step.Jwks?
    case ReaderAgent(id) => step.Watch? && step.w == id
    case LoaderAgent => step.Loader?
  }

  /** Fairness asks for nothing impossible: whoever is ready has a step to take. */
  lemma ReadyCanAct(s: State, a: Agent)
    requires Inv(s) && Ready(s, a)
    ensures exists step :: Enabled(s, step) && Acts(step, a)
  {
    match a
    case RefresherAgent =>
      var step := match s.j.pc
        case JAcquiring(_) => JAcquire
        case JStoring(_) => JStore
        case JSending(_) => JSend
        case JCounting(_) => JCount
        case _ => JUnlock;
      assert Enabled(s, Jwks(step)) && Acts(Jwks(step), a);
    case ReaderAgent(id) =>
      assert WatcherReader(id) in s.mutex.readers + s.mutex.waiting && Reads(s, WatcherReader(id));
      var step := if s.watchers[id].pc.WReading? then WRead else WReadClaims;
      assert Enabled(s, Watch(id, step)) && Acts(Watch(id, step), a);
    case LoaderAgent =>
      assert Enabled(s, Loader(Move(s.l.pc))) && Acts(Loader(Move(s.l.pc)), a);
  }

  /** Whom the loader waits for. */
  ghost function Awaited(s: State): Agent {
    if s.mutex.readers != {} then
      var r := SomeReader(s.mutex.readers);
      if r.WatcherReader? then ReaderAgent(r.id) else LoaderAgent
    else if s.l.pc.LAcquiring? then LoaderAgent
    else RefresherAgent
  }

  /** With room in the buffer, whoever the loader waits for can go on; */
  lemma AwaitedIsReady(s: State)
    requires Inv(s) && Waiting(s) && Room(s)
    ensures Ready(s, Awaited(s))
  {
    WaitingFacts(s);
  }

  /** and can still do so until it does, unless another helping step comes first. */
  lemma AwaitedStaysReady(s: State, step: Step, a: Agent)
    requires Inv(s) && Waiting(s) && Enabled(s, step) && Room(Do(s, step))
    requires Ready(s, a) && (a.LoaderAgent? ==> s.l.pc.LAcquiring?)
    ensures if Acts(step, a) then Helps(s, step) else Helps(s, step) || Ready(Do(s, step), a)
  {
    WaitingFacts(s);
  }

  // ---------- Finite runs: a bound on the wait ----------

  /** The steps among the first `n` that helped. */
  ghost function HelpingSteps(states: seq<State>, steps: seq<Step>, n: nat): set<int>
    requires n <= |steps| < |states|
  {
    set i | 0 <= i < n && Helps(states[i], steps[i])
  }

  lemma OneMoreStep(states: seq<State>, steps: seq<Step>, n: nat)
    requires n < |steps| < |states|
    ensures |HelpingSteps(states, steps, n + 1)| ==
            |HelpingSteps(states, steps, n)| + if Helps(states[n], steps[n]) then 1 else 0
  {
    var before := HelpingSteps(states, steps, n);
    assert HelpingSteps(states, steps, n + 1) == before + if Helps(states[n], steps[n]) then {n} else {};
    assert n !in before;
  }

  /** One step of a wait: the measure goes down exactly if the step helps. */
  lemma StillWaits(s: State, step: Step, t: State)
    requires Inv(s) && Waiting(s) && Enabled(s, step) && t == Do(s, step) && !Released(t)
    ensures Inv(t) && if Helps(s, step) then Measure(t) < Measure(s) else Measure(t) == Measure(s)
  {
    WaitStep(s, step);
    InvStep(s, step);
  }

  lemma {:induction false} MeasureGoesDown(states: seq<State>, steps: seq<Step>, n: nat)
    requires n <= |steps| < |states| && Inv(states[0])
    requires forall i :: 0 <= i < |steps| ==> Enabled(states[i], steps[i]) && states[i + 1] == Do(states[i], steps[i])
    requires forall i :: 0 <= i <= n ==> Waiting(states[i]) && !Released(states[i])
    ensures Inv(states[n]) && Measure(states[n]) + |HelpingSteps(states, steps, n)| <= Measure(states[0])
  {
    if n > 0 {
      MeasureGoesDown(states, steps, n - 1);
      StillWaits(states[n - 1], steps[n - 1], states[n]);
      OneMoreStep(states, steps, n - 1);
    }
  }

  /** However long the loader waits, no more helping steps are taken meanwhile than the measure
      said at the beginning. */
  lemma BoundedWait(states: seq<State>, steps: seq<Step>, n: nat)
    requires n <= |steps| < |states| && Inv(states[0])
    requires forall i :: 0 <= i < |steps| ==> Enabled(states[i], steps[i]) && states[i + 1] == Do(states[i], steps[i])
    requires forall i :: 0 <= i <= n ==> Waiting(states[i]) && !Released(states[i])
    ensures |set i | 0 <= i < n && Helps(states[i], steps[i])| <= Measure(states[0])
  {
    MeasureGoesDown(states, steps, n);
    assert HelpingSteps(states, steps, n) == set i | 0 <= i < n && Helps(states[i], steps[i]);
  }

  // ---------- Infinite runs ----------

  ghost predicate IsRun(states: nat -> State, steps: nat -> Step) {
    && Reachable(states(0))
    && forall n: nat {:trigger steps(n)} :: Enabled(states(n), steps(n)) && states(n + 1) == Do(states(n), steps(n))
  }

  ghost predicate FairPoint(s: State, step: Step, a: Agent) {
    Ready(s, a) ==> Acts(step, a)
  }

  ghost predicate FairMoment(states: nat -> State, steps: nat -> Step, a: Agent, m: nat) {
    FairPoint(states(m), steps(m), a)
  }

  ghost predicate FairAfter(states: nat -> State, steps: nat -> Step, a: Agent, n: nat) {
    exists m :: n <= m && FairMoment(states, steps, a, m)
  }

  lemma NextFairMoment(states: nat -> State, steps: nat -> Step, a: Agent, n: nat) returns (m: nat)
    requires Fair(states, steps)
    ensures n <= m && FairPoint(states(m), steps(m), a)
  {
    assert FairAfter(states, steps, a, n);
    m :| n <= m && FairMoment(states, steps, a, m);
  }

  /** No agent can go on forever without doing so. */
  ghost predicate Fair(states: nat -> State, steps: nat -> Step) {
    forall a, n :: FairAfter(states, steps, a, n)
  }

  ghost predicate FreeAfter(states: nat -> State, n: nat) {
    exists m :: n <= m && states(m).mutex.owner.None?
  }

  ghost predicate StaysPublishing(states: nat -> State, n: nat) {
    forall m :: n <= m ==> states(m).l.pc.LPublishing?
  }

  /** The hand-off between the two writers: the loader is not passed over forever when it calls
      `Lock` and the mutex becomes free again and again. */
  ghost predicate HandsOff(states: nat -> State) {
    forall n :: StaysPublishing(states, n) ==> exists m :: n <= m && !FreeAfter(states, m)
  }

  ghost predicate RoomThroughout(states: nat -> State) {
    forall n :: Room(states(n))
  }

  lemma {:induction false} InvRun(states: nat -> State, steps: nat -> Step, n: nat)
    requires IsRun(states, steps)
    ensures Inv(states(n)) && Enabled(states(n), steps(n)) && states(n + 1) == Do(states(n), steps(n))
  {
    if n == 0 {
      InvReachable(states(0));
    } else {
      InvRun(states, steps, n - 1);
      InvStep(states(n - 1), steps(n - 1));
    }
    assert Enabled(states(n), steps(n));
  }

  /** The loader still waits, for the same agent, and no helping step was taken. */
  ghost predicate Pending(s: State, l: Loading, measure: nat, a: Agent) {
    Waiting(s) && s.l == l && Measure(s) == measure && Ready(s, a)
  }

  /** The loader was released where it waited. */
  ghost predicate ReleasedFrom(s: State, l: Loading) {
    Released(s) && Serving(s.l.pc) == Serving(l.pc) && (s.l == l || (l.pc.LAcquiring? && s.l.pc.LStoring?))
  }

  /** The loader was released, or at least the measure went down. */
  ghost predicate Advanced(s: State, l: Loading, measure: nat) {
    ReleasedFrom(s, l) || (Waiting(s) && s.l == l && Measure(s) < measure)
  }

  lemma PendingStep(s: State, step: Step, t: State, l: Loading, measure: nat, a: Agent)
    requires Inv(s) && Pending(s, l, measure, a) && Enabled(s, step) && t == Do(s, step) && Room(t)
    requires a.LoaderAgent? ==> l.pc.LAcquiring?
    ensures Advanced(t, l, measure) || Pending(t, l, measure, a)
    ensures FairPoint(s, step, a) ==> Advanced(t, l, measure)
  {
    WaitStep(s, step);
    AwaitedStaysReady(s, step, a);
  }

  lemma {:induction false} PendingAdvances(states: nat -> State, steps: nat -> Step, n: nat, last: nat,
                                           l: Loading, measure: nat, a: Agent)
    returns (m: nat)
    requires IsRun(states, steps) && RoomThroughout(states) && n <= last && FairPoint(states(last), steps(last), a)
    requires Pending(states(n), l, measure, a) && (a.LoaderAgent? ==> l.pc.LAcquiring?)
    ensures n <= m && Advanced(states(m), l, measure)
    decreases last - n
  {
    InvRun(states, steps, n);
    assert Room(states(n + 1));
    m := n + 1;
    PendingStep(states(n), steps(n), states(m), l, measure, a);
    if !Advanced(states(m), l, measure) {
      m := PendingAdvances(states, steps, m, last, l, measure, a);
    }
  }

  lemma {:induction false} WaitAdvances(states: nat -> State, steps: nat -> Step, n: nat, l: Loading) returns (m: nat)
    requires IsRun(states, steps) && Fair(states, steps) && RoomThroughout(states)
    requires Waiting(states(n)) && states(n).l == l
    ensures n <= m && Advanced(states(m), l, Measure(states(n)))
  {
    InvRun(states, steps, n);
    assert Room(states(n));
    var a := AwaitedAgent(states(n));
    var last := NextFairMoment(states, steps, a, n);
    m := PendingAdvances(states, steps, n, last, l, Measure(states(n)), a);
  }

  /** In a fair run with room in the buffer, the loader's waiting ends. */
  lemma {:induction false} WaitingEnds(states: nat -> State, steps: nat -> Step, n: nat, l: Loading) returns (m: nat)
    requires IsRun(states, steps) && Fair(states, steps) && RoomThroughout(states)
    requires Waiting(states(n)) && states(n).l == l
    ensures n <= m && ReleasedFrom(states(m), l)
    decreases Measure(states(n))
  {
    m := WaitAdvances(states, steps, n, l);
    if !ReleasedFrom(states(m), l) {
      m := WaitingEnds(states, steps, m, l);
    }
  }

  lemma AwaitedAgent(s: State) returns (a: Agent)
    requires Inv(s) && Waiting(s) && Room(s)
    ensures Pending(s, s.l, Measure(s), a) && (a.LoaderAgent? ==> s.l.pc.LAcquiring?)
  {
    a := Awaited(s);
    AwaitedIsReady(s);
    WaitingFacts(s);
  }

  // ---------- The loader's own steps ----------

  /** The loader is within `f` and not waiting for anything. */
  ghost predicate Free(s: State) {
    Underway(s.l.pc) && !Waiting(s) && !s.l.pc.LPublishing?
  }

  lemma FreeIsReady(s: State)
    requires Free(s)
    ensures Ready(s, LoaderAgent)
  {
  }

  /** What the others do does not concern it. */
  lemma StaysFree(s: State, step: Step)
    requires Inv(s) && Free(s) && Enabled(s, step) && !step.Loader?
    ensures Free(Do(s, step)) && Do(s, step).l == s.l && Remaining(Do(s, step)) == Remaining(s)
  {
  }

  ghost predicate FreeAs(s: State, l: Loading, remaining: nat) {
    Free(s) && s.l == l && Remaining(s) == remaining
  }

  lemma LoaderMoves(states: nat -> State, steps: nat -> Step, n: nat) returns (m: nat)
    requires IsRun(states, steps) && Fair(states, steps) && Free(states(n))
    ensures n <= m && steps(m).Loader? && FreeAs(states(m), states(n).l, Remaining(states(n)))
  {
    var last := NextFairMoment(states, steps, LoaderAgent, n);
    m := FirstMove(states, steps, n, last, states(n).l, Remaining(states(n)));
  }

  lemma FreeStep(states: nat -> State, steps: nat -> Step, n: nat, l: Loading, remaining: nat)
    requires IsRun(states, steps) && FreeAs(states(n), l, remaining) && !steps(n).Loader?
    ensures FreeAs(states(n + 1), l, remaining)
  {
    InvRun(states, steps, n);
    StaysFree(states(n), steps(n));
  }

  lemma FirstMove(states: nat -> State, steps: nat -> Step, n: nat, last: nat, l: Loading, remaining: nat) returns (m: nat)
    requires IsRun(states, steps) && FreeAs(states(n), l, remaining)
    requires n <= last && FairPoint(states(last), steps(last), LoaderAgent)
    ensures n <= m && steps(m).Loader? && FreeAs(states(m), l, remaining)
  {
    m := n;
    while !steps(m).Loader?
      invariant n <= m <= last && FreeAs(states(m), l, remaining)
      decreases last - m
    {
      FreeIsReady(states(m));
      FreeStep(states, steps, m, l, remaining);
      m := m + 1;
    }
  }

  /** Its step brings the loader closer to the end of the run. */
  lemma MoveAdvances(s: State, step: LoaderStep)
    requires Inv(s) && Free(s) && LoaderEnabled(s, step)
    ensures var t := LoaderDo(s, step);
            Remaining(t) < Remaining(s) &&
            if s.l.pc.LReturning? then t.l.pc.LIdle? && (s.l.pc.cb.Some? ==> s.l.pc.cb.value in t.reqs.callbacks)
            else Underway(t.l.pc) && Serving(t.l.pc) == Serving(s.l.pc)
  {
  }

  /** The loader gets to announce its `Lock`. */
  lemma PublishingEnds(states: nat -> State, steps: nat -> Step, n: nat) returns (m: nat)
    requires IsRun(states, steps) && Fair(states, steps) && RoomThroughout(states) && HandsOff(states)
    requires states(n).l.pc.LPublishing?
    ensures n <= m && states(m).l.pc.LAcquiring? && Serving(states(m).l.pc) == Serving(states(n).l.pc)
  {
    var last := LeavesPublishing(states, steps, n);
    m := n;
    while states(m).l.pc.LPublishing?
      invariant n <= m <= last && (states(m).l == states(n).l || states(m).l.pc == LAcquiring(states(n).l.pc.cb))
      decreases last - m
    {
      InvRun(states, steps, m);
      PublishingStep(states(m), steps(m));
      m := m + 1;
    }
  }

  lemma PublishingStep(s: State, step: Step)
    requires s.l.pc.LPublishing? && Enabled(s, step)
    ensures Do(s, step).l == s.l || Do(s, step).l.pc == LAcquiring(s.l.pc.cb)
  {
  }

  /** While the loader waits to announce its `Lock`, the mutex becomes free again and again. */
  lemma FreeAgain(states: nat -> State, steps: nat -> Step, n: nat, i: nat)
    requires IsRun(states, steps) && Fair(states, steps) && RoomThroughout(states)
    requires StaysPublishing(states, n) && n <= i
    ensures FreeAfter(states, i)
  {
    if states(i).mutex.owner.Some? {
      InvRun(states, steps, i);
      PublishingWaits(states(i));
      var free := WaitingEnds(states, steps, i, states(i).l);
      assert states(free).mutex.owner.None?;
    }
  }

  lemma LeavesPublishing(states: nat -> State, steps: nat -> Step, n: nat) returns (m: nat)
    requires IsRun(states, steps) && Fair(states, steps) && RoomThroughout(states) && HandsOff(states)
    ensures n <= m && !states(m).l.pc.LPublishing?
  {
    forall i | n <= i && StaysPublishing(states, n)
      ensures FreeAfter(states, i)
    {
      FreeAgain(states, steps, n, i);
    }
    assert !StaysPublishing(states, n);
    m :| n <= m && !states(m).l.pc.LPublishing?;
  }

  lemma PublishingWaits(s: State)
    requires Inv(s) && s.l.pc.LPublishing? && s.mutex.owner.Some?
    ensures Waiting(s)
  {
    assert LockInv(s);
    match s.mutex.owner.value
    case JwksWriter =>
    case LoaderWriter =>
  }

  // ---------- The promises ----------

  lemma {:induction false} FairRunCompletes(states: nat -> State, steps: nat -> Step, n: nat) returns (m: nat)
    requires IsRun(states, steps) && Fair(states, steps) && RoomThroughout(states) && HandsOff(states)
    requires Underway(states(n).l.pc)
    ensures n <= m && states(m).l.pc.LIdle?
    ensures Serving(states(n).l.pc).Some? ==> Serving(states(n).l.pc).value in states(m).reqs.callbacks
    decreases Remaining(states(n))
  {
    if states(n).l.pc.LPublishing? {
      m := PublishingEnds(states, steps, n);
      m := FairRunCompletes(states, steps, m);
    } else if Waiting(states(n)) {
      m := WaitingEnds(states, steps, n, states(n).l);
      m := FairRunCompletes(states, steps, m);
    } else {
      m := LoaderMoves(states, steps, n);
      InvRun(states, steps, m);
      MoveAdvances(states(m), steps(m).l);
      if states(m).l.pc.LReturning? {
        m := m + 1;
      } else {
        m := FairRunCompletes(states, steps, m + 1);
      }
    }
  }

  /** What the hand-off excludes, no more and no less: that the loader is passed over forever while
      the mutex becomes free again and again. So it holds if after being passed over from `n` on,
      the mutex is not free from `last(n)` on. */
  lemma HandsOffFrom(states: nat -> State, last: nat -> nat)
    requires forall n: nat {:trigger last(n)} ::
               (forall m: nat :: n <= m ==> states(m).l.pc.LPublishing?) ==>
               n <= last(n) && forall k: nat :: last(n) <= k ==> states(k).mutex.owner.Some?
    ensures HandsOff(states)
  {
    forall n: nat | StaysPublishing(states, n)
      ensures n <= last(n) && !FreeAfter(states, last(n))
    {
    }
  }

  /** In every fair run in which the buffer has room whenever the refresher gets to its send,
      every run of `f` completes, and the request it serves is answered. */
  lemma RunCompletes(states: nat -> State, steps: nat -> Step, n: nat) returns (m: nat)
    requires IsRun(states, steps) && Fair(states, steps) && HandsOff(states)
    requires forall k :: states(k).j.pc.JSending? ==> !states(k).ch.trigger
    requires Underway(states(n).l.pc)
    ensures n <= m && states(m).l.pc.LIdle?
    ensures Serving(states(n).l.pc).Some? ==> Serving(states(n).l.pc).value in states(m).reqs.callbacks
  {
    m := FairRunCompletes(states, steps, n);
  }

  /** In particular it gets each of its locks. */
  lemma LocksAreAcquired(states: nat -> State, steps: nat -> Step, n: nat)
    requires IsRun(states, steps) && Fair(states, steps) && RoomThroughout(states) && HandsOff(states)
    requires AtLock(states(n))
    ensures exists m :: n <= m && GotLock(states(m))
  {
    var m := n;
    if states(n).l.pc.LLocking? {
      m := LoaderMoves(states, steps, n);
      InvRun(states, steps, m);
      m := m + 1;
    } else if states(n).l.pc.LPublishing? {
      m := PublishingEnds(states, steps, n);
    }
    if !GotLock(states(m)) {
      m := WaitingEnds(states, steps, m, states(m).l);
    }
  }
}
