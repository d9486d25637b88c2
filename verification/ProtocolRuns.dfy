/** A fair run as the results about fair runs assume it: the server without mirrors, whose loader
    runs again and again. */
module ProtocolRuns {
  import opened License
  import opened Protocol
  import opened ProtocolSafety
  import opened ProtocolCompletion
  import opened ProtocolFairness

  /** No key sets, no watchers, no requests; the mutex is the loader's alone. */
  ghost predicate Alone(s: State) {
    && s.watchers == map[] && s.reqs.clients == map[]
    && (s.j.pc.JNoUris? || s.j.pc.JStopped?) && (s.j.pc.JNoUris? ==> s.l.pc.LStarting?) && (s.j.pc.JStopped? ==> s.ch.ready)
    && !s.l.pc.LStopped?
    && s.mutex == Mutex(if LoaderOwns(s.l.pc) then Some(LoaderWriter) else None,
                        if s.l.pc.LReading? then {LoaderReader} else {}, {})
  }

  /** Each time the loader makes its own next step; idle, it waits for its timer. */
  ghost function Chosen(s: State): Step {
    if s.j.pc.JNoUris? then Jwks(JClose)
    else if s.l.pc.LStarting? then Loader(LStart)
    else if s.l.pc.LIdle? then Loader(LTick)
    else Loader(Move(s.l.pc))
  }

  lemma StaysAlone(s: State)
    requires Alone(s)
    ensures Enabled(s, Chosen(s)) && Alone(Do(s, Chosen(s)))
  {
  }

  ghost function StateAt(n: nat): (s: State)
    ensures Alone(s)
  {
    if n == 0 then Initial(false)
    else
      var s := StateAt(n - 1);
      StaysAlone(s);
      Do(s, Chosen(s))
  }

  lemma NextStateAt(n: nat)
    ensures Enabled(StateAt(n), Chosen(StateAt(n))) && StateAt(n + 1) == Do(StateAt(n), Chosen(StateAt(n)))
  {
    StaysAlone(StateAt(n));
  }

  /** Whoever is in the middle of its work acts. */
  lemma ChosenIsFair(s: State, a: Agent)
    requires Alone(s)
    ensures FairPoint(s, Chosen(s), a)
  {
  }

  ghost function States(): nat -> State {
    (n: nat) => StateAt(n)
  }

  ghost function Steps(): nat -> Step {
    (n: nat) => Chosen(StateAt(n))
  }

  lemma ItIsARun()
    ensures IsRun(States(), Steps())
  {
    assert Leads(Initial(false), [], Initial(false));
    forall n: nat
      ensures Enabled(States()(n), Steps()(n)) && States()(n + 1) == Do(States()(n), Steps()(n))
    {
      NextStateAt(n);
    }
  }

  lemma ItIsFair()
    ensures Fair(States(), Steps())
  {
    forall a, n
      ensures FairAfter(States(), Steps(), a, n)
    {
      ChosenIsFair(StateAt(n), a);
      assert FairMoment(States(), Steps(), a, n);
    }
  }

  lemma LeavesAtOnce(s: State)
    requires Alone(s) && s.l.pc.LPublishing?
    ensures Enabled(s, Chosen(s)) && !Do(s, Chosen(s)).l.pc.LPublishing?
  {
    StaysAlone(s);
  }

  lemma ItHandsOff()
    ensures HandsOff(States())
  {
    forall n: nat
      ensures !StaysPublishing(States(), n)
    {
      var s := States()(n);
      if s.l.pc.LPublishing? {
        LeavesAtOnce(s);
        NextStateAt(n);
        assert !States()(n + 1).l.pc.LPublishing?;
      }
    }
  }

  lemma ItIsUnderway()
    ensures Underway(States()(2).l.pc)
  {
    NextStateAt(0);
    NextStateAt(1);
    assert StateAt(0) == Initial(false);
    assert StateAt(1).l.pc.LStarting? && StateAt(1).j.pc.JStopped?;
    assert StateAt(2).l.pc == LDraining(None);
  }

  /** There is a run that meets all assumptions of `ProtocolFairness`, and in which `f` is underway. */
  lemma FairRunExists() returns (states: nat -> State, steps: nat -> Step, n: nat)
    ensures IsRun(states, steps) && Fair(states, steps) && RoomThroughout(states) && HandsOff(states)
    ensures Underway(states(n).l.pc)
  {
    states, steps, n := States(), Steps(), 2;
    ItIsARun();
    ItIsFair();
    ItHandsOff();
    ItIsUnderway();
  }
}
