/** Requests aggregate without a lock. Any number of their list unions, on shared arrays and
    interleaved element by element, come out as if each of them ran alone. */
module Interleaving {
  import opened License
  import opened Aggregation
  import opened Slices
  import opened Plans

  /** A union that is about to append the elements of `next` that are not in `cache`. */
  datatype Union = Union(have: Slice, next: Slice, cache: set<Value>)

  /** How far a union is: it has done `i` elements and has `s`, or it has panicked. */
  datatype Progress = Running(s: Slice, i: nat) | Lost

  /** The union knows its older elements, and its array may get the others. */
  ghost predicate Ready(l: Ledger, u: Union) {
    && Covers(l, u.have) && Covers(l, u.next)
    && (forall v :: v in u.cache <==> v in Seen(l, u.have))
    && Seen(l, u.have) + Missing(Seen(l, u.next), Seen(l, u.have)) <= l[u.have.arr].plan
  }

  function Turns(schedule: seq<nat>, k: nat): nat {
    if schedule == [] then 0
    else Turns(schedule[..|schedule| - 1], k) + if schedule[|schedule| - 1] == k then 1 else 0
  }

  /** The elements done after so many turns. */
  function Reached(turns: nat, len: nat): nat {
    if turns < len then turns else len
  }

  /** The list after so many turns of a union that runs alone; None if it has panicked. */
  ghost function Alone(l: Ledger, u: Union, turns: nat): Option<seq<Value>>
    requires Ready(l, u)
  {
    var was, seen := Seen(l, u.have), Seen(l, u.next)[..Reached(turns, u.next.len)];
    if AllHashable(seen) then Some(was + Missing(seen, was)) else None
  }

  /** The union has the list that it would have if it ran alone, in an array with the same plan. */
  ghost predicate AsAlone(l0: Ledger, l: Ledger, u: Union, p: Progress, turns: nat)
    requires Ready(l0, u)
  {
    match p
    case Running(s, _) =>
      Covers(l, s) && l[s.arr].plan == l0[u.have.arr].plan && Alone(l0, u, turns) == Some(Seen(l, s))
    case Lost => Alone(l0, u, turns) == None
  }

  /** The union, ready in the ledger `l0`, after its turns so far. */
  ghost predicate OnTheWay(l0: Ledger, l: Ledger, u: Union, p: Progress, turns: nat)
    requires Ready(l0, u)
  {
    var was, added := Seen(l0, u.have), Seen(l0, u.next);
    && Covers(l, u.next) && Seen(l, u.next) == added
    && match p
       case Running(s, i) => i == Reached(turns, |added|) && Joining(l, s, u.next, was, l0[u.have.arr].plan, i)
       case Lost => !AllHashable(added[..Reached(turns, |added|)])
  }

  lemma Starts(l: Ledger, u: Union)
    requires Ready(l, u)
    ensures OnTheWay(l, l, u, Running(u.have, 0), 0)
  {
    var was := Seen(l, u.have);
    assert was <= was + Missing(Seen(l, u.next), was);
  }

  /** What the others write does not concern it. */
  lemma StaysOnTheWay(l0: Ledger, l: Ledger, later: Ledger, u: Union, p: Progress, turns: nat)
    requires Ready(l0, u) && Grows(l, later) && OnTheWay(l0, l, u, p, turns)
    ensures OnTheWay(l0, later, u, p, turns)
  {
  }

  lemma OnTheWayIsAlone(l0: Ledger, l: Ledger, u: Union, p: Progress, turns: nat)
    requires Ready(l0, u) && OnTheWay(l0, l, u, p, turns)
    ensures AsAlone(l0, l, u, p, turns)
  {
    if p.Running? {
      var was, added := Seen(l0, u.have), Seen(l0, u.next);
      MissingPrefix(added, was, p.i);
      assert was + Missing(added[..p.i], was) <= was + Missing(added, was);
      assert Seen(l, p.s) == was + Missing(added[..p.i], was);
    }
  }

  lemma UnhashablePrefix(vs: seq<Value>, i: nat, j: nat)
    requires i <= j <= |vs| && !AllHashable(vs[..i])
    ensures !AllHashable(vs[..j])
  {
    var v :| v in vs[..i] && !Hashable(v);
    assert v in vs[..j];
  }

  /** One turn of one union: its next element, if it has one and has not panicked. */
  method Turn(heap: Heap, u: Union, p: Progress, ghost l0: Ledger, ghost turns: nat) returns (q: Progress)
    requires heap.Valid() && Ready(l0, u) && OnTheWay(l0, heap.ledger, u, p, turns)
    modifies heap.Repr
    ensures heap.Valid() && Grows(old(heap.ledger), heap.ledger) && fresh(heap.Repr - old(heap.Repr))
    ensures OnTheWay(l0, heap.ledger, u, q, turns + 1)
  {
    ghost var added := Seen(l0, u.next);
    q := p;
    if p.Lost? {
      UnhashablePrefix(added, Reached(turns, |added|), Reached(turns + 1, |added|));
    } else if p.i < u.next.len {
      var r := heap.AppendNext(p.s, u.next, u.cache, p.i, Seen(l0, u.have), l0[u.have.arr].plan);
      if r.None? {
        assert added[..p.i + 1][p.i] == added[p.i];
        q := Lost;
      } else {
        q := Running(r.value, p.i + 1);
      }
    }
  }

  ghost predicate AllReady(l: Ledger, unions: seq<Union>) {
    forall k :: 0 <= k < |unions| ==> Ready(l, unions[k])
  }

  /** All unions are on their way after the turns in `schedule`. */
  ghost predicate AllOnTheWay(l0: Ledger, l: Ledger, unions: seq<Union>, progress: seq<Progress>, schedule: seq<nat>)
    requires AllReady(l0, unions)
  {
    |progress| == |unions| &&
    forall k :: 0 <= k < |unions| ==> OnTheWay(l0, l, unions[k], progress[k], Turns(schedule, k))
  }

  lemma OthersStayOnTheWay(l0: Ledger, l: Ledger, later: Ledger, unions: seq<Union>, progress: seq<Progress>,
                           schedule: seq<nat>, k: nat, q: Progress)
    requires AllReady(l0, unions) && AllOnTheWay(l0, l, unions, progress, schedule) && Grows(l, later) && k < |unions|
    requires OnTheWay(l0, later, unions[k], q, Turns(schedule, k) + 1)
    ensures AllOnTheWay(l0, later, unions, progress[k := q], schedule + [k])
  {
    assert (schedule + [k])[..|schedule|] == schedule;
    forall j | 0 <= j < |unions|
      ensures OnTheWay(l0, later, unions[j], progress[k := q][j], Turns(schedule + [k], j))
    {
      if j != k {
        StaysOnTheWay(l0, l, later, unions[j], progress[j], Turns(schedule, j));
      }
    }
  }

  lemma AllStart(l: Ledger, unions: seq<Union>, progress: seq<Progress>)
    requires AllReady(l, unions) && |progress| == |unions|
    requires forall k :: 0 <= k < |unions| ==> progress[k] == Running(unions[k].have, 0)
    ensures AllOnTheWay(l, l, unions, progress, [])
  {
    forall k | 0 <= k < |unions|
      ensures OnTheWay(l, l, unions[k], progress[k], 0)
    {
      Starts(l, unions[k]);
    }
  }

  /** Every union has the list that it would have if it ran alone. */
  ghost predicate AllAsAlone(l0: Ledger, l: Ledger, unions: seq<Union>, progress: seq<Progress>, schedule: seq<nat>)
    requires AllReady(l0, unions)
  {
    |progress| == |unions| &&
    forall k :: 0 <= k < |unions| ==> AsAlone(l0, l, unions[k], progress[k], Turns(schedule, k))
  }

  lemma AllOnTheWayAreAlone(l0: Ledger, l: Ledger, unions: seq<Union>, progress: seq<Progress>, schedule: seq<nat>)
    requires AllReady(l0, unions) && AllOnTheWay(l0, l, unions, progress, schedule)
    ensures AllAsAlone(l0, l, unions, progress, schedule)
  {
    forall k | 0 <= k < |unions|
      ensures AsAlone(l0, l, unions[k], progress[k], Turns(schedule, k))
    {
      OnTheWayIsAlone(l0, l, unions[k], progress[k], Turns(schedule, k));
    }
  }

  /** One more turn in the schedule. */
  method NextTurn(heap: Heap, unions: seq<Union>, before: seq<Progress>, k: nat, ghost l0: Ledger, ghost schedule: seq<nat>)
    returns (progress: seq<Progress>)
    requires heap.Valid() && AllReady(l0, unions) && k < |unions|
    requires AllOnTheWay(l0, heap.ledger, unions, before, schedule)
    modifies heap.Repr
    ensures heap.Valid() && Grows(old(heap.ledger), heap.ledger) && fresh(heap.Repr - old(heap.Repr))
    ensures AllOnTheWay(l0, heap.ledger, unions, progress, schedule + [k])
  {
    ghost var l := heap.ledger;
    var q := Turn(heap, unions[k], before[k], l0, Turns(schedule, k));
    OthersStayOnTheWay(l0, l, heap.ledger, unions, before, schedule, k, q);
    progress := before[k := q];
  }

  /** Any number of unions, whose turns come in any order. */
  method Interleave(heap: Heap, unions: seq<Union>, schedule: seq<nat>) returns (progress: seq<Progress>)
    requires heap.Valid() && forall k :: 0 <= k < |unions| ==> Ready(heap.ledger, unions[k])
    requires forall n :: 0 <= n < |schedule| ==> schedule[n] < |unions|
    modifies heap.Repr
    ensures heap.Valid() && Grows(old(heap.ledger), heap.ledger) && fresh(heap.Repr - old(heap.Repr))
    ensures |progress| == |unions|
    ensures forall k :: 0 <= k < |unions| ==>
      AsAlone(old(heap.ledger), heap.ledger, unions[k], progress[k], Turns(schedule, k))
  {
    ghost var l0 := heap.ledger;
    progress := seq(|unions|, k requires 0 <= k < |unions| => Running(unions[k].have, 0));
    AllStart(l0, unions, progress);
    for n := 0 to |schedule|
      invariant heap.Valid() && Grows(l0, heap.ledger) && fresh(heap.Repr - old(heap.Repr))
      invariant AllOnTheWay(l0, heap.ledger, unions, progress, schedule[..n])
    {
      progress := NextTurn(heap, unions, progress, schedule[n], l0, schedule[..n]);
      assert schedule[..n + 1] == schedule[..n] + [schedule[n]];
    }
    assert schedule[..|schedule|] == schedule;
    AllOnTheWayAreAlone(l0, heap.ledger, unions, progress, schedule);
  }
  // ---------- The unions of requests ----------

  /** Whenever a request merges the list of a licence that it reads into the one it has, on arrays
      that follow the plans, the union is ready. */
  lemma TrackedIsReady(l: Ledger, u: Union, hv: Value, nv: Value, cs: seq<Contribution>, j: nat, k: string)
    requires j < |cs| && Carries(cs, j, k) && cs[j].product.value.unknown[k] == nv
    requires Tracks(l, Shared(u.have), hv, cs, j, k) && Tracks(l, Shared(u.next), nv, cs, j + 1, k)
    requires forall v :: v in u.cache <==> v in hv.elems
    ensures Ready(l, u)
  {
    MergeIsPlanned(hv, nv, cs, j, k);
  }

  /** And when it has had all its turns, whatever ran in between, it has the merged value exactly
      if the merge does not panic, on an array that follows the plan of the next one. */
  lemma FinishedTracks(l0: Ledger, l: Ledger, u: Union, p: Progress, turns: nat,
                       hv: Value, nv: Value, cs: seq<Contribution>, j: nat, k: string)
    requires j < |cs| && Carries(cs, j, k) && cs[j].product.value.unknown[k] == nv
    requires Tracks(l0, Shared(u.have), hv, cs, j, k) && Tracks(l0, Shared(u.next), nv, cs, j + 1, k)
    requires AllHashable(hv.elems) && Ready(l0, u) && AsAlone(l0, l, u, p, turns) && turns >= u.next.len
    ensures p.Running? <==> !ListMergePanics(hv, nv)
    ensures p.Running? ==> Tracks(l, Shared(p.s), MergeValue(hv, nv), cs, j + 1, k)
  {
    MergeIsPlanned(hv, nv, cs, j, k);
    assert nv.elems[..u.next.len] == nv.elems;
  }
}
