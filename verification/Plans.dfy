/** What the aggregation will ever append to the array of a list: the list united with those of
    the licences that are accepted after it, up to the first that is no list. */
module Plans {
  import opened License
  import opened Aggregation
  import opened Slices

  /** The licence is accepted into the entry. */
  ghost predicate Takes(e: Entry, c: Contribution) {
    c.product.Some? &&
    var u := c.product.value.unknown;
    ExclusiveNames(u).Some? && !PinPanics(e.pins, Payload(u)) && !PinConflict(e.pins, Payload(u))
  }

  /** Licence `j` is accepted and has a value for claim `k`. */
  ghost predicate Carries(cs: seq<Contribution>, j: nat, k: string)
    requires j < |cs|
  {
    Fold(cs[..j]).Done? && Takes(Fold(cs[..j]).value, cs[j]) && k in Payload(cs[j].product.value.unknown)
  }

  /** The list `us`, merged from the licences before `j`, with all that is still appended to it. */
  ghost function Planned(us: seq<Value>, cs: seq<Contribution>, j: nat, k: string): seq<Value>
    decreases |cs| - j
  {
    if j >= |cs| then us
    else if !Carries(cs, j, k) then Planned(us, cs, j + 1, k)
    else
      match cs[j].product.value.unknown[k]
      case List(vs) => Planned(us + Missing(vs, us), cs, j + 1, k)
      case _ => us
  }

  lemma {:induction false} PlannedExtends(us: seq<Value>, cs: seq<Contribution>, j: nat, k: string)
    ensures us <= Planned(us, cs, j, k)
    decreases |cs| - j
  {
    if j < |cs| {
      if !Carries(cs, j, k) {
        PlannedExtends(us, cs, j + 1, k);
      } else if cs[j].product.value.unknown[k].List? {
        PlannedExtends(us + Missing(cs[j].product.value.unknown[k].elems, us), cs, j + 1, k);
      }
    }
  }

  /** The Go value shows `v`, merged from the licences before `j`, and its array has the plan of
      claim `k`. */
  ghost predicate Tracks(l: Ledger, g: GoValue, v: Value, cs: seq<Contribution>, j: nat, k: string) {
    Shows(l, g, v) && (g.Shared? ==> l[g.slice.arr].plan == Planned(v.elems, cs, j, k))
  }

  ghost predicate TracksAll(l: Ledger, gm: map<string, GoValue>, m: map<string, Value>, cs: seq<Contribution>, j: nat) {
    gm.Keys == m.Keys && forall k :: k in gm ==> Tracks(l, gm[k], m[k], cs, j, k)
  }

  lemma StillTracks(l: Ledger, later: Ledger, g: GoValue, v: Value, cs: seq<Contribution>, j: nat, k: string)
    requires Grows(l, later) && Tracks(l, g, v, cs, j, k)
    ensures Tracks(later, g, v, cs, j, k)
  {
  }

  lemma StillTracksAll(l: Ledger, later: Ledger, gm: map<string, GoValue>, m: map<string, Value>,
                       cs: seq<Contribution>, j: nat)
    requires Grows(l, later) && TracksAll(l, gm, m, cs, j)
    ensures TracksAll(later, gm, m, cs, j)
  {
    forall k | k in gm
      ensures Tracks(later, gm[k], m[k], cs, j, k)
    {
      StillTracks(l, later, gm[k], m[k], cs, j, k);
    }
  }

  /** A licence that does not carry the claim leaves its plan. */
  lemma TracksPast(l: Ledger, g: GoValue, v: Value, cs: seq<Contribution>, j: nat, k: string)
    requires Tracks(l, g, v, cs, j, k) && j < |cs| && !Carries(cs, j, k)
    ensures Tracks(l, g, v, cs, j + 1, k)
  {
  }

  lemma TracksAllPast(l: Ledger, gm: map<string, GoValue>, m: map<string, Value>, cs: seq<Contribution>, j: nat)
    requires TracksAll(l, gm, m, cs, j) && j < |cs| && forall k :: k in gm ==> !Carries(cs, j, k)
    ensures TracksAll(l, gm, m, cs, j + 1)
  {
    forall k | k in gm
      ensures Tracks(l, gm[k], m[k], cs, j + 1, k)
    {
      TracksPast(l, gm[k], m[k], cs, j, k);
    }
  }

  lemma TracksShow(l: Ledger, gm: map<string, GoValue>, m: map<string, Value>, cs: seq<Contribution>, j: nat)
    requires TracksAll(l, gm, m, cs, j)
    ensures ShowsAll(l, gm, m)
  {
    assert forall k :: k in gm ==> Tracks(l, gm[k], m[k], cs, j, k);
  }

  /** The plan for merging a licence that carries the claim. */
  lemma MergeIsPlanned(hv: Value, nv: Value, cs: seq<Contribution>, j: nat, k: string)
    requires j < |cs| && Carries(cs, j, k) && cs[j].product.value.unknown[k] == nv && hv.List? && nv.List?
    ensures Planned(hv.elems, cs, j, k) == Planned(MergeValue(hv, nv).elems, cs, j + 1, k)
    ensures hv.elems + Missing(nv.elems, hv.elems) <= Planned(hv.elems, cs, j, k)
  {
    PlannedExtends(hv.elems + Missing(nv.elems, hv.elems), cs, j + 1, k);
  }

  /** Merges the value of licence `j` into the value merged from the licences before it. */
  method MergeTracked(heap: Heap, have: GoValue, next: GoValue, ghost hv: Value, ghost nv: Value,
                      ghost cs: seq<Contribution>, ghost j: nat, ghost k: string)
    returns (r: Outcome<GoValue>)
    requires heap.Valid() && j < |cs| && Carries(cs, j, k) && cs[j].product.value.unknown[k] == nv
    requires Tracks(heap.ledger, have, hv, cs, j, k) && Tracks(heap.ledger, next, nv, cs, j + 1, k)
    modifies heap.Repr
    ensures heap.Valid() && Grows(old(heap.ledger), heap.ledger) && fresh(heap.Repr - old(heap.Repr))
    ensures r.Panicked? <==> ListMergePanics(hv, nv)
    ensures r.Done? ==> Tracks(heap.ledger, r.value, MergeValue(hv, nv), cs, j + 1, k)
  {
    if hv.List? && nv.List? {
      MergeIsPlanned(hv, nv, cs, j, k);
    }
    r := heap.MergeClaim(have, next, hv, nv);
  }
}
