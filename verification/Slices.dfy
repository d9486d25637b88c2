/** Go slices with their backing arrays. The response shares the licences' own arrays and appends
    to them; a ledger says what may ever be written to an array, so that whoever has a slice of
    it keeps seeing the same list. */
module Slices {
  import opened Numbers
  import opened License
  import opened Aggregation

  /** A slice that starts at the beginning of its backing array, whose length is the
      capacity. JSON decoding makes each list in an array of its own. */
  datatype Slice = Slice(arr: array<Value>, len: nat)

  /** A claim value: a list is a shared slice, anything else a plain value. */
  datatype GoValue = Plain(value: Value) | Shared(slice: Slice)

  /** The only list that is ever written to an array, and how much of it has been. */
  datatype Promise = Promise(plan: seq<Value>, upto: nat)

  type Ledger = map<array<Value>, Promise>

  /** The slice lies within what has been written. */
  ghost predicate Covers(l: Ledger, s: Slice) {
    s.arr in l && s.len <= l[s.arr].upto <= |l[s.arr].plan|
  }

  ghost function Seen(l: Ledger, s: Slice): seq<Value>
    requires Covers(l, s)
  {
    l[s.arr].plan[..s.len]
  }

  /** The Go value shows the value `v`. */
  ghost predicate Shows(l: Ledger, g: GoValue, v: Value) {
    match g
    case Plain(w) => w == v && !v.List?
    case Shared(s) => Covers(l, s) && v == List(Seen(l, s))
  }

  ghost predicate ShowsAll(l: Ledger, gm: map<string, GoValue>, m: map<string, Value>) {
    gm.Keys == m.Keys && forall k :: k in gm ==> Shows(l, gm[k], m[k])
  }

  /** Later ledgers write more, but change nothing that was written or planned. */
  ghost predicate Grows(l: Ledger, later: Ledger) {
    forall a :: a in l ==> a in later && later[a].plan == l[a].plan && l[a].upto <= later[a].upto <= |later[a].plan|
  }

  /** Writing planned elements into the part that was written, or right behind it. */
  lemma WrittenAsPlanned(before: seq<Value>, p: Promise, i: nat, upto: nat)
    requires p.upto <= |before| && p.upto <= |p.plan| && before[..p.upto] == p.plan[..p.upto]
    requires i <= p.upto && i < |before| && i < |p.plan| && upto == if p.upto > i then p.upto else i + 1
    ensures before[i := p.plan[i]][..upto] == p.plan[..upto]
  {
  }

  /** `s` is `was` with the missing ones of the first `i` elements of `next`, on its way to `plan`. */
  ghost predicate Joining(l: Ledger, s: Slice, next: Slice, was: seq<Value>, plan: seq<Value>, i: nat) {
    && Covers(l, s) && l[s.arr].plan == plan
    && Covers(l, next) && i <= next.len && AllHashable(Seen(l, next)[..i])
    && was + Missing(Seen(l, next), was) <= plan
    && s.len == |was| + |Missing(Seen(l, next)[..i], was)|
  }

  /** The same for a union that may have panicked. */
  ghost predicate JoiningUnlessLost(l: Ledger, r: Option<Slice>, next: Slice, was: seq<Value>, added: seq<Value>,
                                    plan: seq<Value>, i: nat)
  {
    match r
    case None => !AllHashable(added)
    case Some(s) => Joining(l, s, next, was, plan, i) && Seen(l, next) == added
  }

  /** At last it is the union. */
  lemma Joined(l: Ledger, s: Slice, next: Slice, was: seq<Value>, plan: seq<Value>)
    requires Joining(l, s, next, was, plan, next.len)
    ensures Seen(l, s) == was + Missing(Seen(l, next), was) && AllHashable(Seen(l, next))
    ensures Covers(l, s) && l[s.arr].plan == plan
  {
    assert Seen(l, next)[..next.len] == Seen(l, next);
  }

  /** So whatever showed a value keeps showing it. */
  lemma StillShows(l: Ledger, later: Ledger, g: GoValue, v: Value)
    requires Grows(l, later) && Shows(l, g, v)
    ensures Shows(later, g, v)
  {
  }

  lemma StillShowsAll(l: Ledger, later: Ledger, gm: map<string, GoValue>, m: map<string, Value>)
    requires Grows(l, later) && ShowsAll(l, gm, m)
    ensures ShowsAll(later, gm, m)
  {
    forall k | k in gm
      ensures Shows(later, gm[k], m[k])
    {
      StillShows(l, later, gm[k], m[k]);
    }
  }

  function ArraysOf(g: GoValue): set<array<Value>> {
    if g.Shared? then {g.slice.arr} else {}
  }

  /** What a reader of the Go value sees. */
  ghost predicate Visible(g: GoValue, v: Value)
    reads ArraysOf(g)
  {
    match g
    case Plain(w) => w == v && !v.List?
    case Shared(s) => s.len <= s.arr.Length && v == List(s.arr[..s.len])
  }

  lemma {:induction false} MissingPrefix(next: seq<Value>, have: seq<Value>, i: nat)
    requires i <= |next|
    ensures Missing(next[..i], have) <= Missing(next, have)
    decreases |next|
  {
    if i < |next| {
      var shorter := next[..|next| - 1];
      assert shorter[..i] == next[..i];
      MissingPrefix(shorter, have, i);
    } else {
      assert next[..i] == next;
    }
  }

  ghost predicate Fulfilled(p: Promise, a: array<Value>)
    reads a
  {
    p.upto <= a.Length && p.upto <= |p.plan| && a[..p.upto] == p.plan[..p.upto]
  }

  ghost predicate AllHashable(vs: seq<Value>) {
    forall v :: v in vs ==> Hashable(v)
  }

  lemma OneMoreHashable(vs: seq<Value>, i: nat)
    requires i < |vs| && AllHashable(vs[..i]) && Hashable(vs[i])
    ensures AllHashable(vs[..i + 1])
  {
    assert vs[..i + 1] == vs[..i] + [vs[i]];
  }

  /** The arrays of the licences and the responses. */
  class Heap {
    ghost var Repr: set<object>
    ghost var ledger: Ledger

    ghost predicate Valid()
      reads this, Repr
    {
      && this in Repr && (forall o: object :: o in Repr ==> o == this || o is array<Value>)
      && forall a :: a in ledger ==> a in Repr && Kept(a)
    }

    /** The array holds what the ledger says. */
    ghost predicate Kept(a: array<Value>)
      requires a in ledger
      reads this, a
    {
      Fulfilled(ledger[a], a)
    }

    constructor (ghost arrays: set<array<Value>>, ghost l: Ledger)
      requires forall a :: a in l ==> a in arrays && Fulfilled(l[a], a)
      ensures Valid() && ledger == l && Repr == {this} + arrays
    {
      ledger := l;
      Repr := {this} + arrays;
    }

    lemma ShownIsVisible(g: GoValue, v: Value)
      requires Valid() && Shows(ledger, g, v)
      ensures Visible(g, v)
    {
      if g.Shared? {
        var a, n := g.slice.arr, g.slice.len;
        assert Kept(a);
        assert a[..n] == a[..ledger[a].upto][..n];
      }
    }

    /** Writes the planned element behind the visible part of a slice that has the capacity. */
    method Extend(s: Slice, v: Value)
      requires Valid() && Covers(ledger, s) && s.len < s.arr.Length
      requires s.len < |ledger[s.arr].plan| && ledger[s.arr].plan[s.len] == v
      modifies this, s.arr
      ensures Valid() && Grows(old(ledger), ledger) && Repr == old(Repr)
      ensures Covers(ledger, Slice(s.arr, s.len + 1))
    {
      ghost var p, elems := ledger[s.arr], s.arr[..];
      assert Kept(s.arr);
      ghost var upto := if p.upto > s.len then p.upto else s.len + 1;
      WrittenAsPlanned(elems, p, s.len, upto);
      s.arr[s.len] := v;
      assert s.arr[..] == elems[s.len := v];
      ledger := ledger[s.arr := Promise(p.plan, upto)];
      assert forall a :: a in old(ledger) && a != s.arr ==> old(Kept(a)) && Kept(a);
    }

    /** A new and larger array with the visible part of a slice. */
    method Copy(s: Slice) returns (arr: array<Value>)
      requires s.len <= s.arr.Length
      ensures fresh(arr) && s.len < arr.Length && arr[..s.len] == s.arr[..s.len]
    {
      var capacity :| s.len < capacity <= 2 * s.len + 8;
      arr := new Value[capacity](_ => Null);
      for i := 0 to s.len
        invariant arr[..i] == s.arr[..i] && unchanged(s.arr)
      {
        arr[i] := s.arr[i];
      }
    }

    /** Moves the visible part of a slice to a new and larger array. */
    method Move(s: Slice) returns (r: Slice)
      requires Valid() && Covers(ledger, s)
      modifies this
      ensures Valid() && Grows(old(ledger), ledger) && fresh(Repr - old(Repr))
      ensures fresh(r.arr) && r.len == s.len < r.arr.Length
      ensures Covers(ledger, r) && ledger[r.arr].plan == ledger[s.arr].plan
    {
      ghost var was := ledger;
      assert Kept(s.arr);
      var arr := Copy(s);
      assert arr !in was;
      ledger := ledger[arr := Promise(ledger[s.arr].plan, s.len)];
      Repr := Repr + {arr};
      forall a | a in ledger
        ensures Kept(a)
      {
        assert a != arr ==> old(Kept(a));
      }
      return Slice(arr, s.len);
    }

    /** `append(s, v)`: in place while there is capacity, else in a new array. What it writes must
        be what the plan says. */
    method Append(s: Slice, v: Value) returns (r: Slice)
      requires Valid() && Covers(ledger, s)
      requires s.len < |ledger[s.arr].plan| && ledger[s.arr].plan[s.len] == v
      modifies this, s.arr
      ensures Valid() && Grows(old(ledger), ledger) && fresh(Repr - old(Repr))
      ensures Covers(ledger, r) && r.len == s.len + 1 && ledger[r.arr].plan == ledger[s.arr].plan
      ensures if s.len < s.arr.Length then r.arr == s.arr else fresh(r.arr)
    {
      r := s;
      if s.len >= s.arr.Length {
        r := Move(s);
      }
      Extend(r, v);
      r := Slice(r.arr, r.len + 1);
    }

    /** Element `i` of a slice. */
    method At(s: Slice, i: nat) returns (v: Value)
      requires Valid() && Covers(ledger, s) && i < s.len
      ensures v == Seen(ledger, s)[i]
    {
      assert Kept(s.arr);
      assert s.arr[i] == s.arr[..ledger[s.arr].upto][i];
      v := s.arr[i];
    }

    /** The elements of a list as map keys; panics if one cannot be a key. */
    method Keys(s: Slice) returns (keys: Option<set<Value>>)
      requires Valid() && Covers(ledger, s)
      ensures keys.None? <==> !AllHashable(Seen(ledger, s))
      ensures keys.Some? ==> forall v :: v in keys.value <==> v in Seen(ledger, s)
    {
      ghost var seen := Seen(ledger, s);
      var cache: set<Value> := {};
      for i := 0 to s.len
        invariant forall v :: v in cache <==> v in seen[..i]
        invariant AllHashable(seen[..i])
      {
        var v := At(s, i);
        if !Hashable(v) {
          assert seen[i] in seen;
          return None;
        }
        OneMoreHashable(seen, i);
        cache := cache + {v};
      }
      assert seen[..s.len] == seen;
      return Some(cache);
    }

    /** The list case of the aggregation: appends to `have` the elements of `next` it lacks, and
        panics on an element that cannot be a map key, maybe after some of them. */
    method Unite(have: Slice, next: Slice) returns (r: Option<Slice>)
      requires Valid() && Covers(ledger, have) && Covers(ledger, next)
      requires Seen(ledger, have) + Missing(Seen(ledger, next), Seen(ledger, have)) <= ledger[have.arr].plan
      modifies Repr
      ensures Valid() && Grows(old(ledger), ledger) && fresh(Repr - old(Repr))
      ensures r.None? <==> ListMergePanics(List(old(Seen(ledger, have))), List(old(Seen(ledger, next))))
      ensures r.Some? ==>
                && Covers(ledger, r.value) && ledger[r.value.arr].plan == ledger[have.arr].plan
                && Seen(ledger, r.value) ==
                   old(Seen(ledger, have)) + Missing(old(Seen(ledger, next)), old(Seen(ledger, have)))
    {
      ghost var was, added := Seen(ledger, have), Seen(ledger, next);
      assert forall v :: v in was + added <==> v in was || v in added;
      var cache := Keys(have);
      if cache.None? {
        return None;
      }
      r := AppendMissing(have, next, cache.value, was, added);
    }

    /** Appends element `i` of `next` to the union so far, unless it is in `was`; None if it
        cannot be a map key. */
    method AppendNext(s: Slice, next: Slice, cache: set<Value>, i: nat, ghost was: seq<Value>, ghost plan: seq<Value>)
      returns (r: Option<Slice>)
      requires Valid() && Joining(ledger, s, next, was, plan, i) && i < next.len
      requires forall v :: v in cache <==> v in was
      modifies this, s.arr
      ensures Valid() && Grows(old(ledger), ledger) && fresh(Repr - old(Repr))
      ensures JoiningUnlessLost(ledger, r, next, was, old(Seen(ledger, next)), plan, i + 1)
      ensures r.None? ==> !Hashable(old(Seen(ledger, next))[i])
    {
      ghost var before, added := ledger, Seen(ledger, next);
      var v := At(next, i);
      if !Hashable(v) {
        assert v in added;
        return None;
      }
      MissingGrows(added, was, i);
      OneMoreHashable(added, i);
      var t := s;
      if v !in cache {
        assert plan[s.len] == (was + Missing(added, was))[s.len];
        t := Append(s, v);
        StillShows(before, ledger, Shared(next), List(added));
      }
      return Some(t);
    }

    /** Appends the elements of `next` that are not in `cache`, the elements of `have`. */
    method AppendMissing(have: Slice, next: Slice, cache: set<Value>, ghost was: seq<Value>, ghost added: seq<Value>)
      returns (r: Option<Slice>)
      requires Valid() && Covers(ledger, have) && Seen(ledger, have) == was
      requires Covers(ledger, next) && Seen(ledger, next) == added
      requires was + Missing(added, was) <= ledger[have.arr].plan
      requires forall v :: v in cache <==> v in was
      modifies Repr
      ensures Valid() && Grows(old(ledger), ledger) && fresh(Repr - old(Repr))
      ensures r.None? <==> !AllHashable(added)
      ensures r.Some? ==>
                && Covers(ledger, r.value) && ledger[r.value.arr].plan == ledger[have.arr].plan
                && Seen(ledger, r.value) == was + Missing(added, was)
    {
      ghost var plan := ledger[have.arr].plan;
      r := Some(have);
      var i := 0;
      while r.Some? && i < next.len
        invariant Valid() && Grows(old(ledger), ledger) && fresh(Repr - old(Repr))
        invariant JoiningUnlessLost(ledger, r, next, was, added, plan, i)
      {
        r := AppendNext(r.value, next, cache, i, was, plan);
        i := i + 1;
      }
      if r.Some? {
        Joined(ledger, r.value, next, was, plan);
      }
    }

    /** The value switch of the aggregation loop. */
    method MergeClaim(have: GoValue, next: GoValue, ghost hv: Value, ghost nv: Value) returns (r: Outcome<GoValue>)
      requires Valid() && Shows(ledger, have, hv) && Shows(ledger, next, nv)
      requires hv.List? && nv.List? ==> hv.elems + Missing(nv.elems, hv.elems) <= ledger[have.slice.arr].plan
      modifies Repr
      ensures Valid() && Grows(old(ledger), ledger) && fresh(Repr - old(Repr))
      ensures r.Panicked? <==> ListMergePanics(hv, nv)
      ensures r.Done? ==> Shows(ledger, r.value, MergeValue(hv, nv)) && PlannedAs(ledger, r.value, have, next)
    {
      match next {
        case Shared(s) =>
          if have.Shared? {
            var united := Unite(have.slice, s);
            r := if united.None? then Panicked else Done(Shared(united.value));
          } else {
            r := Done(next);
          }
        case Plain(v) =>
          match v {
            case Int64(n) =>
              if have.Plain? && have.value.Int64? {
                r := Done(Plain(Int64(Wrap64(have.value.i + n))));
              } else {
                r := Done(next);
              }
            case Float64(x) =>
              if have.Plain? && have.value.Float64? {
                r := Done(Plain(Float64(FloatAdd(have.value.f, x))));
              } else {
                r := Done(next);
              }
            case StrList(_) =>
              r := Done(next);
            case _ =>
              if next != have {
                r := Done(next);
              } else {
                r := Done(have);
              }
          }
      }
    }
  }

  /** What a merged value still has planned: a united list that of `have`, any other list that of
      `next`. */
  ghost predicate PlannedAs(l: Ledger, r: GoValue, have: GoValue, next: GoValue)
    requires r.Shared? ==> r.slice.arr in l
    requires have.Shared? ==> have.slice.arr in l
    requires next.Shared? ==> next.slice.arr in l
  {
    r.Shared? ==>
      if have.Shared? && next.Shared? then l[r.slice.arr].plan == l[have.slice.arr].plan
      else next.Shared? && l[r.slice.arr].plan == l[next.slice.arr].plan
  }

  /** The next element that is appended is the next one of the union. */
  lemma MissingGrows(next: seq<Value>, have: seq<Value>, i: nat)
    requires i < |next|
    ensures Missing(next[..i + 1], have) == Missing(next[..i], have) + if next[i] in have then [] else [next[i]]
    ensures next[i] !in have ==>
              var n := |Missing(next[..i], have)|;
              n < |Missing(next, have)| && Missing(next, have)[n] == next[i]
  {
    assert next[..i + 1][..i] == next[..i];
    MissingPrefix(next, have, i + 1);
  }
}
