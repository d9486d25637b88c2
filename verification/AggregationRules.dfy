/** What users of the aggregated claims rely on: consequences of the closed form. */
module AggregationRules {
  import opened Numbers
  import opened License
  import opened Aggregation

  // ---------- Exclusive claims ----------

  /** The pin of a claim is the value of the oldest accepted licence that lists it. */
  lemma {:induction false} FirstPinIsOldest(a: seq<Contribution>, k: string)
    ensures FirstPin(a, k).None? <==> forall i :: 0 <= i < |a| ==> !Lists(a[i], k)
    ensures FirstPin(a, k).Some? ==>
              exists i :: 0 <= i < |a| && Lists(a[i], k) && FirstPin(a, k).value == a[i].product.value.unknown[k] &&
                          forall j :: 0 <= j < i ==> !Lists(a[j], k)
  {
    if a != [] {
      var n := |a| - 1;
      FirstPinIsOldest(a[..n], k);
      assert forall i :: 0 <= i < n ==> a[..n][i] == a[i];
      if FirstPin(a[..n], k).Some? {
        var i :| 0 <= i < n && Lists(a[..n][i], k) && FirstPin(a[..n], k).value == a[..n][i].product.value.unknown[k] &&
                 forall j :: 0 <= j < i ==> !Lists(a[..n][j], k);
        assert Lists(a[i], k);
      } else if Lists(a[n], k) {
        assert forall j :: 0 <= j < n ==> !Lists(a[..n][j], k);
      }
    }
  }

  /** Pins never change as more licences are read. */
  lemma {:induction false} PinsPersist(cs: seq<Contribution>, n: nat, k: string)
    requires n <= |cs| && FirstPin(Accepted(cs[..n]), k).Some?
    ensures FirstPin(Accepted(cs), k) == FirstPin(Accepted(cs[..n]), k)
  {
    if n == |cs| {
      assert cs[..n] == cs;
    } else {
      var older := cs[..|cs| - 1];
      assert older[..n] == cs[..n];
      PinsPersist(older, n, k);
      var a, c := Accepted(older), cs[|cs| - 1];
      assert (a + [c])[..|a|] == a;
    }
  }

  /** A licence that the rule rejects activates none of its claims and changes nothing else of
      the product either. */
  lemma RejectedChangesNothing(cs: seq<Contribution>, c: Contribution)
    requires Fold(cs + [c]).Done? && !Accepts(Accepted(cs), c)
    ensures Fold(cs + [c]) == Fold(cs)
  {
    var longer := cs + [c];
    assert longer[..|cs|] == cs;
    FoldIsSummary(cs);
    FoldIsSummary(longer);
  }

  /** Once a claim is pinned, every later accepted licence that carries it has the pinned
      value, so the newest value is the pin. */
  lemma {:induction false} NewestIsPin(cs: seq<Contribution>, k: string)
    requires FirstPin(Accepted(cs), k).Some?
    ensures var vs := Values(Accepted(cs), k);
            vs != [] && vs[|vs| - 1] == FirstPin(Accepted(cs), k).value
  {
    if cs != [] {
      var older, c := cs[..|cs| - 1], cs[|cs| - 1];
      var a := Accepted(older);
      if Accepts(a, c) {
        assert (a + [c])[..|a|] == a;
        if FirstPin(a, k).Some? {
          NewestIsPin(older, k);
        }
      } else {
        NewestIsPin(older, k);
      }
    }
  }

  /** What the documentation promises of exclusive claims holds for every claim that is
      neither a number nor a list: its aggregated value is the pin. */
  lemma PinnedValueIsKept(cs: seq<Contribution>, k: string)
    requires Fold(cs).Done? && k in Fold(cs).value.pins
    requires var pin := Fold(cs).value.pins[k]; !pin.Int64? && !pin.Float64? && !pin.List?
    ensures k in Fold(cs).value.claims && Fold(cs).value.claims[k] == Fold(cs).value.pins[k]
  {
    FoldIsSummary(cs);
    NewestIsPin(cs, k);
    ClaimNamesHaveValues(Accepted(cs), k);
  }

  /** For an integer pin that every accepted carrier shares, the aggregated value is the
      multiple by the number of carriers: it is the pin only if that multiple wraps to it. */
  lemma PinnedIntegerIsMultiplied(cs: seq<Contribution>, k: string, n: int64)
    requires Fold(cs).Done? && k in Fold(cs).value.pins
    requires forall i :: 0 <= i < |Values(Accepted(cs), k)| ==> Values(Accepted(cs), k)[i] == Int64(n)
    ensures k in Fold(cs).value.claims
    ensures Fold(cs).value.claims[k] == Int64(Wrap64(|Values(Accepted(cs), k)| * n))
    ensures Fold(cs).value.claims[k] == Fold(cs).value.pins[k] <==> Wrap64(|Values(Accepted(cs), k)| * n) == n
  {
    FoldIsSummary(cs);
    NewestIsPin(cs, k);
    ClaimNamesHaveValues(Accepted(cs), k);
    var vs := Values(Accepted(cs), k);
    assert TrailingRun(vs, 0);
    TrailingRunUnique(vs, 0, RunStart(vs));
    assert vs[0..] == vs;
    ConstantSum(vs, n);
  }

  lemma {:induction false} ConstantSum(vs: seq<Value>, n: int64)
    requires forall i :: 0 <= i < |vs| ==> vs[i] == Int64(n)
    ensures IntSum(vs) == |vs| * n
  {
    if vs != [] {
      var m := |vs| - 1;
      ConstantSum(vs[..m], n);
      assert m * n + n == (m + 1) * n;
    }
  }

  /** The values of the newest run, without the newest. */
  ghost function OlderInRun(vs: seq<Value>): seq<Value>
    requires vs != []
  {
    vs[RunStart(vs)..|vs| - 1]
  }

  /** The older values of the newest run leave its newest value unchanged: integers add up to a
      multiple of 2^64; floats to a sum that is lost beside the newest, by the spacing of
      binary64 there; the united lists are a prefix of the newest and not repeated in its rest. */
  ghost predicate NothingAdded(vs: seq<Value>)
    requires vs != []
  {
    var older := OlderInRun(vs);
    match vs[|vs| - 1]
    case Int64(_) => IntSum(older) % TWO64 == 0
    case Float64(x) => older == [] || Lost(FloatSum(older), x)
    case List(es) => older == [] || PrefixNotRepeated(ListUnion(older), es)
    case _ => true
  }

  ghost predicate PrefixNotRepeated(front: seq<Value>, es: seq<Value>) {
    front <= es && forall i :: |front| <= i < |es| ==> es[i] !in front
  }

  lemma {:induction false} MissingAll(next: seq<Value>, have: seq<Value>)
    requires forall i :: 0 <= i < |next| ==> next[i] !in have
    ensures Missing(next, have) == next
  {
    if next != [] {
      MissingAll(next[..|next| - 1], have);
    }
  }

  lemma {:induction false} MissingConcat(a: seq<Value>, b: seq<Value>, have: seq<Value>)
    ensures Missing(a + b, have) == Missing(a, have) + Missing(b, have)
  {
    if b == [] {
      assert a + b == a;
    } else {
      assert (a + b)[..|a + b| - 1] == a + b[..|b| - 1];
      MissingConcat(a, b[..|b| - 1], have);
    }
  }

  lemma {:induction false} MissingNone(next: seq<Value>, have: seq<Value>)
    requires forall i :: 0 <= i < |next| ==> next[i] in have
    ensures Missing(next, have) == []
  {
    if next != [] {
      MissingNone(next[..|next| - 1], have);
    }
  }

  lemma UnitedIsOwnIff(front: seq<Value>, rest: seq<Value>)
    ensures Missing(front + rest, front) == rest <==> forall i :: 0 <= i < |rest| ==> rest[i] !in front
  {
    MissingConcat(front, rest, front);
    MissingNone(front, front);
    if forall i :: 0 <= i < |rest| ==> rest[i] !in front {
      MissingAll(rest, front);
    } else {
      var i :| 0 <= i < |rest| && rest[i] in front;
      MissingElements(rest, front, rest[i]);
    }
  }

  lemma UnionIsNewestIff(front: seq<Value>, es: seq<Value>)
    ensures front + Missing(es, front) == es <==> PrefixNotRepeated(front, es)
  {
    if front <= es {
      var rest := es[|front|..];
      assert es == front + rest;
      UnitedIsOwnIff(front, rest);
      PrefixIs(front, rest);
      assert front + Missing(es, front) == front + rest <==> Missing(es, front) == rest by {
        assert forall x :: (front + x)[|front|..] == x;
      }
    }
  }

  lemma PrefixIs(front: seq<Value>, rest: seq<Value>)
    ensures PrefixNotRepeated(front, front + rest) <==> forall i :: 0 <= i < |rest| ==> rest[i] !in front
  {
    var es := front + rest;
    assert forall i :: 0 <= i < |rest| ==> rest[i] == es[|front| + i];
    assert forall i :: |front| <= i < |es| ==> es[i] == rest[i - |front|];
  }

  lemma NewestIsKeptIff(vs: seq<Value>)
    requires vs != []
    ensures Combined(vs) == vs[|vs| - 1] <==> NothingAdded(vs)
  {
    var run, older := vs[RunStart(vs)..], OlderInRun(vs);
    assert run[..|run| - 1] == older;
    match vs[|vs| - 1]
    case Int64(n) => WrapsToSameIff(IntSum(older), n);
    case Float64(x) => if older != [] { AddendIsLostIff(FloatSum(older), x); }
    case List(es) => if older != [] { UnionIsNewestIff(ListUnion(older), es); }
    case _ =>
  }

  /** Exactly when an exclusive claim keeps its pinned value: if it is no number and no list, and
      otherwise if the older values of the newest run add nothing to it. */
  lemma PinIsKeptIff(cs: seq<Contribution>, k: string)
    requires Fold(cs).Done? && k in Fold(cs).value.pins
    ensures var vs := Values(Accepted(cs), k);
            && vs != [] && k in Fold(cs).value.claims
            && (Fold(cs).value.claims[k] == Fold(cs).value.pins[k] <==> NothingAdded(vs))
  {
    FoldIsSummary(cs);
    NewestIsPin(cs, k);
    ClaimNamesHaveValues(Accepted(cs), k);
    NewestIsKeptIff(Values(Accepted(cs), k));
  }

  lemma WrapsToSameIff(a: int, n: int64)
    ensures Wrap64(a + n) == n <==> a % TWO64 == 0
  {
  }

  /** A licence with an exclusive limit of 5 users. */
  const FIVE_USERS := map[EXCLUSIVE_CLAIM := StrList(["max-users"]), "max-users" := Int64(5)]
  const FIVE_USERS_LICENSE := Contribution(Some(Product("", FIVE_USERS)), None, "", "")

  lemma FiveUsersStep(n: int64, e: Entry)
    requires -100 <= n <= 100
    requires e.claims == (if n == 0 then map[] else map["max-users" := Int64(n)])
    requires e.pins == (if n == 0 then map[] else map["max-users" := Int64(5)])
    ensures Step(e, FIVE_USERS_LICENSE).Done?
    ensures Step(e, FIVE_USERS_LICENSE).value.claims == map["max-users" := Int64(n + 5)]
    ensures Step(e, FIVE_USERS_LICENSE).value.pins == map["max-users" := Int64(5)]
  {
    var p := Payload(FIVE_USERS);
    assert p == map["max-users" := Int64(5)];
    assert ["max-users"][0] == "max-users";
    assert ExclusiveNames(FIVE_USERS) == Some(NameSet(["max-users"]));
    assert MergeClaims(e.claims, p) == map["max-users" := Int64(n + 5)];
    assert AddPins(e.pins, p, NameSet(["max-users"])) == map["max-users" := Int64(5)];
  }

  /** The documentation's promise is not kept for numbers: two licences that agree on an
      exclusive limit of 5 yield a limit of 10. */
  lemma NumericPinDrifts()
    ensures var r := Fold([FIVE_USERS_LICENSE, FIVE_USERS_LICENSE]);
            r.Done? && r.value.pins == map["max-users" := Int64(5)] && r.value.claims == map["max-users" := Int64(10)]
  {
    var c := FIVE_USERS_LICENSE;
    assert [c, c][..1] == [c] && [c][..0] == [];
    FiveUsersStep(0, EMPTY_ENTRY);
    assert Fold([c]) == Step(EMPTY_ENTRY, c);
    FiveUsersStep(5, Step(EMPTY_ENTRY, c).value);
  }

  // ---------- Licence ids of products ----------

  /** The aggregation never looks at the `lid` of a product: entries that differ in it alone, in
      whatever way, have one result. So no entry ever replaces another. */
  lemma {:induction false} LicenseIdsAreIgnored(a: seq<Contribution>, b: seq<Contribution>)
    requires |a| == |b|
    requires forall i :: 0 <= i < |a| ==>
      && a[i].expiry == b[i].expiry && a[i].dn == b[i].dn && a[i].sin == b[i].sin
      && (a[i].product.Some? <==> b[i].product.Some?)
      && (a[i].product.Some? ==> a[i].product.value.unknown == b[i].product.value.unknown)
    ensures Fold(a) == Fold(b)
  {
    if a != [] {
      LicenseIdsAreIgnored(a[..|a| - 1], b[..|b| - 1]);
    }
  }

  // ---------- Licences as they come out of JSON ----------

  /** A value JSON decoding can produce. */
  ghost predicate Decoded(v: Value) {
    match v
    case Int64(_) => false
    case StrList(_) => false
    case List(vs) => forall i :: 0 <= i < |vs| ==> Decoded(vs[i])
    case Object(m) => forall k :: k in m ==> Decoded(m[k])
    case _ => true
  }

  ghost predicate AllDecoded(cs: seq<Contribution>) {
    forall i :: 0 <= i < |cs| ==>
      cs[i].product.Some? ==>
      forall k :: k in cs[i].product.value.unknown ==> Decoded(cs[i].product.value.unknown[k])
  }

  /** For decoded licences exclusivity never takes effect: no claim is ever pinned, and a
      licence is accepted exactly when it carries no exclusive list at all. */
  lemma {:induction false} DecodedNeverPins(cs: seq<Contribution>, k: string)
    requires AllDecoded(cs)
    ensures FirstPin(Accepted(cs), k).None?
    ensures forall c :: c in Accepted(cs) <==>
      c in cs && c.product.Some? && EXCLUSIVE_CLAIM !in c.product.value.unknown
  {
    DecodedNoPins(cs);
    DecodedMembers(cs);
  }

  lemma OlderDecoded(cs: seq<Contribution>, n: nat)
    requires AllDecoded(cs) && n <= |cs|
    ensures AllDecoded(cs[..n])
  {
    assert forall i :: 0 <= i < n ==> cs[..n][i] == cs[i];
  }

  /** Without pins, a decoded licence is accepted exactly if it has no exclusive list. */
  lemma DecodedAccepts(a: seq<Contribution>, cs: seq<Contribution>)
    requires AllDecoded(cs) && cs != [] && forall k :: FirstPin(a, k).None?
    ensures var c := cs[|cs| - 1];
            Accepts(a, c) <==> c.product.Some? && EXCLUSIVE_CLAIM !in c.product.value.unknown
  {
    var c := cs[|cs| - 1];
    if c.product.Some? {
      assert EXCLUSIVE_CLAIM in c.product.value.unknown ==> Decoded(c.product.value.unknown[EXCLUSIVE_CLAIM]);
    }
  }

  lemma {:induction false} DecodedNoPins(cs: seq<Contribution>)
    requires AllDecoded(cs)
    ensures forall k :: FirstPin(Accepted(cs), k).None?
  {
    if cs != [] {
      var older, c := cs[..|cs| - 1], cs[|cs| - 1];
      OlderDecoded(cs, |cs| - 1);
      DecodedNoPins(older);
      var a := Accepted(older);
      DecodedAccepts(a, cs);
      assert (a + [c])[..|a|] == a;
    }
  }

  lemma {:induction false} DecodedMembers(cs: seq<Contribution>)
    requires AllDecoded(cs)
    ensures forall c :: c in Accepted(cs) <==>
      c in cs && c.product.Some? && EXCLUSIVE_CLAIM !in c.product.value.unknown
  {
    if cs != [] {
      var older := cs[..|cs| - 1];
      OlderDecoded(cs, |cs| - 1);
      DecodedMembers(older);
      DecodedNoPins(older);
      DecodedAccepts(Accepted(older), cs);
      assert cs == older + [cs[|cs| - 1]];
    }
  }

  /** A list whose elements are all strings, numbers, booleans or null. */
  ghost predicate Flat(v: Value) {
    v.List? ==> forall e :: e in v.elems ==> e.Str? || e.Int64? || e.Float64? || e.Bool? || e.Null?
  }

  ghost predicate AllFlat(m: map<string, Value>) {
    forall k :: k in m ==> Flat(m[k])
  }

  /** Decoded licences with the documented claim types (strings, integers, booleans and string
      arrays) never make the handler panic. */
  lemma {:induction false} DocumentedTypesNeverPanic(cs: seq<Contribution>)
    requires AllDecoded(cs)
    requires forall i :: 0 <= i < |cs| ==> cs[i].product.Some? && AllFlat(cs[i].product.value.unknown)
    ensures Fold(cs).Done? && Fold(cs).value.pins == map[] && AllFlat(Fold(cs).value.claims)
  {
    if cs != [] {
      var older, c := cs[..|cs| - 1], cs[|cs| - 1];
      assert forall i :: 0 <= i < |older| ==> older[i] == cs[i];
      DocumentedTypesNeverPanic(older);
      var e, u := Fold(older).value, c.product.value.unknown;
      assert EXCLUSIVE_CLAIM in u ==> Decoded(u[EXCLUSIVE_CLAIM]);
      forall k | k in Payload(u) && k in e.claims
        ensures !ListMergePanics(e.claims[k], u[k]) && Flat(MergeValue(e.claims[k], u[k]))
      {
        if e.claims[k].List? && u[k].List? {
          FlatUnion(e.claims[k].elems, u[k].elems);
        }
      }
      assert !MergePanics(e.claims, Payload(u));
      if ExclusiveNames(u).Some? {
        assert AddPins(e.pins, Payload(u), {}) == map[];
      }
    }
  }

  lemma FlatUnion(have: seq<Value>, next: seq<Value>)
    requires Flat(List(have)) && Flat(List(next))
    ensures !ListMergePanics(List(have), List(next))
    ensures Flat(List(have + Missing(next, have)))
  {
    forall v | v in Missing(next, have)
      ensures Hashable(v)
    {
      MissingElements(next, have, v);
    }
  }

  lemma {:induction false} MissingElements(next: seq<Value>, have: seq<Value>, v: Value)
    ensures v in Missing(next, have) <==> v in next && v !in have
  {
    if next != [] {
      MissingElements(next[..|next| - 1], have, v);
    }
  }

  function Count(vs: seq<Value>, v: Value): nat {
    if vs == [] then 0 else Count(vs[..|vs| - 1], v) + if vs[|vs| - 1] == v then 1 else 0
  }

  lemma {:induction false} CountIsMultiplicity(vs: seq<Value>, v: Value)
    ensures multiset(vs)[v] == Count(vs, v)
  {
    if vs != [] {
      var older, w := vs[..|vs| - 1], vs[|vs| - 1];
      CountIsMultiplicity(older, v);
      assert vs == older + [w];
    }
  }

  lemma CountOneMore(vs: seq<Value>, w: Value, v: Value)
    ensures Count(vs + [w], v) == Count(vs, v) + if w == v then 1 else 0
  {
    assert (vs + [w])[..|vs|] == vs;
  }

  lemma {:induction false} MissingCount(next: seq<Value>, have: seq<Value>, v: Value)
    ensures Count(Missing(next, have), v) == if v in have then 0 else Count(next, v)
  {
    if next != [] {
      var older := next[..|next| - 1];
      MissingCount(older, have, v);
      CountOneMore(Missing(older, have), next[|next| - 1], v);
      assert Missing(older, have) + [] == Missing(older, have);
    }
  }

  // ---------- What the merged values mean ----------

  /** In a united list every element keeps the number of occurrences it has in the oldest list
      that contains it: duplicates across lists vanish, duplicates within one list stay. */
  lemma {:induction false} UnionMultiplicity(run: seq<Value>, j: nat, v: Value)
    requires FirstHolder(run, j, v)
    ensures multiset(ListUnion(run))[v] == multiset(ElementsOf(run[j]))[v]
  {
    if |run| > 1 {
      UnionCount(run, v);
      if j < |run| - 1 {
        InOlder(run, j, v);
        OlderHolder(run, j, v);
        UnionMultiplicity(run[..|run| - 1], j, v);
      } else {
        NotInOlder(run, v);
      }
    }
  }

  /** List `j` is the oldest that contains the element. */
  ghost predicate FirstHolder(run: seq<Value>, j: nat, v: Value) {
    j < |run| && v in ElementsOf(run[j]) && forall i :: 0 <= i < j ==> v !in ElementsOf(run[i])
  }

  /** Every element of the union has one. */
  lemma FirstHolderExists(run: seq<Value>, v: Value) returns (j: nat)
    requires run != [] && v in ListUnion(run)
    ensures FirstHolder(run, j, v)
  {
    UnionElements(run, v);
    j := 0;
    while v !in ElementsOf(run[j])
      invariant j < |run| && forall i :: 0 <= i < j ==> v !in ElementsOf(run[i])
      decreases |run| - j
    {
      j := j + 1;
    }
  }

  lemma OlderHolder(run: seq<Value>, j: nat, v: Value)
    requires FirstHolder(run, j, v) && j < |run| - 1
    ensures FirstHolder(run[..|run| - 1], j, v) && run[..|run| - 1][j] == run[j]
  {
    assert forall i :: 0 <= i <= j ==> run[..|run| - 1][i] == run[i];
  }

  lemma UnionCount(run: seq<Value>, v: Value)
    requires |run| > 1
    ensures var have := ListUnion(run[..|run| - 1]);
            multiset(ListUnion(run))[v] ==
            multiset(have)[v] + if v in have then 0 else multiset(ElementsOf(run[|run| - 1]))[v]
  {
    InUnionStep(ListUnion(run[..|run| - 1]), ElementsOf(run[|run| - 1]), v);
  }

  lemma InOlder(run: seq<Value>, j: nat, v: Value)
    requires j < |run| - 1 && v in ElementsOf(run[j])
    ensures v in ListUnion(run[..|run| - 1])
  {
    var older := run[..|run| - 1];
    assert older[j] == run[j];
    UnionElements(older, v);
  }

  lemma NotInOlder(run: seq<Value>, v: Value)
    requires |run| > 1 && forall i :: 0 <= i < |run| - 1 ==> v !in ElementsOf(run[i])
    ensures v !in ListUnion(run[..|run| - 1])
  {
    UnionElements(run[..|run| - 1], v);
  }

  /** A united list holds exactly the elements of its parts, the oldest part first. */
  lemma {:induction false} UnionElements(run: seq<Value>, v: Value)
    requires run != []
    ensures v in ListUnion(run) <==> exists j :: 0 <= j < |run| && v in ElementsOf(run[j])
    ensures ElementsOf(run[0]) <= ListUnion(run)
  {
    var n := |run| - 1;
    if n > 0 {
      UnionElements(run[..n], v);
      InUnionStep(ListUnion(run[..n]), ElementsOf(run[n]), v);
      InSomeStep(run, v);
    }
  }

  ghost predicate InSome(run: seq<Value>, v: Value) {
    exists j :: 0 <= j < |run| && v in ElementsOf(run[j])
  }

  lemma InSomeStep(run: seq<Value>, v: Value)
    requires run != []
    ensures InSome(run, v) <==> InSome(run[..|run| - 1], v) || v in ElementsOf(run[|run| - 1])
  {
    var older := run[..|run| - 1];
    if j :| 0 <= j < |older| && v in ElementsOf(older[j]) {
      assert run[j] == older[j];
    }
    if j :| 0 <= j < |run| && v in ElementsOf(run[j]) {
      assert j < |older| ==> older[j] == run[j];
    }
  }

  lemma InUnionStep(have: seq<Value>, next: seq<Value>, v: Value)
    ensures v in have + Missing(next, have) <==> v in have || v in next
    ensures multiset(have + Missing(next, have))[v] == multiset(have)[v] + if v in have then 0 else multiset(next)[v]
  {
    MissingElements(next, have, v);
    MissingCount(next, have, v);
    CountIsMultiplicity(next, v);
    CountIsMultiplicity(Missing(next, have), v);
  }

  /** The value of a claim that does not merge comes from the newest accepted carrier. */
  lemma NewestWins(cs: seq<Contribution>, k: string)
    requires Fold(cs).Done? && Values(Accepted(cs), k) != []
    ensures k in Fold(cs).value.claims
    ensures var vs := Values(Accepted(cs), k);
            var newest := vs[|vs| - 1];
            SameKind(Fold(cs).value.claims[k], newest) &&
            (!newest.Int64? && !newest.Float64? && !newest.List? ==> Fold(cs).value.claims[k] == newest)
  {
    FoldIsSummary(cs);
    ClaimNamesHaveValues(Accepted(cs), k);
  }

  lemma {:induction false} DistinctNamesMeaning(xs: seq<string>)
    ensures forall x :: x in DistinctNames(xs) <==> x in xs && x != ""
    ensures forall i, j :: 0 <= i < j < |DistinctNames(xs)| ==> DistinctNames(xs)[i] != DistinctNames(xs)[j]
  {
    if xs != [] {
      DistinctNamesMeaning(xs[..|xs| - 1]);
      assert xs == xs[..|xs| - 1] + [xs[|xs| - 1]];
    }
  }

  /** Reading on only appends names, so they stand in the order of their first appearance. */
  lemma {:induction false} DistinctNamesPrefix(xs: seq<string>, n: nat)
    requires n <= |xs|
    ensures DistinctNames(xs[..n]) <= DistinctNames(xs)
  {
    if n < |xs| {
      var shorter := xs[..|xs| - 1];
      DistinctNamesPrefix(shorter, n);
      assert shorter[..n] == xs[..n];
    } else {
      assert xs[..n] == xs;
    }
  }

  // ---------- Sums of documented limits are exact ----------

  const MAX_LIMIT: int := 999999

  /** A documented limit: an integral number from 0 to 999999, as JSON decodes it. */
  ghost predicate Limit(v: Value) {
    v.Float64? && Integral(v.f) && 0.0 <= v.f <= MAX_LIMIT as real
  }

  ghost predicate AllLimits(vs: seq<Value>) {
    forall i :: 0 <= i < |vs| ==> vs[i].Float64? && Limit(vs[i])
  }

  /** The sum over the integers, without any rounding. */
  ghost function ExactSum(vs: seq<Value>): int {
    if vs == [] then 0
    else ExactSum(vs[..|vs| - 1]) + if vs[|vs| - 1].Float64? then vs[|vs| - 1].f.Floor else 0
  }

  lemma LimitAdds(sum: int, v: Value)
    requires Limit(v) && 0 <= sum && sum + MAX_LIMIT <= 0x20_0000_0000_0000
    ensures FloatAdd(sum as real, v.f) == (sum + v.f.Floor) as real && 0 <= v.f.Floor <= MAX_LIMIT
  {
    assert sum as real + v.f == (sum + v.f.Floor) as real;
    Round64Exact(sum + v.f.Floor);
  }

  lemma {:induction false} LimitSumExact(vs: seq<Value>)
    requires vs != [] && AllLimits(vs)
    requires MAX_LIMIT * |vs| <= 0x20_0000_0000_0000
    ensures FloatSum(vs) == ExactSum(vs) as real
    ensures 0 <= ExactSum(vs) <= MAX_LIMIT * |vs|
  {
    var n := |vs| - 1;
    assert Limit(vs[n]);
    if n > 0 {
      assert forall i :: 0 <= i < n ==> vs[..n][i] == vs[i];
      LimitSumExact(vs[..n]);
      LimitAdds(ExactSum(vs[..n]), vs[n]);
    } else {
      assert vs[..0] == [];
    }
  }

  /** As long as all accepted licences give a claim documented limits, and there are at most
      2^53 / 999999 of them, the aggregated limit is their exact sum. */
  lemma AggregatedLimitIsExact(cs: seq<Contribution>, k: string)
    requires Fold(cs).Done?
    requires var vs := Values(Accepted(cs), k);
             && vs != [] && 999999 * |vs| <= 0x20_0000_0000_0000
             && forall i :: 0 <= i < |vs| ==>
                  vs[i].Float64? && 0.0 <= vs[i].f <= 999999.0 && vs[i].f == vs[i].f.Floor as real
    ensures k in Fold(cs).value.claims
    ensures Fold(cs).value.claims[k] == Float64(ExactSum(Values(Accepted(cs), k)) as real)
  {
    FoldIsSummary(cs);
    ClaimNamesHaveValues(Accepted(cs), k);
    LimitsCombined(Values(Accepted(cs), k));
    LimitSumExact(Values(Accepted(cs), k));
  }

  lemma LimitsCombined(vs: seq<Value>)
    requires vs != [] && AllLimits(vs)
    ensures Combined(vs) == Float64(FloatSum(vs))
  {
    assert TrailingRun(vs, 0);
    TrailingRunUnique(vs, 0, RunStart(vs));
    assert vs[0..] == vs;
  }

  lemma NewestLimitIff(vs: seq<Value>)
    requires vs != [] && AllLimits(vs)
    ensures Float64(ExactSum(vs) as real) == vs[|vs| - 1] <==> ExactSum(vs[..|vs| - 1]) == 0
  {
    assert Limit(vs[|vs| - 1]);
  }

  /** An exclusive documented limit keeps its pinned value exactly if all older limits add up to
      zero. */
  lemma LimitPinIsKeptIff(cs: seq<Contribution>, k: string)
    requires Fold(cs).Done? && k in Fold(cs).value.pins
    requires var vs := Values(Accepted(cs), k); AllLimits(vs) && MAX_LIMIT * |vs| <= 0x20_0000_0000_0000
    ensures var vs := Values(Accepted(cs), k);
            && vs != [] && k in Fold(cs).value.claims
            && (Fold(cs).value.claims[k] == Fold(cs).value.pins[k] <==> ExactSum(vs[..|vs| - 1]) == 0)
  {
    FoldIsSummary(cs);
    NewestIsPin(cs, k);
    AggregatedLimitIsExact(cs, k);
    NewestLimitIff(Values(Accepted(cs), k));
  }
}
