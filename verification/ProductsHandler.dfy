/** The aggregation loops of the products handler, over mutable response entries that share the
    lists of the licences, and in an arbitrary order of every map, refined to the per-product fold
    of `Aggregation`. */
module ProductsHandler {
  import opened License
  import opened Aggregation
  import opened Responses
  import opened Slices
  import opened Plans

  // ---------- Licences in memory ----------

  /** The claims of one product in a licence; `None` is a nil pointer. */
  type GoProduct = Option<map<string, GoValue>>

  datatype GoClaims = GoClaims(expiry: Option<int>, displayName: string, supportId: string, products: map<string, GoProduct>)

  /** The product shows what licence `j` of those that mention it says about it, with the plans
      for its lists. */
  ghost predicate ProductTracked(l: Ledger, p: GoProduct, cs: seq<Contribution>, j: nat) {
    && j < |cs| && p.None? == cs[j].product.None?
    && (p.Some? ==> TracksAll(l, p.value, cs[j].product.value.unknown, cs, j + 1))
  }

  /** The position of licence `i` among those that mention the product. */
  ghost function Position(vs: seq<Claims>, i: nat, name: string): nat
    requires i < |vs|
  {
    |ContributionsOf(vs[..i], name)|
  }

  lemma PositionOf(vs: seq<Claims>, i: nat, name: string)
    requires i < |vs| && name in vs[i].products
    ensures var cs, j := ContributionsOf(vs, name), Position(vs, i, name);
            j < |cs| && cs[j] == ContributionOf(vs[i], name) && cs[..j] == ContributionsOf(vs[..i], name)
  {
    assert vs[..i + 1][..i] == vs[..i];
    ContributionsPrefix(vs, i, name);
    ContributionsPrefix(vs, i + 1, name);
  }

  /** The licence is `c`, but for its products. */
  predicate Describes(g: GoClaims, c: Claims) {
    && g.expiry == c.exp && g.displayName == c.displayName && g.supportId == c.supportId
    && g.products.Keys == c.products.Keys
  }

  ghost predicate LicenseTracked(l: Ledger, g: GoClaims, vs: seq<Claims>, i: nat)
    requires i < |vs|
  {
    Describes(g, vs[i]) && forall name :: name in g.products ==>
         ProductTracked(l, g.products[name], ContributionsOf(vs, name), Position(vs, i, name))
  }

  /** The licences in memory show `vs`, and their lists have the plans of the aggregation. */
  ghost predicate Tracked(l: Ledger, gs: seq<GoClaims>, vs: seq<Claims>) {
    |gs| == |vs| && forall i :: 0 <= i < |gs| ==> LicenseTracked(l, gs[i], vs, i)
  }

  lemma StillTracked(l: Ledger, later: Ledger, gs: seq<GoClaims>, vs: seq<Claims>)
    requires Grows(l, later) && Tracked(l, gs, vs)
    ensures Tracked(later, gs, vs)
  {
    forall i | 0 <= i < |gs|
      ensures LicenseTracked(later, gs[i], vs, i)
    {
      forall name | name in gs[i].products
        ensures ProductTracked(later, gs[i].products[name], ContributionsOf(vs, name), Position(vs, i, name))
      {
        StillTracksProduct(l, later, gs[i].products[name], ContributionsOf(vs, name), Position(vs, i, name));
      }
    }
  }

  lemma StillTracksProduct(l: Ledger, later: Ledger, p: GoProduct, cs: seq<Contribution>, j: nat)
    requires Grows(l, later) && ProductTracked(l, p, cs, j)
    ensures ProductTracked(later, p, cs, j)
  {
    if p.Some? {
      StillTracksAll(l, later, p.value, cs[j].product.value.unknown, cs, j + 1);
    }
  }

  // ---------- Response entries ----------

  /** One product of the response, filled in place. */
  class ProductEntry {
    ghost const product: string
    ghost var read: seq<Contribution>
    ghost var view: Entry
    var ok: bool
    var claims: map<string, GoValue>
    var pins: map<string, GoValue>
    var expiry: seq<Option<int>>
    var dn: seq<string>
    var sin: seq<string>

    /** The entry shows the entry `e`. */
    ghost predicate Shows(l: Ledger, e: Entry)
      reads this
    {
      ok && ShowsAll(l, claims, e.claims) && ShowsAll(l, pins, e.pins) && expiry == e.expiry && dn == e.dn && sin == e.sin
    }

    /** The entry shows the fold over the contributions read into it, and the lists in it have
        their plans from there on. */
    ghost predicate Valid(l: Ledger, cs: seq<Contribution>)
      reads this
    {
      && read <= cs && Fold(read) == Done(view) && Shows(l, view)
      && TracksAll(l, claims, view.claims, cs, |read|)
    }

    constructor (ghost product: string, ghost l: Ledger, ghost cs: seq<Contribution>)
      ensures this.product == product && read == [] && Valid(l, cs)
    {
      this.product := product;
      read, view := [], EMPTY_ENTRY;
      ok := true;
      claims, pins, expiry, dn, sin := map[], map[], [], [], [];
    }

    lemma StillValid(l: Ledger, later: Ledger, cs: seq<Contribution>)
      requires Grows(l, later) && Valid(l, cs)
      ensures Valid(later, cs)
    {
      StillTracksAll(l, later, claims, view.claims, cs, |read|);
      StillShowsAll(l, later, claims, view.claims);
      StillShowsAll(l, later, pins, view.pins);
    }
  }

  /** `appendIfMissingS`. */
  method AppendIfMissingS(slice: seq<string>, s: string) returns (r: seq<string>)
    ensures r == AppendIfMissing(slice, s)
  {
    for i := 0 to |slice|
      invariant s !in slice[..i]
    {
      if slice[i] == s {
        return slice;
      }
    }
    assert slice[..|slice|] == slice;
    return slice + [s];
  }

  // ---------- Validation ----------

  /** `a != b` on two claim values panics. */
  predicate GoComparePanics(a: GoValue, b: GoValue) {
    (a.Shared? && b.Shared?) || (a.Plain? && b.Plain? && ComparePanics(a.value, b.value))
  }

  lemma ComparesShown(l: Ledger, a: GoValue, av: Value, b: GoValue, bv: Value)
    requires Slices.Shows(l, a, av) && Slices.Shows(l, b, bv)
    ensures GoComparePanics(a, b) == ComparePanics(av, bv)
    ensures !ComparePanics(av, bv) ==> (a == b <==> av == bv)
  {
  }

  datatype Verdict = Aggregate(becoming: map<string, GoValue>) | Skip | VerdictPanic

  const NIL := Plain(Null)

  /** The claims that a valid licence is about to pin, as the validation loop collects them. */
  ghost predicate Becoming(m: map<string, GoValue>, pins: map<string, GoValue>, u: map<string, GoValue>, names: set<string>) {
    && m.Keys == names
    && forall k :: k in names ==> m[k] == if k in u && k != EXCLUSIVE_CLAIM && k !in pins then u[k] else NIL
  }

  /** Comparing the Go values of all pinned claims compares the values they show. */
  lemma ValidationShown(l: Ledger, pins: map<string, GoValue>, pv: map<string, Value>, u: map<string, GoValue>, uv: map<string, Value>)
    requires ShowsAll(l, pins, pv) && ShowsAll(l, u, uv)
    ensures PinPanics(pv, Payload(uv)) <==> exists k :: k in u && k != EXCLUSIVE_CLAIM && k in pins && GoComparePanics(u[k], pins[k])
    ensures !PinPanics(pv, Payload(uv)) ==>
              (PinConflict(pv, Payload(uv)) <==> exists k :: k in u && k != EXCLUSIVE_CLAIM && k in pins && u[k] != pins[k])
  {
    forall k | k in u && k in pins
      ensures GoComparePanics(u[k], pins[k]) == ComparePanics(uv[k], pv[k])
      ensures !ComparePanics(uv[k], pv[k]) ==> (u[k] == pins[k] <==> uv[k] == pv[k])
    {
      ComparesShown(l, u[k], uv[k], pins[k], pv[k]);
    }
  }

  /** The listed claims, without values yet. */
  method NoneBecoming(names: seq<string>) returns (becoming: map<string, GoValue>)
    ensures becoming.Keys == NameSet(names) && forall k :: k in becoming ==> becoming[k] == NIL
  {
    becoming := map[];
    for i := 0 to |names|
      invariant becoming.Keys == NameSet(names[..i])
      invariant forall k :: k in becoming ==> becoming[k] == NIL
    {
      becoming := becoming[names[i] := NIL];
    }
    assert names[..|names|] == names;
  }

  /** The validation loop has come without a panic to the claims in `todo`. */
  ghost predicate Validating(becoming: map<string, GoValue>, aggregate: bool, pins: map<string, GoValue>, u: map<string, GoValue>,
                             names: set<string>, todo: set<string>)
  {
    && (forall k :: k in u && k !in todo && k != EXCLUSIVE_CLAIM && k in pins ==> !GoComparePanics(u[k], pins[k]))
    && (aggregate <==> forall k :: k in u && k !in todo && k != EXCLUSIVE_CLAIM && k in pins ==> u[k] == pins[k])
    && becoming.Keys == names
    && (forall k :: k in becoming ==>
          becoming[k] == if k in u && k !in todo && k != EXCLUSIVE_CLAIM && k !in pins then u[k] else NIL)
  }

  /** One round of the validation loop. */
  method ValidateClaim(pins: map<string, GoValue>, u: map<string, GoValue>, k: string, becoming: map<string, GoValue>,
                       aggregate: bool, ghost names: set<string>, ghost todo: set<string>)
    returns (panics: bool, aggregate': bool, becoming': map<string, GoValue>)
    requires Validating(becoming, aggregate, pins, u, names, todo) && k in todo && k in u
    ensures panics ==> k != EXCLUSIVE_CLAIM && k in pins && GoComparePanics(u[k], pins[k])
    ensures !panics ==> Validating(becoming', aggregate', pins, u, names, todo - {k})
  {
    panics, aggregate', becoming' := false, aggregate, becoming;
    if k == EXCLUSIVE_CLAIM {
      return;
    }
    if k in pins {
      panics := GoComparePanics(u[k], pins[k]);
      if !panics && u[k] != pins[k] {
        aggregate' := false;
      }
      return;
    }
    if k in becoming {
      becoming' := becoming[k := u[k]];
    }
  }

  /** The validation loop: compares every claim with its pin, in any order. */
  method Validate(pins: map<string, GoValue>, u: map<string, GoValue>, names: seq<string>,
                  ghost l: Ledger, ghost pv: map<string, Value>, ghost uv: map<string, Value>)
    returns (v: Verdict)
    requires ShowsAll(l, pins, pv) && ShowsAll(l, u, uv)
    ensures v.VerdictPanic? <==> PinPanics(pv, Payload(uv))
    ensures v.Skip? <==> !PinPanics(pv, Payload(uv)) && PinConflict(pv, Payload(uv))
    ensures v.Aggregate? ==> Becoming(v.becoming, pins, u, NameSet(names))
  {
    ValidationShown(l, pins, pv, u, uv);
    var becoming := NoneBecoming(names);
    var aggregate := true;
    var todo := u.Keys;
    while todo != {}
      invariant todo <= u.Keys && Validating(becoming, aggregate, pins, u, NameSet(names), todo)
    {
      var k :| k in todo;
      var panics;
      panics, aggregate, becoming := ValidateClaim(pins, u, k, becoming, aggregate, NameSet(names), todo);
      if panics {
        return VerdictPanic;
      }
      todo := todo - {k};
    }
    return if aggregate then Aggregate(becoming) else Skip;
  }

  /** The exclusive list and the validation: whether a licence is aggregated. */
  method Judge(pins: map<string, GoValue>, u: map<string, GoValue>, ghost l: Ledger, ghost e: Entry, ghost c: Contribution)
    returns (v: Verdict)
    requires c.product.Some? && ShowsAll(l, pins, e.pins) && ShowsAll(l, u, c.product.value.unknown)
    ensures v.Aggregate? ==> Takes(e, c) && Becoming(v.becoming, pins, u, ExclusiveNames(c.product.value.unknown).value)
    ensures v.Skip? ==> !Takes(e, c) && Step(e, c) == Done(e)
    ensures v.VerdictPanic? ==> Step(e, c).Panicked?
  {
    ghost var uv := c.product.value.unknown;
    var names: seq<string> := [];
    if EXCLUSIVE_CLAIM in u {
      assert Slices.Shows(l, u[EXCLUSIVE_CLAIM], uv[EXCLUSIVE_CLAIM]);
      if !(u[EXCLUSIVE_CLAIM].Plain? && u[EXCLUSIVE_CLAIM].value.StrList?) {
        return Skip;
      }
      names := u[EXCLUSIVE_CLAIM].value.strs;
    }
    assert NameSet([]) == {};
    v := Validate(pins, u, names, l, e.pins, uv);
  }

  // ---------- Aggregation ----------

  /** The claims of an entry while licence `j` is merged: done for the claims outside of `todo`. */
  ghost predicate Merging(l: Ledger, gm: map<string, GoValue>, was: map<string, Value>, p: map<string, Value>,
                          todo: set<string>, cs: seq<Contribution>, j: nat)
  {
    && gm.Keys == was.Keys + (p.Keys - todo)
    && forall k :: k in gm ==>
         if k in p && k !in todo then Tracks(l, gm[k], MergeAt(was, p, k), cs, j + 1, k)
         else Tracks(l, gm[k], was[k], cs, j, k)
  }

  lemma StillMerging(l: Ledger, later: Ledger, gm: map<string, GoValue>, was: map<string, Value>, p: map<string, Value>,
                     todo: set<string>, cs: seq<Contribution>, j: nat)
    requires Grows(l, later) && Merging(l, gm, was, p, todo, cs, j)
    ensures Merging(later, gm, was, p, todo, cs, j)
  {
    forall k | k in gm
      ensures if k in p && k !in todo then Tracks(later, gm[k], MergeAt(was, p, k), cs, j + 1, k)
              else Tracks(later, gm[k], was[k], cs, j, k)
    {
      if k in p && k !in todo {
        StillTracks(l, later, gm[k], MergeAt(was, p, k), cs, j + 1, k);
      } else {
        StillTracks(l, later, gm[k], was[k], cs, j, k);
      }
    }
  }

  lemma OneMoreMerged(l: Ledger, gm: map<string, GoValue>, g: GoValue, was: map<string, Value>, p: map<string, Value>,
                      todo: set<string>, k: string, cs: seq<Contribution>, j: nat)
    requires Merging(l, gm, was, p, todo, cs, j) && k in todo && k in p
    requires Tracks(l, g, MergeAt(was, p, k), cs, j + 1, k)
    ensures Merging(l, gm[k := g], was, p, todo - {k}, cs, j)
  {
  }

  lemma AllMerged(l: Ledger, gm: map<string, GoValue>, was: map<string, Value>, p: map<string, Value>,
                  cs: seq<Contribution>, j: nat)
    requires j < |cs| && Merging(l, gm, was, p, {}, cs, j) && cs[j].product.Some? && Payload(cs[j].product.value.unknown) == p
    ensures TracksAll(l, gm, MergeClaims(was, p), cs, j + 1)
  {
    forall k | k in gm
      ensures Tracks(l, gm[k], MergeClaims(was, p)[k], cs, j + 1, k)
    {
      if k !in p {
        TracksPast(l, gm[k], was[k], cs, j, k);
      }
    }
  }

  /** Merging licence `j` has come without a panic to the claims in `todo`. */
  ghost predicate InProgress(l: Ledger, gm: map<string, GoValue>, u: map<string, GoValue>, was: map<string, Value>,
                             todo: set<string>, cs: seq<Contribution>, j: nat)
    requires j < |cs| && cs[j].product.Some?
  {
    var uv := cs[j].product.value.unknown;
    && TracksAll(l, u, uv, cs, j + 1)
    && Merging(l, gm, was, Payload(uv), todo, cs, j)
    && forall k :: k in was && k in Payload(uv) && k !in todo ==> !ListMergePanics(was[k], Payload(uv)[k])
  }

  lemma StillInProgress(l: Ledger, later: Ledger, gm: map<string, GoValue>, u: map<string, GoValue>, was: map<string, Value>,
                        todo: set<string>, cs: seq<Contribution>, j: nat)
    requires j < |cs| && cs[j].product.Some? && Grows(l, later) && InProgress(l, gm, u, was, todo, cs, j)
    ensures InProgress(later, gm, u, was, todo, cs, j)
  {
    StillTracksAll(l, later, u, cs[j].product.value.unknown, cs, j + 1);
    StillMerging(l, later, gm, was, Payload(cs[j].product.value.unknown), todo, cs, j);
  }

  /** Merges claim `k` of licence `j` into an entry. */
  method MergeKey(heap: Heap, entry: ProductEntry, u: map<string, GoValue>, k: string, ghost was: map<string, Value>,
                  ghost todo: set<string>, ghost cs: seq<Contribution>, ghost j: nat)
    returns (panicked: bool)
    requires heap.Valid() && j < |cs| && Carries(cs, j, k) && k in todo && k in u
    requires InProgress(heap.ledger, entry.claims, u, was, todo, cs, j)
    modifies heap.Repr, entry`claims
    ensures heap.Valid() && Grows(old(heap.ledger), heap.ledger) && fresh(heap.Repr - old(heap.Repr))
    ensures panicked ==> MergePanics(was, Payload(cs[j].product.value.unknown))
    ensures !panicked ==> InProgress(heap.ledger, entry.claims, u, was, todo - {k}, cs, j)
  {
    ghost var uv := cs[j].product.value.unknown;
    var claims := entry.claims;
    assert Tracks(heap.ledger, u[k], uv[k], cs, j + 1, k);
    if k !in claims {
      OneMoreMerged(heap.ledger, claims, u[k], was, Payload(uv), todo, k, cs, j);
      entry.claims := claims[k := u[k]];
      return false;
    }
    ghost var before := heap.ledger;
    var merged := MergeTracked(heap, claims[k], u[k], was[k], uv[k], cs, j, k);
    if merged.Panicked? {
      return true;
    }
    StillInProgress(before, heap.ledger, claims, u, was, todo, cs, j);
    OneMoreMerged(heap.ledger, claims, merged.value, was, Payload(uv), todo, k, cs, j);
    entry.claims := claims[k := merged.value];
    return false;
  }

  /** One round of the aggregation loop. */
  method MergeNext(heap: Heap, entry: ProductEntry, u: map<string, GoValue>, k: string, ghost was: map<string, Value>,
                   ghost todo: set<string>, ghost cs: seq<Contribution>, ghost j: nat)
    returns (panicked: bool)
    requires heap.Valid() && j < |cs| && Fold(cs[..j]).Done? && Takes(Fold(cs[..j]).value, cs[j]) && k in todo && k in u
    requires InProgress(heap.ledger, entry.claims, u, was, todo - {EXCLUSIVE_CLAIM}, cs, j)
    modifies heap.Repr, entry`claims
    ensures heap.Valid() && Grows(old(heap.ledger), heap.ledger) && fresh(heap.Repr - old(heap.Repr))
    ensures panicked ==> MergePanics(was, Payload(cs[j].product.value.unknown))
    ensures !panicked ==> InProgress(heap.ledger, entry.claims, u, was, todo - {k} - {EXCLUSIVE_CLAIM}, cs, j)
  {
    WithoutClaim(todo, k, EXCLUSIVE_CLAIM);
    if k == EXCLUSIVE_CLAIM {
      return false;
    }
    panicked := MergeKey(heap, entry, u, k, was, todo - {EXCLUSIVE_CLAIM}, cs, j);
  }

  /** The aggregation loop over the claims of one accepted licence, in any order. */
  method MergeAll(heap: Heap, entry: ProductEntry, u: map<string, GoValue>, ghost was: map<string, Value>,
                  ghost cs: seq<Contribution>, ghost j: nat)
    returns (panicked: bool)
    requires heap.Valid() && j < |cs| && Fold(cs[..j]).Done? && Takes(Fold(cs[..j]).value, cs[j])
    requires TracksAll(heap.ledger, entry.claims, was, cs, j)
    requires TracksAll(heap.ledger, u, cs[j].product.value.unknown, cs, j + 1)
    modifies heap.Repr, entry`claims
    ensures heap.Valid() && Grows(old(heap.ledger), heap.ledger) && fresh(heap.Repr - old(heap.Repr))
    ensures var p := Payload(cs[j].product.value.unknown);
            && (panicked <==> MergePanics(was, p))
            && (!panicked ==> TracksAll(heap.ledger, entry.claims, MergeClaims(was, p), cs, j + 1))
  {
    var todo := u.Keys;
    panicked := false;
    while todo != {} && !panicked
      invariant heap.Valid() && Grows(old(heap.ledger), heap.ledger) && fresh(heap.Repr - old(heap.Repr))
      invariant todo <= u.Keys
      invariant panicked ==> MergePanics(was, Payload(cs[j].product.value.unknown))
      invariant !panicked ==> InProgress(heap.ledger, entry.claims, u, was, todo - {EXCLUSIVE_CLAIM}, cs, j)
      decreases todo
    {
      var k :| k in todo;
      panicked := MergeNext(heap, entry, u, k, was, todo, cs, j);
      todo := todo - {k};
    }
    if !panicked {
      AllInProgress(heap.ledger, entry.claims, u, was, cs, j);
    }
  }

  lemma AllInProgress(l: Ledger, gm: map<string, GoValue>, u: map<string, GoValue>, was: map<string, Value>,
                      cs: seq<Contribution>, j: nat)
    requires j < |cs| && cs[j].product.Some? && InProgress(l, gm, u, was, {} - {EXCLUSIVE_CLAIM}, cs, j)
    ensures var p := Payload(cs[j].product.value.unknown);
            !MergePanics(was, p) && TracksAll(l, gm, MergeClaims(was, p), cs, j + 1)
  {
    assert {} - {EXCLUSIVE_CLAIM} == {};
    AllMerged(l, gm, was, Payload(cs[j].product.value.unknown), cs, j);
  }

  lemma WithoutClaim(todo: set<string>, k: string, claim: string)
    ensures todo - {k} - {claim} == todo - {claim} - {k}
    ensures k == claim ==> todo - {k} - {claim} == todo - {claim}
  {
  }

  /** The pinning loop: makes the collected non-null values exclusive, in any order. */
  method PinAll(entry: ProductEntry, becoming: map<string, GoValue>, ghost u: map<string, GoValue>, ghost names: set<string>,
                ghost l: Ledger, ghost pv: map<string, Value>, ghost uv: map<string, Value>)
    requires Becoming(becoming, entry.pins, u, names) && ShowsAll(l, entry.pins, pv) && ShowsAll(l, u, uv)
    modifies entry`pins
    ensures ShowsAll(l, entry.pins, AddPins(pv, Payload(uv), names))
  {
    ghost var was := entry.pins;
    var todo := becoming.Keys;
    while todo != {}
      invariant todo <= becoming.Keys
      invariant forall k :: k in entry.pins <==> k in was || (k in becoming && k !in todo && becoming[k] != NIL)
      invariant forall k :: k in entry.pins ==> entry.pins[k] == if k in was then was[k] else becoming[k]
    {
      var k :| k in todo;
      todo := todo - {k};
      if becoming[k] != NIL {
        entry.pins := entry.pins[k := becoming[k]];
      }
    }
    PinsShown(was, entry.pins, becoming, u, names, l, pv, uv);
  }

  lemma PinsShown(was: map<string, GoValue>, pins: map<string, GoValue>, becoming: map<string, GoValue>, u: map<string, GoValue>,
                  names: set<string>, l: Ledger, pv: map<string, Value>, uv: map<string, Value>)
    requires Becoming(becoming, was, u, names) && ShowsAll(l, was, pv) && ShowsAll(l, u, uv)
    requires forall k :: k in pins <==> k in was || (k in becoming && becoming[k] != NIL)
    requires forall k :: k in pins ==> pins[k] == if k in was then was[k] else becoming[k]
    ensures ShowsAll(l, pins, AddPins(pv, Payload(uv), names))
  {
    var want := AddPins(pv, Payload(uv), names);
    forall k
      ensures k in pins <==> k in want
      ensures k in pins ==> Slices.Shows(l, pins[k], want[k])
    {
      if k in was {
        assert Slices.Shows(l, was[k], pv[k]);
      } else if k in u {
        assert Slices.Shows(l, u[k], uv[k]);
      }
    }
  }

  /** The expiry, names and new pins of an accepted licence. */
  method AddDetails(entry: ProductEntry, u: map<string, GoValue>, c: GoClaims, becoming: map<string, GoValue>,
                    ghost l: Ledger, ghost e: Entry, ghost uv: map<string, Value>)
    requires ExclusiveNames(uv).Some? && Becoming(becoming, entry.pins, u, ExclusiveNames(uv).value)
    requires ShowsAll(l, entry.pins, e.pins) && ShowsAll(l, u, uv)
    modifies entry`expiry, entry`dn, entry`sin, entry`pins
    ensures entry.expiry == old(entry.expiry) + [c.expiry]
    ensures entry.dn == AppendName(old(entry.dn), c.displayName)
    ensures entry.sin == AppendName(old(entry.sin), c.supportId)
    ensures ShowsAll(l, entry.pins, AddPins(e.pins, Payload(uv), ExclusiveNames(uv).value))
  {
    entry.expiry := entry.expiry + [c.expiry];
    if c.displayName != "" {
      entry.dn := AppendIfMissingS(entry.dn, c.displayName);
    }
    if c.supportId != "" {
      entry.sin := AppendIfMissingS(entry.sin, c.supportId);
    }
    PinAll(entry, becoming, u, ExclusiveNames(uv).value, l, e.pins, uv);
  }

  /** Takes an accepted licence into its entry: claims, expiry, names and new pins. */
  method Accept(heap: Heap, entry: ProductEntry, u: map<string, GoValue>, c: GoClaims, becoming: map<string, GoValue>,
                ghost cs: seq<Contribution>, ghost j: nat)
    returns (panicked: bool)
    requires heap.Valid() && j < |cs| && entry.Valid(heap.ledger, cs) && |entry.read| == j && Takes(entry.view, cs[j])
    requires c.expiry == cs[j].expiry && c.displayName == cs[j].dn && c.supportId == cs[j].sin
    requires var uv := cs[j].product.value.unknown;
             && TracksAll(heap.ledger, u, uv, cs, j + 1)
             && Becoming(becoming, entry.pins, u, ExclusiveNames(uv).value)
    modifies heap.Repr, entry
    ensures heap.Valid() && Grows(old(heap.ledger), heap.ledger) && fresh(heap.Repr - old(heap.Repr))
    ensures entry.read == old(entry.read) && entry.view == old(entry.view)
    ensures panicked <==> Step(old(entry.view), cs[j]).Panicked?
    ensures !panicked ==>
              var after := Step(old(entry.view), cs[j]).value;
              entry.Shows(heap.ledger, after) && TracksAll(heap.ledger, entry.claims, after.claims, cs, j + 1)
  {
    ghost var l, e, uv := heap.ledger, entry.view, cs[j].product.value.unknown;
    assert entry.read == cs[..j];
    panicked := MergeAll(heap, entry, u, e.claims, cs, j);
    if panicked {
      return;
    }
    StillShowsAll(l, heap.ledger, entry.pins, e.pins);
    TracksShow(l, u, uv, cs, j + 1);
    StillShowsAll(l, heap.ledger, u, uv);
    TracksShow(heap.ledger, entry.claims, MergeClaims(e.claims, Payload(uv)), cs, j + 1);
    AddDetails(entry, u, c, becoming, heap.ledger, e, uv);
  }

  /** The part of the handler that reads one product of one licence into its entry. */
  method ReadLicense(heap: Heap, entry: ProductEntry, product: GoProduct, c: GoClaims, ghost cs: seq<Contribution>)
    returns (panicked: bool)
    requires heap.Valid() && entry.Valid(heap.ledger, cs) && |entry.read| < |cs|
    requires var next := cs[|entry.read|];
             && ProductTracked(heap.ledger, product, cs, |entry.read|)
             && c.expiry == next.expiry && c.displayName == next.dn && c.supportId == next.sin
    modifies heap.Repr, entry
    ensures heap.Valid() && Grows(old(heap.ledger), heap.ledger) && fresh(heap.Repr - old(heap.Repr))
    ensures entry.read == old(entry.read) && entry.view == old(entry.view)
    ensures var after := Step(old(entry.view), cs[|old(entry.read)|]);
            && (panicked <==> after.Panicked?)
            && (!panicked ==>
                  && entry.Shows(heap.ledger, after.value)
                  && TracksAll(heap.ledger, entry.claims, after.value.claims, cs, |old(entry.read)| + 1))
  {
    ghost var j := |entry.read|;
    assert entry.read == cs[..j];
    if product.None? {
      return true;
    }
    TracksShow(heap.ledger, product.value, cs[j].product.value.unknown, cs, j + 1);
    var verdict := Judge(entry.pins, product.value, heap.ledger, entry.view, cs[j]);
    match verdict {
      case VerdictPanic =>
        panicked := true;
      case Skip =>
        TracksAllPast(heap.ledger, entry.claims, entry.view.claims, cs, j);
        panicked := false;
      case Aggregate(becoming) =>
        panicked := Accept(heap, entry, product.value, c, becoming, cs, j);
    }
  }

  method ReadContribution(heap: Heap, entry: ProductEntry, product: GoProduct, c: GoClaims, ghost cs: seq<Contribution>)
    returns (panicked: bool)
    requires heap.Valid() && entry.Valid(heap.ledger, cs) && |entry.read| < |cs|
    requires var next := cs[|entry.read|];
             && ProductTracked(heap.ledger, product, cs, |entry.read|)
             && c.expiry == next.expiry && c.displayName == next.dn && c.supportId == next.sin
    modifies heap.Repr, entry
    ensures heap.Valid() && Grows(old(heap.ledger), heap.ledger) && fresh(heap.Repr - old(heap.Repr))
    ensures panicked <==> Fold(old(entry.read) + [cs[|old(entry.read)|]]).Panicked?
    ensures !panicked ==>
              entry.Valid(heap.ledger, cs) && entry.read == old(entry.read) + [cs[|old(entry.read)|]]
  {
    FoldSnoc(entry.read, cs[|entry.read|]);
    panicked := ReadLicense(heap, entry, product, c, cs);
    if !panicked {
      Note(entry, heap.ledger, cs);
    }
  }

  /** Notes the contribution that was read into an entry. */
  ghost method Note(entry: ProductEntry, l: Ledger, cs: seq<Contribution>)
    requires |entry.read| < |cs| && entry.read <= cs && Fold(entry.read) == Done(entry.view)
    requires var after := Step(entry.view, cs[|entry.read|]);
             && after.Done? && entry.Shows(l, after.value)
             && TracksAll(l, entry.claims, after.value.claims, cs, |entry.read| + 1)
    modifies entry`read, entry`view
    ensures entry.Valid(l, cs) && entry.read == old(entry.read) + [cs[|old(entry.read)|]]
  {
    var next := cs[|entry.read|];
    FoldSnoc(entry.read, next);
    entry.view := Step(entry.view, next).value;
    entry.read := entry.read + [next];
  }
}
