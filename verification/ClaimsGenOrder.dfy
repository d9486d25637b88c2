/** Exactly when the iteration order of the parameter map shows in the generated claims. */
module ClaimsGenOrder {
  import opened License
  import opened ClaimsGen

  ghost predicate OrderIrrelevant(ps: Parsers, params: Params) {
    forall a, b :: IsOrder(params.Keys, a) && IsOrder(params.Keys, b) ==>
      Run(ps, params, Some(NEW_CLAIMS), a) == Run(ps, params, Some(NEW_CLAIMS), b)
  }

  lemma {:induction false} AnOrder(keys: set<string>) returns (order: seq<string>)
    ensures IsOrder(keys, order)
  {
    order := [];
    var todo := keys;
    while todo != {}
      invariant todo <= keys && IsOrder(keys - todo, order)
    {
      var k :| k in todo;
      todo := todo - {k};
      order := order + [k];
    }
    assert keys - todo == keys;
  }

  lemma OrdersJoin(x: set<string>, a: seq<string>, y: set<string>, b: seq<string>)
    requires IsOrder(x, a) && IsOrder(y, b) && x !! y
    ensures IsOrder(x + y, a + b)
  {
    forall k
      ensures k in a + b <==> k in x + y
    {
    }
    forall i, j | 0 <= i < j < |a + b|
      ensures (a + b)[i] != (a + b)[j]
    {
      assert i < |a| ==> a[i] in x;
      assert j >= |a| ==> b[j - |a|] in y;
    }
  }

  // ---------- A list key that shares its place with another key ----------

  /** The claim that a key names holds something other than a list of strings. */
  ghost predicate HoldsScalar(c: GenClaims, t: Target) {
    t.Claim? && var u := ProductOf(c, t.product).unknown; t.claim in u && !u[t.claim].StrList?
  }

  ghost predicate ListsOnly(c: GenClaims) {
    forall p :: p in c.products ==>
      forall k :: k in c.products[p].unknown ==> c.products[p].unknown[k].StrList?
  }

  ghost predicate AllKeys(params: Params, order: seq<string>, lists: bool) {
    forall k :: k in order ==> k in params && ListKey(ParseKey(k)) == lists
  }

  lemma {:induction false} ListsFirst(ps: Parsers, params: Params, c: GenClaims, order: seq<string>)
    requires !AnyFails(ps, params) && AllKeys(params, order, true) && ListsOnly(c)
    decreases |order|
    ensures var r := Run(ps, params, Some(c), order); r.Some? && ListsOnly(r.value)
  {
    if order != [] {
      assert order[0] in order;
      ListsFirst(ps, params, Step(ps, c, order[0], params[order[0]]).value, order[1..]);
    }
  }

  /** A scalar parameter does not panic, writes a scalar to its own place, and leaves other
      scalars in place. */
  lemma ScalarStep(ps: Parsers, params: Params, c: GenClaims, l: string, t: Target)
    requires !AnyFails(ps, params) && l in params && !ListKey(ParseKey(l)) && ListKey(t)
    ensures var r := Step(ps, c, l, params[l]);
            r.Some? && (HoldsScalar(c, t) || SamePlace(ParseKey(l), t) ==> HoldsScalar(r.value, t))
  {
  }

  lemma {:induction false} ScalarsRun(ps: Parsers, params: Params, c: GenClaims, order: seq<string>, l: string, t: Target)
    requires !AnyFails(ps, params) && AllKeys(params, order, false) && ListKey(t)
    decreases |order|
    ensures var r := Run(ps, params, Some(c), order);
            r.Some? && (HoldsScalar(c, t) || (l in order && SamePlace(ParseKey(l), t)) ==> HoldsScalar(r.value, t))
  {
    if order != [] {
      assert order[0] in order;
      ScalarStep(ps, params, c, order[0], t);
      assert order == [order[0]] + order[1..];
      ScalarsRun(ps, params, Step(ps, c, order[0], params[order[0]]).value, order[1..], l, t);
    }
  }

  lemma SameListKey(k: string, l: string)
    requires ListKey(ParseKey(k)) && ListKey(ParseKey(l)) && SamePlace(ParseKey(k), ParseKey(l))
    ensures k == l
  {
    var t := ParseKey(k);
    ListKeyUnique(k, t.product, t.claim);
    ListKeyUnique(l, t.product, t.claim);
  }

  lemma {:induction false} ListsPanic(ps: Parsers, params: Params, c: GenClaims, order: seq<string>, k: string)
    requires !AnyFails(ps, params) && AllKeys(params, order, true)
    requires k in order && HoldsScalar(c, ParseKey(k))
    decreases |order|
    ensures Run(ps, params, Some(c), order).None?
  {
    var j := order[0];
    assert j in order;
    var r := Step(ps, c, j, params[j]);
    if j != k && r.Some? {
      if SamePlace(ParseKey(j), ParseKey(k)) {
        SameListKey(j, k);
      }
      assert HoldsScalar(r.value, ParseKey(k));
      ListsPanic(ps, params, r.value, order[1..], k);
    }
  }

  lemma ListsAndScalars(params: Params) returns (lists: seq<string>, scalars: seq<string>)
    ensures AllKeys(params, lists, true) && AllKeys(params, scalars, false)
    ensures IsOrder(params.Keys, lists + scalars) && IsOrder(params.Keys, scalars + lists)
  {
    var listKeys := set j | j in params && ListKey(ParseKey(j));
    var others := params.Keys - listKeys;
    lists := AnOrder(listKeys);
    scalars := AnOrder(others);
    OrdersJoin(listKeys, lists, others, scalars);
    OrdersJoin(others, scalars, listKeys, lists);
    assert listKeys + others == params.Keys == others + listKeys;
  }

  /** Reading all lists first succeeds; reading them last panics. */
  lemma SharedListShows(ps: Parsers, params: Params, k: string, l: string)
    requires !AnyFails(ps, params) && k in params && l in params && k != l
    requires ListKey(ParseKey(k)) && SamePlace(ParseKey(l), ParseKey(k))
    ensures !OrderIrrelevant(ps, params)
  {
    if ListKey(ParseKey(l)) {
      SameListKey(k, l);
    }
    var lists, scalars := ListsAndScalars(params);
    assert k in lists + scalars && l in lists + scalars;
    TwoOrders(ps, params, lists, scalars, k, l);
  }

  lemma TwoOrders(ps: Parsers, params: Params, lists: seq<string>, scalars: seq<string>, k: string, l: string)
    requires !AnyFails(ps, params) && AllKeys(params, lists, true) && AllKeys(params, scalars, false)
    requires k in lists && l in scalars && SamePlace(ParseKey(l), ParseKey(k))
    ensures Run(ps, params, Some(NEW_CLAIMS), lists + scalars).Some?
    ensures Run(ps, params, Some(NEW_CLAIMS), scalars + lists).None?
  {
    var start := Some(NEW_CLAIMS);
    RunConcat(ps, params, start, lists, scalars);
    ListsFirst(ps, params, NEW_CLAIMS, lists);
    ScalarsRun(ps, params, Run(ps, params, start, lists).value, scalars, l, ParseKey(k));
    RunConcat(ps, params, start, scalars, lists);
    ScalarsRun(ps, params, NEW_CLAIMS, scalars, l, ParseKey(k));
    ListsPanic(ps, params, Run(ps, params, start, scalars).value, lists, k);
  }

  // ---------- Two scalar keys with different values for one place ----------

  /** No list key shares its place with another key. */
  ghost predicate ListsAlone(params: Params) {
    forall k, l :: k in params && l in params && k != l && ListKey(ParseKey(k)) ==>
      !SamePlace(ParseKey(l), ParseKey(k))
  }

  /** No list parameter would panic. */
  ghost predicate Clean(params: Params, c: GenClaims) {
    forall k :: k in params && ListKey(ParseKey(k)) ==> !HoldsScalar(c, ParseKey(k))
  }

  lemma CleanStep(ps: Parsers, params: Params, c: GenClaims, l: string)
    requires !AnyFails(ps, params) && ListsAlone(params) && Clean(params, c) && l in params
    ensures var r := Step(ps, c, l, params[l]); r.Some? && Clean(params, r.value)
  {
    var r := Step(ps, c, l, params[l]);
    forall k | k in params && ListKey(ParseKey(k))
      ensures r.Some? && !HoldsScalar(r.value, ParseKey(k))
    {
      assert !HoldsScalar(c, ParseKey(k));
      assert k != l ==> !SamePlace(ParseKey(l), ParseKey(k));
    }
  }

  lemma {:induction false} CleanRun(ps: Parsers, params: Params, c: GenClaims, order: seq<string>)
    requires !AnyFails(ps, params) && ListsAlone(params) && Clean(params, c)
    requires forall k :: k in order ==> k in params
    decreases |order|
    ensures var r := Run(ps, params, Some(c), order); r.Some? && Clean(params, r.value)
  {
    if order != [] {
      assert order[0] in order;
      CleanStep(ps, params, c, order[0]);
      CleanRun(ps, params, Step(ps, c, order[0], params[order[0]]).value, order[1..]);
    }
  }

  /** The place that `t` names holds the value of a scalar parameter. */
  ghost predicate Holds(ps: Parsers, c: GenClaims, t: Target, typ: string, v: string)
    requires t.Claim?
  {
    var p := ProductOf(c, t.product);
    if t.claim == LID_CLAIM then p.licenseId == Given(v)
    else t.claim in p.unknown && Some(p.unknown[t.claim]) == Scalar(ps, typ, v)
  }

  lemma ClaimKeysOnly(ps: Parsers, k: string, vs: seq<string>, l: string)
    requires k != l && SamePlace(ParseKey(k), ParseKey(l)) && !Fails(ps, ParseKey(k), vs)
    ensures ParseKey(k).Claim? && ParseKey(l).Claim?
  {
  }

  lemma TwoLast(params: Params, k: string, l: string) returns (rest: seq<string>)
    requires k in params && l in params && k != l
    ensures IsOrder(params.Keys, rest + [k, l]) && IsOrder(params.Keys, rest + [l, k])
  {
    var others := params.Keys - {k, l};
    rest := AnOrder(others);
    OrdersJoin(others, rest, {k, l}, [k, l]);
    OrdersJoin(others, rest, {k, l}, [l, k]);
    assert others + {k, l} == params.Keys;
  }

  /** Whichever of the two is read last determines the claim. */
  lemma ScalarsShow(ps: Parsers, params: Params, k: string, l: string)
    requires !AnyFails(ps, params) && ListsAlone(params) && k in params && l in params && k != l
    requires SamePlace(ParseKey(k), ParseKey(l)) && !Compatible(ps, ParseKey(k), params[k], ParseKey(l), params[l])
    ensures !OrderIrrelevant(ps, params)
  {
    assert !ListKey(ParseKey(k)) && !ListKey(ParseKey(l));
    ClaimKeysOnly(ps, k, params[k], l);
    var rest := TwoLast(params, k, l);
    LastTwoDiffer(ps, params, rest, k, l);
  }

  lemma LastTwoDiffer(ps: Parsers, params: Params, rest: seq<string>, k: string, l: string)
    requires !AnyFails(ps, params) && ListsAlone(params) && k in params && l in params
    requires var t, u := ParseKey(k), ParseKey(l);
             && t.Claim? && u.Claim? && SamePlace(t, u) && !ListKey(t) && !ListKey(u)
             && !Compatible(ps, t, params[k], u, params[l])
    requires IsOrder(params.Keys, rest + [k, l]) && IsOrder(params.Keys, rest + [l, k])
    ensures Run(ps, params, Some(NEW_CLAIMS), rest + [k, l]) != Run(ps, params, Some(NEW_CLAIMS), rest + [l, k])
  {
    assert forall j :: j in rest ==> j in rest + [k, l];
    var kl := LastTwo(ps, params, rest, k, l);
    var lk := LastTwo(ps, params, rest, l, k);
    OneValueOnly(ps, kl, ParseKey(k), params[k], ParseKey(l), params[l]);
  }

  /** One place cannot hold both values. */
  lemma OneValueOnly(ps: Parsers, c: GenClaims, t: Target, vs: seq<string>, u: Target, ws: seq<string>)
    requires t.Claim? && u.Claim? && SamePlace(t, u) && !ListKey(t) && !ListKey(u) && vs != [] && ws != []
    requires !Compatible(ps, t, vs, u, ws)
    ensures !(Holds(ps, c, t, t.typ, vs[0]) && Holds(ps, c, u, u.typ, ws[0]))
  {
  }

  lemma LastTwo(ps: Parsers, params: Params, rest: seq<string>, k: string, l: string) returns (c: GenClaims)
    requires !AnyFails(ps, params) && ListsAlone(params) && k in params && l in params
    requires (forall j :: j in rest ==> j in params) && ParseKey(l).Claim? && !ListKey(ParseKey(l)) && ParseKey(l).claim != ""
    ensures Run(ps, params, Some(NEW_CLAIMS), rest + [k, l]) == Some(c)
    ensures Holds(ps, c, ParseKey(l), ParseKey(l).typ, params[l][0])
  {
    CleanRun(ps, params, NEW_CLAIMS, rest + [k]);
    var before := Run(ps, params, Some(NEW_CLAIMS), rest + [k]).value;
    assert rest + [k, l] == (rest + [k]) + [l];
    RunSnoc(ps, params, Some(NEW_CLAIMS), rest + [k], l);
    CleanStep(ps, params, before, l);
    c := Step(ps, before, l, params[l]).value;
  }

  /** The order never shows exactly if some parameter fails on its own, or all parameters are
      pairwise compatible. */
  lemma OrderIrrelevantIff(ps: Parsers, params: Params)
    ensures OrderIrrelevant(ps, params) <==> AnyFails(ps, params) || AllCompatible(ps, params)
  {
    if AnyFails(ps, params) || AllCompatible(ps, params) {
      forall a, b | IsOrder(params.Keys, a) && IsOrder(params.Keys, b)
        ensures Run(ps, params, Some(NEW_CLAIMS), a) == Run(ps, params, Some(NEW_CLAIMS), b)
      {
        OrderIsIrrelevant(ps, params, a, b);
      }
    } else if ListsAlone(params) {
      var k, l :| k in params && l in params && k != l &&
                  !Compatible(ps, ParseKey(k), params[k], ParseKey(l), params[l]);
      ScalarsShow(ps, params, k, l);
    } else {
      var k, l :| k in params && l in params && k != l && ListKey(ParseKey(k)) && SamePlace(ParseKey(l), ParseKey(k));
      SharedListShows(ps, params, k, l);
    }
  }
}
