/** Licences as decoding puts them into memory, each list in an array of its own, and requests on
    them. */
module Decoding {
  import opened License
  import opened Aggregation
  import opened Responses
  import opened Slices
  import opened ProductsHandler
  import opened Requests

  method DecodeValue(v: Value) returns (g: GoValue, ghost used: set<array<Value>>)
    ensures Visible(g, v) && fresh(used) && (g.Shared? ==> g.slice.arr in used)
  {
    used := {};
    if v.List? {
      var arr := new Value[|v.elems|](i requires 0 <= i < |v.elems| => v.elems[i]);
      assert arr[..] == v.elems;
      g, used := Shared(Slice(arr, |v.elems|)), {arr};
    } else {
      g := Plain(v);
    }
  }

  /** The lists of a product are in these arrays. */
  ghost predicate Within(gm: map<string, GoValue>, used: set<array<Value>>) {
    forall k :: k in gm && gm[k].Shared? ==> gm[k].slice.arr in used
  }

  /** No list of one product shares an array with one of the other. */
  ghost predicate Apart(gm: map<string, GoValue>, gn: map<string, GoValue>) {
    forall k, l :: k in gm && l in gn && gm[k].Shared? && gn[l].Shared? ==> gm[k].slice.arr != gn[l].slice.arr
  }

  /** No two lists of a product share an array. */
  ghost predicate OwnArrays(gm: map<string, GoValue>) {
    forall k, l :: k in gm && l in gm && k != l && gm[k].Shared? && gm[l].Shared? ==> gm[k].slice.arr != gm[l].slice.arr
  }

  method DecodeClaims(m: map<string, Value>) returns (gm: map<string, GoValue>, ghost used: set<array<Value>>)
    ensures gm.Keys == m.Keys && forall k :: k in gm ==> Visible(gm[k], m[k])
    ensures OwnArrays(gm) && Within(gm, used) && fresh(used)
  {
    gm, used := map[], {};
    var todo := m.Keys;
    while todo != {}
      invariant todo <= m.Keys && gm.Keys == m.Keys - todo
      invariant forall k :: k in gm ==> Visible(gm[k], m[k])
      invariant OwnArrays(gm) && Within(gm, used) && fresh(used)
    {
      var k :| k in todo;
      todo := todo - {k};
      ghost var more;
      var g;
      g, more := DecodeValue(m[k]);
      gm, used := gm[k := g], used + more;
    }
  }

  ghost predicate ProductsWithin(ps: map<string, GoProduct>, used: set<array<Value>>) {
    forall name :: name in ps && ps[name].Some? ==> Within(ps[name].value, used)
  }

  ghost predicate OwnProductArrays(ps: map<string, GoProduct>) {
    && (forall name :: name in ps && ps[name].Some? ==> OwnArrays(ps[name].value))
    && forall n, o :: n in ps && o in ps && n != o && ps[n].Some? && ps[o].Some? ==> Apart(ps[n].value, ps[o].value)
  }

  /** The product in memory has the claims of `p`, and its readers see their values. */
  ghost predicate ShowsProduct(g: GoProduct, p: Option<Product>)
    reads if g.Some? then set k | k in g.value && g.value[k].Shared? :: g.value[k].slice.arr else {}
  {
    && g.None? == p.None?
    && (g.Some? ==> g.value.Keys == p.value.unknown.Keys)
    && (g.Some? ==> forall k :: k in g.value ==> Visible(g.value[k], p.value.unknown[k]))
  }

  method DecodeProduct(p: Option<Product>) returns (g: GoProduct, ghost used: set<array<Value>>)
    ensures ShowsProduct(g, p) && fresh(used)
    ensures g.Some? ==> OwnArrays(g.value) && Within(g.value, used)
  {
    g, used := None, {};
    if p.Some? {
      var gm;
      gm, used := DecodeClaims(p.value.unknown);
      g := Some(gm);
    }
  }

  method DecodeProducts(ps: map<string, Option<Product>>)
    returns (gps: map<string, GoProduct>, ghost used: set<array<Value>>)
    ensures gps.Keys == ps.Keys && forall name :: name in gps ==> ShowsProduct(gps[name], ps[name])
    ensures OwnProductArrays(gps) && ProductsWithin(gps, used) && fresh(used)
  {
    gps, used := map[], {};
    var todo := ps.Keys;
    while todo != {}
      invariant todo <= ps.Keys && gps.Keys == ps.Keys - todo
      invariant forall name :: name in gps ==> ShowsProduct(gps[name], ps[name])
      invariant OwnProductArrays(gps) && ProductsWithin(gps, used) && fresh(used)
    {
      var name :| name in todo;
      todo := todo - {name};
      ghost var more;
      var g;
      g, more := DecodeProduct(ps[name]);
      AddedProduct(gps, used, name, g, more);
      gps, used := gps[name := g], used + more;
    }
  }

  lemma AddedProduct(ps: map<string, GoProduct>, used: set<array<Value>>,
                     name: string, g: GoProduct, more: set<array<Value>>)
    requires OwnProductArrays(ps) && ProductsWithin(ps, used) && name !in ps && used !! more
    requires g.Some? ==> OwnArrays(g.value) && Within(g.value, more)
    ensures OwnProductArrays(ps[name := g]) && ProductsWithin(ps[name := g], used + more)
  {
  }
  lemma SameArray(gs: seq<GoClaims>, g: GoClaims, p: Place)
    requires p in Requests.Lists(gs + [g])
    ensures p.i < |gs| ==> p in Requests.Lists(gs) && ArrayAt(gs + [g], p) == ArrayAt(gs, p)
    ensures p.i >= |gs| ==>
              && p.i == |gs| && p.product in g.products && g.products[p.product].Some?
              && p.claim in g.products[p.product].value && g.products[p.product].value[p.claim].Shared?
              && ArrayAt(gs + [g], p) == g.products[p.product].value[p.claim].slice.arr
  {
    ListsMeaning(gs + [g], p);
    ListsMeaning(gs, p);
  }

  ghost predicate LicensesWithin(gs: seq<GoClaims>, used: set<array<Value>>) {
    forall i :: 0 <= i < |gs| ==> ProductsWithin(gs[i].products, used)
  }

  lemma AddedLicense(gs: seq<GoClaims>, used: set<array<Value>>, g: GoClaims, more: set<array<Value>>)
    requires Separate(gs) && LicensesWithin(gs, used) && used !! more
    requires OwnProductArrays(g.products) && ProductsWithin(g.products, more)
    ensures Separate(gs + [g]) && LicensesWithin(gs + [g], used + more)
  {
    var all := gs + [g];
    forall p, q | p in Requests.Lists(all) && q in Requests.Lists(all) && p != q
      ensures ArrayAt(all, p) != ArrayAt(all, q)
    {
      SameArray(gs, g, p);
      SameArray(gs, g, q);
      OldArray(gs, used, p);
      OldArray(gs, used, q);
      if p.i >= |gs| && q.i >= |gs| && p.product != q.product {
        assert Apart(g.products[p.product].value, g.products[q.product].value);
      }
    }
  }

  lemma OldArray(gs: seq<GoClaims>, used: set<array<Value>>, p: Place)
    requires LicensesWithin(gs, used)
    ensures p in Requests.Lists(gs) ==> ArrayAt(gs, p) in used
  {
    ListsMeaning(gs, p);
  }

  /** Decodes all licences: each list has an array of its own, and shows what the file says. */
  method Decode(vs: seq<Claims>) returns (gs: seq<GoClaims>)
    ensures Separate(gs) && Displays(gs, vs) && fresh(Arrays(gs))
  {
    gs := [];
    ghost var used: set<array<Value>> := {};
    for i := 0 to |vs|
      invariant |gs| == i && Separate(gs) && LicensesWithin(gs, used) && fresh(used)
      invariant forall j :: 0 <= j < i ==> Shown(gs[j], vs[j])
    {
      ghost var more;
      var products;
      products, more := DecodeProducts(vs[i].products);
      var g := GoClaims(vs[i].exp, vs[i].displayName, vs[i].supportId, products);
      AddedLicense(gs, used, g, more);
      gs, used := gs + [g], used + more;
    }
    ShownIsDisplayed(gs, vs);
    forall a | a in Arrays(gs)
      ensures a in used
    {
      OldArray(gs, used, OwnerOf(gs, a));
    }
  }

  /** The licence in memory is `c`, and its readers see the values of its claims. */
  ghost predicate Shown(g: GoClaims, c: Claims)
    reads set name, k | name in g.products && g.products[name].Some? && k in g.products[name].value &&
                        g.products[name].value[k].Shared? :: g.products[name].value[k].slice.arr
  {
    && g.expiry == c.exp && g.displayName == c.displayName && g.supportId == c.supportId
    && g.products.Keys == c.products.Keys
    && forall name :: name in g.products ==> ShowsProduct(g.products[name], c.products[name])
  }

  lemma ShownIsDisplayed(gs: seq<GoClaims>, vs: seq<Claims>)
    requires |gs| == |vs| && forall j :: 0 <= j < |gs| ==> Shown(gs[j], vs[j])
    ensures Displays(gs, vs)
  {
    forall p | HasValue(gs, p)
      ensures DisplaysAt(gs, vs, p)
    {
      assert Shown(gs[p.i], vs[p.i]);
    }
  }

  /** What the readers of an answer see: nothing, or an entry for each product, with the values of
      its claims and pins, its dates and its names. */
  lemma AnswerIsRead(heap: Heap, answer: Answer, vs: seq<Claims>, filter: Option<set<string>>)
    requires heap.Valid() && Answers(heap.ledger, answer, vs, filter)
    ensures answer.None? <==> Respond(vs, filter).Panicked?
    ensures answer.Some? ==> answer.value.products.Keys == Respond(vs, filter).value.Keys
    ensures answer.Some? ==> forall name :: name in answer.value.products ==>
              ReadsAs(answer.value.products[name], Respond(vs, filter).value[name])
  {
    if answer.Some? {
      forall name | name in answer.value.products
        ensures ReadsAs(answer.value.products[name], Respond(vs, filter).value[name])
      {
        ShownIsRead(heap, answer.value, Respond(vs, filter).value, name);
      }
    }
  }

  ghost function ObjectsOfEntry(e: ProductEntry): set<object>
    reads e
  {
    {e} + (set k | k in e.claims && e.claims[k].Shared? :: e.claims[k].slice.arr)
        + (set k | k in e.pins && e.pins[k].Shared? :: e.pins[k].slice.arr)
  }

  ghost predicate ReadsAs(e: ProductEntry, v: Entry)
    reads e, ObjectsOfEntry(e)
  {
    && e.claims.Keys == v.claims.Keys && (forall k :: k in v.claims ==> Visible(e.claims[k], v.claims[k]))
    && e.pins.Keys == v.pins.Keys && (forall k :: k in v.pins ==> Visible(e.pins[k], v.pins[k]))
    && e.expiry == v.expiry && e.dn == v.dn && e.sin == v.sin
  }

  /** Decodes the licences and answers any number of requests on them. In the end the readers of
      every answer see what `Respond` gives, and every licence shows nothing but its own lists. */
  method ServeDecoded(vs: seq<Claims>, filters: seq<Option<set<string>>>)
    returns (gs: seq<GoClaims>, answers: seq<Answer>, heap: Heap)
    ensures Displays(gs, vs) && |answers| == |filters|
    ensures forall n :: 0 <= n < |filters| ==>
              && (answers[n].None? <==> Respond(vs, filters[n]).Panicked?)
              && (answers[n].Some? ==>
                    && answers[n].value.products.Keys == Respond(vs, filters[n]).value.Keys
                    && forall name :: name in answers[n].value.products ==>
                         var e, v := answers[n].value.products[name], Respond(vs, filters[n]).value[name];
                         && e.claims.Keys == v.claims.Keys
                         && (forall k :: k in v.claims ==> Visible(e.claims[k], v.claims[k]))
                         && e.pins.Keys == v.pins.Keys && (forall k :: k in v.pins ==> Visible(e.pins[k], v.pins[k]))
                         && e.expiry == v.expiry && e.dn == v.dn && e.sin == v.sin)
  {
    gs := Decode(vs);
    answers, heap := Serve(gs, filters, vs);
    forall n | 0 <= n < |filters|
      ensures answers[n].None? <==> Respond(vs, filters[n]).Panicked?
      ensures answers[n].Some? ==> answers[n].value.products.Keys == Respond(vs, filters[n]).value.Keys
      ensures answers[n].Some? ==> forall name :: name in answers[n].value.products ==>
                ReadsAs(answers[n].value.products[name], Respond(vs, filters[n]).value[name])
    {
      AnswerIsRead(heap, answers[n], vs, filters[n]);
    }
  }
}
