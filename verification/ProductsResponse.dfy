/** The products handler over all licences and products, and any number of requests that share
    the licences in memory. */
module ProductsResponse {
  import opened License
  import opened Aggregation
  import opened Responses
  import opened Slices
  import opened ProductsHandler

  /** The response under construction. */
  class Response {
    ghost var Repr: set<object>
    var products: map<string, ProductEntry>

    ghost predicate Valid()
      reads this
    {
      && this in Repr && (forall o: object :: o in Repr ==> o == this || o is ProductEntry)
      && forall n :: n in products ==> products[n] in Repr && products[n].product == n
    }

    /** Every entry shows the fold over the licences before `i` and the products `read` of `i`. */
    ghost predicate Holds(l: Ledger, vs: seq<Claims>, i: nat, read: set<string>)
      requires i <= |vs|
      reads this, Repr
    {
      Valid() && forall n :: n in products ==>
        products[n].Valid(l, ContributionsOf(vs, n)) && products[n].read == Partial(vs, i, read, n)
    }

    /** The response shows `value`. */
    ghost predicate Shows(l: Ledger, value: map<string, Entry>)
      reads this, Repr
    {
      Valid() && products.Keys == value.Keys && forall n :: n in products ==> products[n].Shows(l, value[n])
    }

    constructor ()
      ensures Valid() && fresh(Repr) && products == map[]
    {
      products := map[];
      Repr := {this};
    }

    lemma StillShows(l: Ledger, later: Ledger, value: map<string, Entry>)
      requires Shows(l, value) && Grows(l, later)
      ensures Shows(later, value)
    {
      forall n | n in products
        ensures products[n].Shows(later, value[n])
      {
        StillShowsAll(l, later, products[n].claims, value[n].claims);
        StillShowsAll(l, later, products[n].pins, value[n].pins);
      }
    }

    /** After all licences the response is complete. */
    lemma AllRead(l: Ledger, vs: seq<Claims>, filter: Option<set<string>>)
      requires Holds(l, vs, |vs|, {}) && products.Keys == Names(vs[..|vs|], filter)
      ensures Respond(vs, filter).Done? && Shows(l, Respond(vs, filter).value)
    {
      assert vs[..|vs|] == vs;
      forall n | n in products
        ensures Fold(ContributionsOf(vs, n)) == Done(products[n].view)
      {
        assert Partial(vs, |vs|, {}, n) == ContributionsOf(vs, n);
        assert products[n].Valid(l, ContributionsOf(vs, n));
      }
    }

    lemma OneMoreHolds(l: Ledger, vs: seq<Claims>, i: nat, read: set<string>, name: string)
      requires i < |vs| && Valid() && name in products && Partial(vs, i, read, name) == []
      requires OthersHold(l, vs, i, read, name)
      requires products[name].read == [] && products[name].Valid(l, ContributionsOf(vs, name))
      ensures Holds(l, vs, i, read)
    {
    }

    /** Makes the entry of product `name`. */
    method AddEntry(ghost l: Ledger, ghost vs: seq<Claims>, ghost i: nat, ghost read: set<string>, name: string)
      requires i < |vs| && Holds(l, vs, i, read) && name !in products && Partial(vs, i, read, name) == []
      modifies this
      ensures Holds(l, vs, i, read) && products.Keys == old(products.Keys) + {name}
      ensures fresh(Repr - old(Repr))
    {
      var entry := new ProductEntry(name, l, ContributionsOf(vs, name));
      products := products[name := entry];
      Repr := Repr + {entry};
      OneMoreHolds(l, vs, i, read, name);
    }

    /** Makes the entry of a wanted product of licence `i`, if there is none. */
    method OpenEntry(ghost heap: Heap, ghost vs: seq<Claims>, ghost i: nat, ghost read: set<string>, name: string,
                     ghost filter: Option<set<string>>)
      requires heap.Valid() && i < |vs| && Holds(heap.ledger, vs, i, read) && name !in read
      requires Names(vs[..i], filter) <= products.Keys && Wanted(filter, name)
      modifies this
      ensures heap.Valid() && unchanged(heap)
      ensures Holds(heap.ledger, vs, i, read) && products.Keys == old(products.Keys) + {name}
      ensures fresh(Repr - old(Repr))
    {
      assert this !in heap.Repr;
      if name !in products {
        NoContributionsYet(vs[..i], filter, name);
        AddEntry(heap.ledger, vs, i, read, name);
      }
    }

    /** An unwanted product changes nothing. */
    lemma SkipHolds(l: Ledger, vs: seq<Claims>, i: nat, read: set<string>, name: string)
      requires i < |vs| && Holds(l, vs, i, read) && name !in products
      ensures Holds(l, vs, i, read + {name})
    {
      forall n | n in products
        ensures Partial(vs, i, read + {name}, n) == Partial(vs, i, read, n)
      {
      }
    }

    /** All entries but that of product `name`. */
    ghost predicate OthersHold(l: Ledger, vs: seq<Claims>, i: nat, read: set<string>, name: string)
      requires i <= |vs|
      reads this, Repr
    {
      Valid() && forall n :: n in products && n != name ==>
        products[n].Valid(l, ContributionsOf(vs, n)) && products[n].read == Partial(vs, i, read, n)
    }

    lemma AllHold(l: Ledger, later: Ledger, vs: seq<Claims>, i: nat, read: set<string>, name: string)
      requires i < |vs| && name in vs[i].products && name !in read && name in products && Grows(l, later)
      requires OthersHold(l, vs, i, read, name)
      requires products[name].Valid(later, ContributionsOf(vs, name))
      requires products[name].read == Partial(vs, i, read + {name}, name)
      ensures Holds(later, vs, i, read + {name})
    {
      ReadingGrows(vs, i, read, name);
      forall n | n in products && n != name
        ensures products[n].Valid(later, ContributionsOf(vs, n)) && products[n].read == Partial(vs, i, read + {name}, n)
      {
        products[n].StillValid(l, later, ContributionsOf(vs, n));
      }
    }

    /** Reads one more contribution into the entry of product `name`; all others stay. */
    method ReadNext(heap: Heap, product: GoProduct, g: GoClaims, ghost vs: seq<Claims>, ghost i: nat, ghost read: set<string>,
                    name: string)
      returns (panicked: bool)
      requires heap.Valid() && i < |vs| && Holds(heap.ledger, vs, i, read) && name in products
      requires var cs, j := ContributionsOf(vs, name), |products[name].read|;
               && ProductTracked(heap.ledger, product, cs, j)
               && g.expiry == cs[j].expiry && g.displayName == cs[j].dn && g.supportId == cs[j].sin
      modifies heap.Repr, products[name]
      ensures heap.Valid() && Grows(old(heap.ledger), heap.ledger) && fresh(heap.Repr - old(heap.Repr))
      ensures products == old(products) && Repr == old(Repr)
      ensures OthersHold(old(heap.ledger), vs, i, read, name)
      ensures var cs, was := ContributionsOf(vs, name), old(products[name].read);
              && (panicked <==> Fold(was + [cs[|was|]]).Panicked?)
              && (!panicked ==> products[name].Valid(heap.ledger, cs) && products[name].read == was + [cs[|was|]])
    {
      assert this !in heap.Repr;
      ghost var l := heap.ledger;
      var entry := products[name];
      assert entry.Valid(l, ContributionsOf(vs, name));
      panicked := ReadContribution(heap, entry, product, g, ContributionsOf(vs, name));
      forall n | n in products && n != name
        ensures products[n].Valid(l, ContributionsOf(vs, n)) && products[n].read == Partial(vs, i, read, n)
      {
        assert products[n].product == n && products[n] != entry;
        assert old(products[n].Valid(l, ContributionsOf(vs, n)));
      }
    }

    /** Reads the product `name` of licence `i` into its entry. */
    method ReadEntry(heap: Heap, g: GoClaims, ghost vs: seq<Claims>, ghost i: nat, ghost read: set<string>, name: string)
      returns (panicked: bool)
      requires heap.Valid() && i < |vs| && Describes(g, vs[i]) && name in g.products && name !in read
      requires ProductTracked(heap.ledger, g.products[name], ContributionsOf(vs, name), Position(vs, i, name))
      requires Holds(heap.ledger, vs, i, read) && name in products
      modifies heap.Repr, products[name]
      ensures heap.Valid() && Grows(old(heap.ledger), heap.ledger) && fresh(heap.Repr - old(heap.Repr))
      ensures products == old(products) && Repr == old(Repr)
      ensures panicked ==> Fold(Partial(vs, i, read + {name}, name)).Panicked?
      ensures !panicked ==> Holds(heap.ledger, vs, i, read + {name})
    {
      PositionOf(vs, i, name);
      assert products[name].read == ContributionsOf(vs[..i], name);
      ReadingGrows(vs, i, read, name);
      ghost var l := heap.ledger;
      panicked := ReadNext(heap, g.products[name], g, vs, i, read, name);
      if !panicked {
        AllHold(l, heap.ledger, vs, i, read, name);
      }
    }

    /** Reads the product `name` of licence `i`, if the request wants it, after the products
        `read` of that licence. */
    method ReadProduct(heap: Heap, g: GoClaims, ghost vs: seq<Claims>, ghost i: nat, ghost read: set<string>, name: string,
                       filter: Option<set<string>>)
      returns (panicked: bool)
      requires heap.Valid() && i < |vs| && Describes(g, vs[i]) && name in g.products && name !in read
      requires ProductTracked(heap.ledger, g.products[name], ContributionsOf(vs, name), Position(vs, i, name))
      requires Names(vs[..i], filter) <= products.Keys && forall n :: n in products ==> Wanted(filter, n)
      requires Holds(heap.ledger, vs, i, read)
      modifies heap.Repr, Repr
      ensures heap.Valid() && Grows(old(heap.ledger), heap.ledger) && fresh(heap.Repr - old(heap.Repr))
      ensures panicked ==> Respond(vs, filter).Panicked?
      ensures products.Keys == old(products.Keys) + if filter.None? || name in filter.value then {name} else {}
      ensures !panicked ==> Holds(heap.ledger, vs, i, read + {name})
      ensures fresh(Repr - old(Repr))
    {
      if filter.Some? && name !in filter.value {
        SkipHolds(heap.ledger, vs, i, read, name);
        return false;
      }
      OpenEntry(heap, vs, i, read, name, filter);
      panicked := ReadEntry(heap, g, vs, i, read, name);
      if panicked {
        PanicIsFinal(vs, i, read + {name}, name, filter);
      }
    }

    /** One round of the loop over the products of a licence. */
    method NextProduct(heap: Heap, g: GoClaims, ghost vs: seq<Claims>, ghost i: nat, ghost todo: set<string>, name: string,
                       filter: Option<set<string>>, ghost have: set<string>)
      returns (panicked: bool)
      requires heap.Valid() && i < |vs| && LicenseTracked(heap.ledger, g, vs, i) && name in todo && todo <= g.products.Keys
      requires have == Names(vs[..i], filter) && products.Keys == have + WantedOf(g.products.Keys - todo, filter)
      requires Holds(heap.ledger, vs, i, g.products.Keys - todo)
      modifies heap.Repr, Repr
      ensures heap.Valid() && Grows(old(heap.ledger), heap.ledger) && fresh(heap.Repr - old(heap.Repr))
      ensures panicked ==> Respond(vs, filter).Panicked?
      ensures LicenseTracked(heap.ledger, g, vs, i)
      ensures products.Keys == have + WantedOf(g.products.Keys - (todo - {name}), filter)
      ensures !panicked ==> Holds(heap.ledger, vs, i, g.products.Keys - (todo - {name}))
      ensures fresh(Repr - old(Repr))
    {
      NamesAreWanted(vs[..i], filter);
      ReadGrows(g.products.Keys, todo, have, filter, name);
      ghost var l := heap.ledger;
      panicked := ReadProduct(heap, g, vs, i, g.products.Keys - todo, name, filter);
      LicenseStillTracked(l, heap.ledger, g, vs, i);
    }

    /** Reads licence `i`, its products in any order. */
    method ReadProducts(heap: Heap, g: GoClaims, ghost vs: seq<Claims>, ghost i: nat, filter: Option<set<string>>)
      returns (panicked: bool)
      requires heap.Valid() && i < |vs| && LicenseTracked(heap.ledger, g, vs, i)
      requires products.Keys == Names(vs[..i], filter) && Holds(heap.ledger, vs, i, {})
      modifies heap.Repr, Repr
      ensures heap.Valid() && Grows(old(heap.ledger), heap.ledger) && fresh(heap.Repr - old(heap.Repr))
      ensures panicked ==> Respond(vs, filter).Panicked?
      ensures !panicked ==> products.Keys == Names(vs[..i + 1], filter) && Holds(heap.ledger, vs, i + 1, {})
      ensures fresh(Repr - old(Repr))
    {
      ghost var have, objects, arrays := products.Keys, Repr, heap.Repr;
      var todo := g.products.Keys;
      assert g.products.Keys - todo == {};
      panicked := false;
      while todo != {} && !panicked
        invariant heap.Valid() && Grows(old(heap.ledger), heap.ledger) && fresh(heap.Repr - old(heap.Repr))
        invariant LicenseTracked(heap.ledger, g, vs, i) && todo <= g.products.Keys
        invariant products.Keys == have + WantedOf(g.products.Keys - todo, filter)
        invariant fresh(Repr - old(Repr))
        invariant if panicked then Respond(vs, filter).Panicked? else Holds(heap.ledger, vs, i, g.products.Keys - todo)
        decreases todo
      {
        ghost var repr, heapRepr := Repr, heap.Repr;
        var name :| name in todo;
        panicked := NextProduct(heap, g, vs, i, todo, name, filter, have);
        todo := todo - {name};
        // what is new since the last product is new, and so is what was new before
        assert Repr - objects <= (Repr - repr) + (repr - objects);
        assert heap.Repr - arrays <= (heap.Repr - heapRepr) + (heapRepr - arrays);
      }
      NextLicense(vs, i, filter);
      assert todo == {} ==> g.products.Keys - todo == vs[i].products.Keys;
    }
  }

  lemma LicenseStillTracked(l: Ledger, later: Ledger, g: GoClaims, vs: seq<Claims>, i: nat)
    requires i < |vs| && Grows(l, later) && LicenseTracked(l, g, vs, i)
    ensures LicenseTracked(later, g, vs, i)
  {
    forall name | name in g.products
      ensures ProductTracked(later, g.products[name], ContributionsOf(vs, name), Position(vs, i, name))
    {
      StillTracksProduct(l, later, g.products[name], ContributionsOf(vs, name), Position(vs, i, name));
    }
  }

  /** One round of the loop over the licences. */
  method NextRound(heap: Heap, gs: seq<GoClaims>, i: nat, filter: Option<set<string>>, ghost vs: seq<Claims>, response: Response)
    returns (panicked: bool)
    requires heap.Valid() && Tracked(heap.ledger, gs, vs) && i < |gs|
    requires response.products.Keys == Names(vs[..i], filter) && response.Holds(heap.ledger, vs, i, {})
    modifies heap.Repr, response.Repr
    ensures heap.Valid() && Grows(old(heap.ledger), heap.ledger) && fresh(heap.Repr - old(heap.Repr))
    ensures Tracked(heap.ledger, gs, vs)
    ensures fresh(response.Repr - old(response.Repr))
    ensures panicked ==> Respond(vs, filter).Panicked?
    ensures !panicked ==>
              response.products.Keys == Names(vs[..i + 1], filter) && response.Holds(heap.ledger, vs, i + 1, {})
  {
    ghost var l := heap.ledger;
    panicked := response.ReadProducts(heap, gs[i], vs, i, filter);
    StillTracked(l, heap.ledger, gs, vs);
  }

  /** The handler: licences oldest first, the products of each in any order. */
  method ClaimsKopanoProducts(heap: Heap, gs: seq<GoClaims>, filter: Option<set<string>>, ghost vs: seq<Claims>)
    returns (panicked: bool, response: Response)
    requires heap.Valid() && Tracked(heap.ledger, gs, vs)
    modifies heap.Repr
    ensures heap.Valid() && Grows(old(heap.ledger), heap.ledger) && fresh(heap.Repr - old(heap.Repr))
    ensures Tracked(heap.ledger, gs, vs)
    ensures fresh(response.Repr)
    ensures panicked <==> Respond(vs, filter).Panicked?
    ensures !panicked ==> response.Shows(heap.ledger, Respond(vs, filter).value)
  {
    response := new Response();
    panicked := false;
    var i := 0;
    while i < |gs| && !panicked
      invariant i <= |gs|
      invariant heap.Valid() && Grows(old(heap.ledger), heap.ledger) && fresh(heap.Repr - old(heap.Repr))
      invariant Tracked(heap.ledger, gs, vs) && fresh(response.Repr)
      invariant if panicked then Respond(vs, filter).Panicked?
                else response.products.Keys == Names(vs[..i], filter) && response.Holds(heap.ledger, vs, i, {})
    {
      panicked := NextRound(heap, gs, i, filter, vs, response);
      i := i + 1;
    }
    if !panicked {
      response.AllRead(heap.ledger, vs, filter);
    }
  }
}
