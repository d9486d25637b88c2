/** What the products response holds, as values: for every wanted product the fold of
    `Aggregation` over what the licences say about it. */
module Responses {
  import opened License
  import opened Aggregation

  // ---------- The response, product by product ----------

  /** Whether a request for the products in `filter` (all products, if absent) wants `name`. */
  predicate Wanted(filter: Option<set<string>>, name: string) {
    filter.Some? ==> name in filter.value
  }

  function ContributionOf(c: Claims, name: string): Contribution
    requires name in c.products
  {
    Contribution(c.products[name], c.exp, c.displayName, c.supportId)
  }

  /** What the licences say about one product, oldest licence first. */
  function ContributionsOf(cs: seq<Claims>, name: string): seq<Contribution> {
    if cs == [] then []
    else
      var c := cs[|cs| - 1];
      ContributionsOf(cs[..|cs| - 1], name) + if name in c.products then [ContributionOf(c, name)] else []
  }

  function WantedOf(names: set<string>, filter: Option<set<string>>): set<string> {
    set name | name in names && Wanted(filter, name)
  }

  function Names(cs: seq<Claims>, filter: Option<set<string>>): set<string> {
    if cs == [] then {}
    else Names(cs[..|cs| - 1], filter) + WantedOf(cs[|cs| - 1].products.Keys, filter)
  }

  /** The handler does not panic on what the licences say about these products. */
  ghost predicate AllDone(cs: seq<Claims>, names: set<string>) {
    forall name :: name in names ==> Fold(ContributionsOf(cs, name)).Done?
  }

  ghost function Entries(cs: seq<Claims>, names: set<string>): map<string, Entry>
    requires AllDone(cs, names)
  {
    map name | name in names :: Fold(ContributionsOf(cs, name)).value
  }

  /** The products of the response. A product whose licences are all rejected still gets an
      (empty) entry; one panic anywhere loses the whole response. */
  ghost function Respond(cs: seq<Claims>, filter: Option<set<string>>): Outcome<map<string, Entry>> {
    if AllDone(cs, Names(cs, filter)) then Done(Entries(cs, Names(cs, filter))) else Panicked
  }

  lemma {:induction false} NamesAreFiltered(cs: seq<Claims>, filter: Option<set<string>>, name: string)
    ensures name in Names(cs, filter) <==> name in Names(cs, None) && Wanted(filter, name)
  {
    if cs != [] {
      NamesAreFiltered(cs[..|cs| - 1], filter, name);
    }
  }

  /** A filtered request is answered exactly if the folds of all wanted products are done, whatever
      the others do, and its entries are these folds; so if the unfiltered request is answered, the
      filtered response is its restriction. */
  lemma FilterIsRestriction(cs: seq<Claims>, filter: Option<set<string>>)
    ensures var wanted := WantedOf(Names(cs, None), filter);
            Respond(cs, filter) == if AllDone(cs, wanted) then Done(Entries(cs, wanted)) else Panicked
    ensures Respond(cs, None).Done? ==>
              Respond(cs, filter) ==
              Done(map name | name in Respond(cs, None).value && Wanted(filter, name) :: Respond(cs, None).value[name])
  {
    WantedNames(cs, filter);
    if Respond(cs, None).Done? {
      EntriesRestrict(cs, Names(cs, None), filter);
    }
  }

  lemma {:induction false} NamesMeaning(cs: seq<Claims>, filter: Option<set<string>>, n: string)
    ensures n in Names(cs, filter) <==>
            (filter == None || n in filter.value) && exists i :: 0 <= i < |cs| && n in cs[i].products
  {
    if cs != [] {
      var older := cs[..|cs| - 1];
      NamesMeaning(older, filter, n);
      assert forall i :: 0 <= i < |older| ==> older[i] == cs[i];
    }
  }

  /** The products of a response: with a filter exactly those that it lists and some licence has,
      without one all that some licence has. Each is the fold over what the licences say of it. */
  lemma ResponseProducts(cs: seq<Claims>, filter: Option<set<string>>, n: string)
    requires Respond(cs, filter).Done?
    ensures filter.Some? ==>
              (n in Respond(cs, filter).value <==> n in filter.value && exists i :: 0 <= i < |cs| && n in cs[i].products)
    ensures filter.None? ==>
              (n in Respond(cs, filter).value <==> exists i :: 0 <= i < |cs| && n in cs[i].products)
    ensures n in Respond(cs, filter).value ==> Fold(ContributionsOf(cs, n)) == Done(Respond(cs, filter).value[n])
  {
    NamesMeaning(cs, filter, n);
  }

  ghost predicate LosesResponse(cs: seq<Claims>, filter: Option<set<string>>, n: string) {
    && (filter.Some? ==> n in filter.value)
    && (exists i :: 0 <= i < |cs| && n in cs[i].products)
    && Fold(ContributionsOf(cs, n)).Panicked?
  }

  /** The response is lost exactly if one of these folds panics. */
  lemma LostResponseIff(cs: seq<Claims>, filter: Option<set<string>>)
    ensures Respond(cs, filter).Panicked? <==> exists n :: LosesResponse(cs, filter, n)
  {
    if Respond(cs, filter).Panicked? {
      var n :| n in Names(cs, filter) && Fold(ContributionsOf(cs, n)).Panicked?;
      NamesMeaning(cs, filter, n);
      assert LosesResponse(cs, filter, n);
    }
    if n :| LosesResponse(cs, filter, n) {
      NamesMeaning(cs, filter, n);
    }
  }

  /** What the licences say about a product, licence by licence in order. */
  lemma {:induction false} ContributionsMeaning(cs: seq<Claims>, name: string, i: nat)
    requires i < |cs|
    ensures ContributionsOf(cs[..i], name) +
            (if name in cs[i].products
             then [Contribution(cs[i].products[name], cs[i].exp, cs[i].displayName, cs[i].supportId)] else []) <=
            ContributionsOf(cs, name)
  {
    assert cs[..i + 1][..i] == cs[..i];
    ContributionsPrefix(cs, i + 1, name);
  }

  lemma EntriesRestrict(cs: seq<Claims>, names: set<string>, filter: Option<set<string>>)
    requires AllDone(cs, names)
    ensures AllDone(cs, WantedOf(names, filter))
    ensures Entries(cs, WantedOf(names, filter)) ==
            map name | name in Entries(cs, names) && Wanted(filter, name) :: Entries(cs, names)[name]
  {
  }

  /** Lists of licences that say the same about all products have the same response. */
  lemma SameContributions(a: seq<Claims>, b: seq<Claims>, filter: Option<set<string>>)
    requires forall name :: ContributionsOf(a, name) == ContributionsOf(b, name)
    requires Names(a, filter) == Names(b, filter)
    ensures Respond(a, filter) == Respond(b, filter)
  {
    var names := Names(a, filter);
    assert AllDone(a, names) <==> AllDone(b, names);
    if AllDone(a, names) {
      assert Entries(a, names) == Entries(b, names);
    }
  }

  lemma WantedNames(cs: seq<Claims>, filter: Option<set<string>>)
    ensures Names(cs, filter) == WantedOf(Names(cs, None), filter)
  {
    forall name
      ensures name in Names(cs, filter) <==> name in Names(cs, None) && Wanted(filter, name)
    {
      NamesAreFiltered(cs, filter, name);
    }
  }

  lemma {:induction false} ContributionsPrefix(cs: seq<Claims>, n: nat, name: string)
    requires n <= |cs|
    ensures ContributionsOf(cs[..n], name) <= ContributionsOf(cs, name)
  {
    if n == |cs| {
      assert cs[..n] == cs;
    } else {
      var older := cs[..|cs| - 1];
      assert older[..n] == cs[..n];
      ContributionsPrefix(older, n, name);
    }
  }

  lemma {:induction false} NamesPrefix(cs: seq<Claims>, n: nat, filter: Option<set<string>>)
    requires n <= |cs|
    ensures Names(cs[..n], filter) <= Names(cs, filter)
  {
    if n == |cs| {
      assert cs[..n] == cs;
    } else {
      var older := cs[..|cs| - 1];
      assert older[..n] == cs[..n];
      NamesPrefix(older, n, filter);
    }
  }

  lemma {:induction false} PanicsStay(before: seq<Contribution>, cs: seq<Contribution>)
    requires before <= cs && Fold(before).Panicked?
    ensures Fold(cs).Panicked?
  {
    if before != cs {
      assert before <= cs[..|cs| - 1];
      PanicsStay(before, cs[..|cs| - 1]);
    } else {
      assert before == cs;
    }
  }

  lemma FoldSnoc(cs: seq<Contribution>, c: Contribution)
    ensures Fold(cs + [c]) == if Fold(cs).Panicked? then Panicked else Step(Fold(cs).value, c)
  {
  }

  // ---------- The response after some of the licences ----------

  /** What the response holds after the first `i` licences and the products `read` of the next. */
  ghost function Partial(cs: seq<Claims>, i: nat, read: set<string>, name: string): seq<Contribution>
    requires i <= |cs|
  {
    ContributionsOf(cs[..i], name) +
    if i < |cs| && name in read && name in cs[i].products then [ContributionOf(cs[i], name)] else []
  }

  lemma NextLicense(cs: seq<Claims>, i: nat, filter: Option<set<string>>)
    requires i < |cs|
    ensures forall name :: Partial(cs, i, cs[i].products.Keys, name) == Partial(cs, i + 1, {}, name)
    ensures Names(cs[..i + 1], filter) == Names(cs[..i], filter) + WantedOf(cs[i].products.Keys, filter)
  {
    assert cs[..i + 1][..i] == cs[..i];
  }

  /** A product that no licence read so far mentions has no contributions yet. */
  lemma {:induction false} NoContributionsYet(cs: seq<Claims>, filter: Option<set<string>>, name: string)
    requires name !in Names(cs, filter) && Wanted(filter, name)
    ensures ContributionsOf(cs, name) == []
  {
    if cs != [] {
      NoContributionsYet(cs[..|cs| - 1], filter, name);
    }
  }

  lemma PanicIsFinal(cs: seq<Claims>, i: nat, read: set<string>, name: string, filter: Option<set<string>>)
    requires i < |cs| && name in cs[i].products && Wanted(filter, name)
    requires name in read && Fold(Partial(cs, i, read, name)).Panicked?
    ensures Respond(cs, filter).Panicked?
  {
    NextLicense(cs, i, filter);
    assert Partial(cs, i, read, name) == Partial(cs, i, cs[i].products.Keys, name);
    assert Partial(cs, i + 1, {}, name) == ContributionsOf(cs[..i + 1], name);
    ContributionsPrefix(cs, i + 1, name);
    PanicsStay(ContributionsOf(cs[..i + 1], name), ContributionsOf(cs, name));
    NamesPrefix(cs, i + 1, filter);
  }

  /** Reading one more product of a licence extends that product's contributions only. */
  lemma ReadingGrows(cs: seq<Claims>, i: nat, read: set<string>, name: string)
    requires i < |cs| && name in cs[i].products && name !in read
    ensures forall n :: n != name ==> Partial(cs, i, read + {name}, n) == Partial(cs, i, read, n)
    ensures Partial(cs, i, read + {name}, name) == Partial(cs, i, read, name) + [ContributionOf(cs[i], name)]
  {
  }

  lemma ReadGrows(keys: set<string>, todo: set<string>, have: set<string>, filter: Option<set<string>>, name: string)
    requires name in todo && todo <= keys
    ensures keys - (todo - {name}) == (keys - todo) + {name}
    ensures have + WantedOf((keys - todo) + {name}, filter) ==
            (have + WantedOf(keys - todo, filter)) + if Wanted(filter, name) then {name} else {}
  {
  }

  lemma NamesAreWanted(cs: seq<Claims>, filter: Option<set<string>>)
    ensures forall n :: n in Names(cs, filter) ==> Wanted(filter, n)
  {
  }
}
