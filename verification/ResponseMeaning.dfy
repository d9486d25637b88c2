/** What the products response on decoded licences says about a product, in terms of what the
    licences say. */
module ResponseMeaning {
  import opened License
  import opened Aggregation
  import opened AggregationRules
  import opened Responses
  import opened EndToEnd

  /** The licence has an entry for the product, and the entry does not list exclusive claims. */
  ghost predicate Counts(c: Claims, name: string) {
    name in c.products && c.products[name].Some? && "exclusive" !in c.products[name].value.unknown
  }

  ghost predicate Carries(c: Claims, name: string, k: string) {
    Counts(c, name) && k in c.products[name].value.unknown
  }

  /** Licence `i` is the newest that counts and has a value for the claim. */
  ghost predicate NewestCarrier(cs: seq<Claims>, name: string, k: string, i: int) {
    0 <= i < |cs| && Carries(cs[i], name, k) && forall j :: i < j < |cs| ==> !Carries(cs[j], name, k)
  }

  /** The accepted entries, one licence more. */
  lemma AcceptedGrows(cs: seq<Claims>, name: string)
    requires cs != [] && AllClaimsDecoded(cs)
    ensures AllClaimsDecoded(cs[..|cs| - 1])
    ensures var c := cs[|cs| - 1];
            Accepted(ContributionsOf(cs, name)) ==
            Accepted(ContributionsOf(cs[..|cs| - 1], name)) +
            if Counts(c, name) then [Contribution(c.products[name], c.exp, c.displayName, c.supportId)] else []
  {
    var older, c := cs[..|cs| - 1], cs[|cs| - 1];
    assert forall d :: d in older ==> d in cs;
    assert c in cs;
    ContributionsDecoded(older, name);
    ContributionsDecoded(cs, name);
    var before, all := ContributionsOf(older, name), ContributionsOf(cs, name);
    if name in c.products {
      assert all[..|all| - 1] == before;
      forall k
        ensures FirstPin(Accepted(before), k).None?
      {
        DecodedNeverPins(before, k);
      }
      DecodedAccepts(Accepted(before), all);
      assert Accepted(before) + [] == Accepted(before);
    } else {
      assert all == before;
    }
  }

  lemma {:induction false} AcceptedMeaning(cs: seq<Claims>, name: string, a: Contribution)
    requires AllClaimsDecoded(cs)
    ensures a in Accepted(ContributionsOf(cs, name)) <==>
            exists i :: 0 <= i < |cs| && Counts(cs[i], name) &&
                        a == Contribution(cs[i].products[name], cs[i].exp, cs[i].displayName, cs[i].supportId)
  {
    if cs != [] {
      var older := cs[..|cs| - 1];
      AcceptedGrows(cs, name);
      AcceptedMeaning(older, name, a);
      assert forall i :: 0 <= i < |older| ==> older[i] == cs[i];
    }
  }

  lemma ValuesGrow(cs: seq<Claims>, name: string, k: string)
    requires cs != [] && AllClaimsDecoded(cs)
    ensures AllClaimsDecoded(cs[..|cs| - 1])
    ensures var c := cs[|cs| - 1];
            Values(Accepted(ContributionsOf(cs, name)), k) ==
            Values(Accepted(ContributionsOf(cs[..|cs| - 1], name)), k) +
            if Carries(c, name, k) then [c.products[name].value.unknown[k]] else []
  {
    var c, a := cs[|cs| - 1], Accepted(ContributionsOf(cs[..|cs| - 1], name));
    AcceptedGrows(cs, name);
    if Counts(c, name) {
      OneMoreValue(a, Contribution(c.products[name], c.exp, c.displayName, c.supportId), k);
    } else {
      assert a + [] == a;
    }
  }

  lemma OneMoreValue(a: seq<Contribution>, c: Contribution, k: string)
    requires c.product.Some? && "exclusive" !in c.product.value.unknown
    ensures var u := c.product.value.unknown;
            Values(a + [c], k) == Values(a, k) + if k in u then [u[k]] else []
  {
    assert (a + [c])[..|a|] == a;
  }

  /** The values of a claim end with that of its newest carrier. */
  lemma {:induction false} NewestValue(cs: seq<Claims>, name: string, k: string, i: int)
    requires AllClaimsDecoded(cs) && NewestCarrier(cs, name, k, i)
    ensures var vs := Values(Accepted(ContributionsOf(cs, name)), k);
            vs != [] && vs[|vs| - 1] == cs[i].products[name].value.unknown[k]
  {
    var older := cs[..|cs| - 1];
    ValuesGrow(cs, name, k);
    if i < |older| {
      assert older[i] == cs[i] && forall j :: i < j < |older| ==> older[j] == cs[j];
      assert NewestCarrier(older, name, k, i);
      NewestValue(older, name, k, i);
    }
  }

  lemma {:induction false} ClaimNamesMeaning(a: seq<Contribution>, k: string)
    ensures k in ClaimNames(a) <==>
            exists c :: c in a && c.product.Some? && k in c.product.value.unknown && k != "exclusive"
  {
    if a != [] {
      ClaimNamesMeaning(a[..|a| - 1], k);
      assert a == a[..|a| - 1] + [a[|a| - 1]];
    }
  }

  /** The claims of a product are those of the licences that count, and none is pinned. */
  lemma EntryClaims(cs: seq<Claims>, filter: Option<set<string>>, name: string, k: string)
    requires AllClaimsDecoded(cs) && Respond(cs, filter).Done? && name in Respond(cs, filter).value
    ensures var e := Respond(cs, filter).value[name];
            && (k in e.claims <==> exists i :: 0 <= i < |cs| && Carries(cs[i], name, k))
            && e.pins == map[]
  {
    var a := Accepted(ContributionsOf(cs, name));
    ResponseIsSummary(cs, filter, name);
    DecodedResponse(cs, filter);
    SummaryClaimKeys(a);
    ClaimNamesMeaning(a, k);
    if c :| c in a && c.product.Some? && k in c.product.value.unknown && k != "exclusive" {
      AcceptedMeaning(cs, name, c);
    }
    if i :| 0 <= i < |cs| && Carries(cs[i], name, k) {
      AcceptedMeaning(cs, name, Contribution(cs[i].products[name], cs[i].exp, cs[i].displayName, cs[i].supportId));
    }
  }

  /** A claim has the kind of value that its newest carrier gives it, and if that is a string, a
      boolean, an object or null, that value. */
  lemma EntryValue(cs: seq<Claims>, filter: Option<set<string>>, name: string, k: string, i: int)
    requires AllClaimsDecoded(cs) && Respond(cs, filter).Done? && name in Respond(cs, filter).value
    requires 0 <= i < |cs| && Carries(cs[i], name, k) && forall j :: i < j < |cs| ==> !Carries(cs[j], name, k)
    ensures k in Respond(cs, filter).value[name].claims
    ensures var v, newest := Respond(cs, filter).value[name].claims[k], cs[i].products[name].value.unknown[k];
            && (v.Float64? <==> newest.Float64?) && (v.List? <==> newest.List?)
            && (newest.Str? || newest.Bool? || newest.Object? || newest.Null? ==> v == newest)
  {
    ResponseIsSummary(cs, filter, name);
    NewestValue(cs, name, k, i);
    NewestWins(ContributionsOf(cs, name), k);
  }

  lemma SummaryNames(a: seq<Contribution>, x: string)
    ensures x in Summary(a).dn <==> x != "" && exists c :: c in a && c.dn == x
  {
    var said := seq(|a|, i requires 0 <= i < |a| => a[i].dn);
    DistinctNamesMeaning(said);
    if c :| c in a && c.dn == x {
      var i :| 0 <= i < |a| && a[i] == c;
      assert said[i] == x;
    }
    if i :| 0 <= i < |said| && said[i] == x {
      assert a[i] in a;
    }
  }

  /** The display names are the non-empty ones of the licences that count, */
  lemma EntryNames(cs: seq<Claims>, filter: Option<set<string>>, name: string, x: string)
    requires AllClaimsDecoded(cs) && Respond(cs, filter).Done? && name in Respond(cs, filter).value
    ensures x in Respond(cs, filter).value[name].dn <==>
            x != "" && exists i :: 0 <= i < |cs| && Counts(cs[i], name) && cs[i].displayName == x
  {
    var a := Accepted(ContributionsOf(cs, name));
    ResponseIsSummary(cs, filter, name);
    SummaryNames(a, x);
    if c :| c in a && c.dn == x {
      AcceptedMeaning(cs, name, c);
    }
    if i :| 0 <= i < |cs| && Counts(cs[i], name) && cs[i].displayName == x {
      AcceptedMeaning(cs, name, Contribution(cs[i].products[name], cs[i].exp, cs[i].displayName, cs[i].supportId));
    }
  }

  lemma SummarySupport(a: seq<Contribution>, x: string)
    ensures x in Summary(a).sin <==> x != "" && exists c :: c in a && c.sin == x
  {
    var said := seq(|a|, i requires 0 <= i < |a| => a[i].sin);
    DistinctNamesMeaning(said);
    if c :| c in a && c.sin == x {
      var i :| 0 <= i < |a| && a[i] == c;
      assert said[i] == x;
    }
    if i :| 0 <= i < |said| && said[i] == x {
      assert a[i] in a;
    }
  }

  /** the support numbers as well, */
  lemma EntrySupport(cs: seq<Claims>, filter: Option<set<string>>, name: string, x: string)
    requires AllClaimsDecoded(cs) && Respond(cs, filter).Done? && name in Respond(cs, filter).value
    ensures x in Respond(cs, filter).value[name].sin <==>
            x != "" && exists i :: 0 <= i < |cs| && Counts(cs[i], name) && cs[i].supportId == x
  {
    var a := Accepted(ContributionsOf(cs, name));
    ResponseIsSummary(cs, filter, name);
    SummarySupport(a, x);
    if c :| c in a && c.sin == x {
      AcceptedMeaning(cs, name, c);
    }
    if i :| 0 <= i < |cs| && Counts(cs[i], name) && cs[i].supportId == x {
      AcceptedMeaning(cs, name, Contribution(cs[i].products[name], cs[i].exp, cs[i].displayName, cs[i].supportId));
    }
  }

  lemma SummaryExpiry(a: seq<Contribution>, x: Option<int>)
    ensures x in Summary(a).expiry <==> exists c :: c in a && c.expiry == x
  {
    var said := seq(|a|, i requires 0 <= i < |a| => a[i].expiry);
    assert Summary(a).expiry == said;
    if c :| c in a && c.expiry == x {
      var i :| 0 <= i < |a| && a[i] == c;
      assert said[i] == x;
    }
    if i :| 0 <= i < |said| && said[i] == x {
      assert a[i] in a;
    }
  }

  /** and the expiry dates are theirs. */
  lemma EntryExpiry(cs: seq<Claims>, filter: Option<set<string>>, name: string, x: Option<int>)
    requires AllClaimsDecoded(cs) && Respond(cs, filter).Done? && name in Respond(cs, filter).value
    ensures x in Respond(cs, filter).value[name].expiry <==>
            exists i :: 0 <= i < |cs| && Counts(cs[i], name) && cs[i].exp == x
  {
    var a := Accepted(ContributionsOf(cs, name));
    ResponseIsSummary(cs, filter, name);
    SummaryExpiry(a, x);
    if c :| c in a && c.expiry == x {
      AcceptedMeaning(cs, name, c);
    }
    if i :| 0 <= i < |cs| && Counts(cs[i], name) && cs[i].exp == x {
      AcceptedMeaning(cs, name, Contribution(cs[i].products[name], cs[i].exp, cs[i].displayName, cs[i].supportId));
    }
  }
}
