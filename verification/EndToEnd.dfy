/** From the licence folder to the products response: the results about scanning, change
    detection and aggregation put together. */
module EndToEnd {
  import opened License
  import opened LicenseSet
  import opened ReadingOrder
  import opened Scan
  import opened ChangeDetection
  import opened Aggregation
  import opened AggregationRules
  import opened AggregationPanics
  import opened Responses

  /** Every entry of a response is the summary of the licences that the exclusivity rule
      accepts for its product. */
  lemma ResponseIsSummary(cs: seq<Claims>, filter: Option<set<string>>, name: string)
    requires Respond(cs, filter).Done? && name in Names(cs, filter)
    ensures Respond(cs, filter).value[name] == Summary(Accepted(ContributionsOf(cs, name)))
  {
    FoldIsSummary(ContributionsOf(cs, name));
  }

  /** The configured customer adds nothing to any product. */
  lemma {:induction false} CustomerHasNoProducts(sub: string, cs: seq<Claims>, filter: Option<set<string>>, name: string)
    ensures ContributionsOf(ConfiguredClaims(sub) + cs, name) == ContributionsOf(cs, name)
    ensures Names(ConfiguredClaims(sub) + cs, filter) == Names(cs, filter)
  {
    var head := ConfiguredClaims(sub);
    if cs == [] {
      assert head + cs == head;
      assert |head| == 1 ==> head[..0] == [];
    } else {
      assert (head + cs)[..|head + cs| - 1] == head + cs[..|cs| - 1];
      CustomerHasNoProducts(sub, cs[..|cs| - 1], filter, name);
    }
  }

  lemma CustomerKeepsResponse(sub: string, cs: seq<Claims>, filter: Option<set<string>>)
    ensures Respond(ConfiguredClaims(sub) + cs, filter) == Respond(cs, filter)
  {
    var all := ConfiguredClaims(sub) + cs;
    forall name
      ensures ContributionsOf(all, name) == ContributionsOf(cs, name)
    {
      CustomerHasNoProducts(sub, cs, filter, name);
    }
    CustomerHasNoProducts(sub, cs, filter, "");
    SameContributions(all, cs, filter);
  }

  /** After a successful scan the server answers as if it aggregated the deduplicated licences
      of that scan, whatever customer is configured and whichever publications were skipped. */
  lemma ServedProducts(sub: string, run: seq<ScanResult>, cs: seq<Claims>, filter: Option<set<string>>)
    requires Coherent(run + [Scanned(cs)])
    ensures Respond(After(sub, run + [Scanned(cs)]).published, filter) == Respond(Deduplicated(cs), filter)
  {
    ServedAfterSuccess(sub, run, cs);
    CustomerKeepsResponse(sub, Deduplicated(cs), filter);
  }

  // ---------- Reading order ----------

  /** Files read in another order give the same response, if all ties of issue time are resolved
      by newer licences with the same file ids. */
  lemma ReadingOrderDoesNotShow(a: seq<Claims>, b: seq<Claims>, filter: Option<set<string>>)
    requires TiesResolved(a) && Rearranged(a, b)
    ensures Respond(Deduplicated(a), filter) == Respond(Deduplicated(b), filter)
  {
    ResolvedTiesAreOrderFree(a, b);
  }

  function EditionLicense(fileId: string, edition: string): Claims {
    Claims(fileId, fileId, "customer", 0, None, None, "", "", map["groupware" := Some(Edition(edition))])
  }

  function Edition(edition: string): Product {
    Product("", map["edition" := Str(edition)])
  }

  lemma EditionStep(e: Entry, edition: string)
    requires e.pins == map[] && e.claims.Keys <= {"edition"} && forall k :: k in e.claims ==> e.claims[k].Str?
    ensures var after := Step(e, Contribution(Some(Edition(edition)), None, "", ""));
            after.Done? && after.value.claims == map["edition" := Str(edition)] && after.value.pins == map[]
  {
    var u := map["edition" := Str(edition)];
    assert Payload(u) == u && EXCLUSIVE_CLAIM !in u;
    assert MergeClaims(e.claims, u) == u;
    assert AddPins(e.pins, u, {}) == map[];
  }

  lemma PairContributions(c: Claims, d: Claims, name: string)
    requires c.products.Keys == d.products.Keys == {name}
    ensures ContributionsOf([c, d], name) == [ContributionOf(c, name), ContributionOf(d, name)]
    ensures Names([c, d], None) == {name}
  {
    assert [c, d][..1] == [c] && [c][..0] == [];
    assert WantedOf({name}, None) == {name};
    assert ContributionsOf([c], name) == ContributionsOf([], name) + [ContributionOf(c, name)];
    assert ContributionsOf([c, d], name) == ContributionsOf([c], name) + [ContributionOf(d, name)];
    assert Names([c], None) == Names([], None) + {name};
    assert Names([c, d], None) == Names([c], None) + {name};
  }

  lemma EditionFold(older: string, newer: string)
    ensures var r := Fold([Contribution(Some(Edition(older)), None, "", ""), Contribution(Some(Edition(newer)), None, "", "")]);
            r.Done? && r.value.claims == map["edition" := Str(newer)]
  {
    var first, second := Contribution(Some(Edition(older)), None, "", ""), Contribution(Some(Edition(newer)), None, "", "");
    EditionStep(EMPTY_ENTRY, older);
    FoldSnoc([], first);
    assert [] + [first] == [first] && [first] + [second] == [first, second];
    EditionStep(Step(EMPTY_ENTRY, first).value, newer);
    FoldSnoc([first], second);
  }

  /** Of two editions the response has that of the newer licence. */
  lemma EditionResponse(a: string, older: string, b: string, newer: string, filter: Option<set<string>>)
    requires Wanted(filter, "groupware")
    ensures var r := Respond([EditionLicense(a, older), EditionLicense(b, newer)], filter);
            r.Done? && "groupware" in r.value && r.value["groupware"].claims == map["edition" := Str(newer)]
  {
    var c, d := EditionLicense(a, older), EditionLicense(b, newer);
    PairContributions(c, d, "groupware");
    EditionFold(older, newer);
    FilterIsRestriction([c, d], filter);
  }

  /** With tied issue times the order does show: the licence read first counts as the newest, so
      of two editions the response has the one that is read first. */
  lemma TiesShow(filter: Option<set<string>>)
    requires filter == None || "groupware" in filter.value
    ensures var basic, enterprise := EditionLicense("1", "basic"), EditionLicense("2", "enterprise");
            Respond(Deduplicated([basic, enterprise]), filter) != Respond(Deduplicated([enterprise, basic]), filter)
  {
    TiedPair(EditionLicense("1", "basic"), EditionLicense("2", "enterprise"));
    TiedPair(EditionLicense("2", "enterprise"), EditionLicense("1", "basic"));
    EditionResponse("2", "enterprise", "1", "basic", filter);
    EditionResponse("1", "basic", "2", "enterprise", filter);
    EditionsDiffer(map["edition" := Str("basic")], map["edition" := Str("enterprise")]);
  }

  lemma EditionsDiffer(a: map<string, Value>, b: map<string, Value>)
    requires "edition" in a && "edition" in b && a["edition"] == Str("basic") && b["edition"] == Str("enterprise")
    ensures a != b
  {
    assert |"basic"| != |"enterprise"|;
  }

  lemma TiedPair(c: Claims, d: Claims)
    requires c.iat == d.iat && c.fileId != d.fileId
    ensures Deduplicated([c, d]) == [d, c]
  {
    var cs, kept := [c, d], [1, 0];
    assert kept[0] in kept && kept[1] in kept;
    assert Winner(cs, 0) && Winner(cs, 1);
    DeduplicatedUnique(cs, kept);
  }

  // ---------- Scanned licences are decoded ----------

  ghost predicate DecodedClaims(c: Claims) {
    forall name :: name in c.products && c.products[name].Some? ==>
      forall k :: k in c.products[name].value.unknown ==> Decoded(c.products[name].value.unknown[k])
  }

  ghost predicate AllClaimsDecoded(cs: seq<Claims>) {
    forall c :: c in cs ==> DecodedClaims(c)
  }

  /** The licences of this example are such. */
  lemma EditionIsDecoded(fileId: string, edition: string)
    ensures DecodedClaims(EditionLicense(fileId, edition))
  {
  }

  /** Whatever key verifies it, the payload of a signed file is JSON. */
  ghost predicate JsonFile(f: File) {
    f.content.Signed? ==> forall k :: k in f.content.token.claimsUnder ==> DecodedClaims(f.content.token.claimsUnder[k])
  }

  lemma TakenIsDecoded(files: seq<File>, keys: Keys, now: int, c: Claims)
    requires (forall f :: f in files ==> JsonFile(f)) && c in ClaimsIn(files, keys, now)
    ensures DecodedClaims(c)
  {
    TakenOnlyIfVerified(files, keys, now, c);
    var i, k :| 0 <= i < |files| && Yields(files[i], keys, now, k, c);
    assert JsonFile(files[i]);
    assert DecodedClaims(files[i].content.token.claimsUnder[k]);
  }

  lemma ScannedIsDecoded(files: seq<File>, keys: Keys, now: int)
    requires forall f :: f in files ==> JsonFile(f)
    ensures AllClaimsDecoded(Deduplicated(ClaimsIn(files, keys, now)))
  {
    var cs := ClaimsIn(files, keys, now);
    forall c | c in Deduplicated(cs)
      ensures DecodedClaims(c)
    {
      ActiveIsNotOutdated(cs, c);
      TakenIsDecoded(files, keys, now, c);
    }
  }

  lemma {:induction false} ContributionsDecoded(cs: seq<Claims>, name: string)
    requires AllClaimsDecoded(cs)
    ensures AllDecoded(ContributionsOf(cs, name))
  {
    if cs != [] {
      assert cs[|cs| - 1] in cs && forall c :: c in cs[..|cs| - 1] ==> c in cs;
      ContributionsDecoded(cs[..|cs| - 1], name);
    }
  }

  ghost predicate ProductPanics(cs: seq<Contribution>) {
    NullProduct(cs) || NestedNeighbours(Accepted(cs))
  }

  lemma DecodedFold(cs: seq<Claims>, name: string)
    requires AllClaimsDecoded(cs)
    ensures Fold(ContributionsOf(cs, name)).Panicked? <==> ProductPanics(ContributionsOf(cs, name))
    ensures Fold(ContributionsOf(cs, name)).Done? ==> Fold(ContributionsOf(cs, name)).value.pins == map[]
  {
    ContributionsDecoded(cs, name);
    DecodedPanicsIff(ContributionsOf(cs, name));
    if Fold(ContributionsOf(cs, name)).Done? {
      DecodedHasNoPins(ContributionsOf(cs, name));
    }
  }

  ghost predicate SomeProductPanics(cs: seq<Claims>, filter: Option<set<string>>) {
    exists name :: name in Names(cs, filter) && ProductPanics(ContributionsOf(cs, name))
  }

  lemma DecodedResponse(cs: seq<Claims>, filter: Option<set<string>>)
    requires AllClaimsDecoded(cs)
    ensures Respond(cs, filter).Panicked? <==> SomeProductPanics(cs, filter)
    ensures var r := Respond(cs, filter); r.Done? ==> forall name :: name in r.value ==> r.value[name].pins == map[]
  {
    if name :| name in Names(cs, filter) && ProductPanics(ContributionsOf(cs, name)) {
      DecodedFold(cs, name);
    } else {
      forall name | name in Names(cs, filter)
        ensures Fold(ContributionsOf(cs, name)).Done? && Fold(ContributionsOf(cs, name)).value.pins == map[]
      {
        DecodedFold(cs, name);
      }
    }
  }

  /** Exactly when a request on scanned licences panics: some wanted product is a JSON null, or
      two licences in a row that carry no exclusive list give a claim lists of which one holds a
      list or an object. Otherwise no product of the response has a pinned claim. */
  lemma ScannedResponse(files: seq<File>, keys: Keys, now: int, filter: Option<set<string>>)
    requires forall f, k :: f in files && f.content.Signed? && k in f.content.token.claimsUnder ==>
               DecodedClaims(f.content.token.claimsUnder[k])
    ensures var cs := Deduplicated(ClaimsIn(files, keys, now));
            var r := Respond(cs, filter);
            && (r.Panicked? <==> SomeProductPanics(cs, filter))
            && (r.Done? ==> forall name :: name in r.value ==> r.value[name].pins == map[])
  {
    ScannedIsDecoded(files, keys, now);
    DecodedResponse(Deduplicated(ClaimsIn(files, keys, now)), filter);
  }

  lemma DecodedHasNoPins(cs: seq<Contribution>)
    requires AllDecoded(cs) && Fold(cs).Done?
    ensures Fold(cs).value.pins == map[]
  {
    FoldIsSummary(cs);
    forall k
      ensures FirstPin(Accepted(cs), k).None?
    {
      DecodedNeverPins(cs, k);
    }
  }
}
