/** Exactly which decoded licences make the products handler panic. */
module AggregationPanics {
  import opened License
  import opened Aggregation
  import opened AggregationRules

  /** The licence carries a pinned claim, and both values are of one type that Go cannot compare. */
  ghost predicate Uncomparable(e: Entry, u: map<string, Value>, k: string) {
    k != "exclusive" && k in u && k in e.pins &&
    ((u[k].StrList? && e.pins[k].StrList?) || (u[k].List? && e.pins[k].List?) || (u[k].Object? && e.pins[k].Object?))
  }

  /** The licence has another value for a pinned claim. */
  ghost predicate Conflicts(e: Entry, u: map<string, Value>, k: string) {
    k != "exclusive" && k in u && k in e.pins && u[k] != e.pins[k]
  }

  /** Both have a list for the claim, and one of the lists holds a list or an object. */
  ghost predicate Nests(e: Entry, u: map<string, Value>, k: string) {
    k != "exclusive" && k in u && k in e.claims && u[k].List? && e.claims[k].List? &&
    exists v :: v in e.claims[k].elems + u[k].elems && (v.StrList? || v.List? || v.Object?)
  }

  /** Exactly when reading a licence panics, and exactly when it is skipped: an exclusive list of
      another type skips it; otherwise a pin that cannot be compared panics before any conflict
      skips it, and a nested list panics after that. */
  lemma StepOutcome(e: Entry, c: Contribution)
    ensures c.product.None? ==> Step(e, c).Panicked?
    ensures c.product.Some? ==>
              var u := c.product.value.unknown;
              if "exclusive" in u && !u["exclusive"].StrList? then Step(e, c) == Done(e)
              else if exists k :: Uncomparable(e, u, k) then Step(e, c).Panicked?
              else if exists k :: Conflicts(e, u, k) then Step(e, c) == Done(e)
              else Step(e, c).Panicked? <==> exists k :: Nests(e, u, k)
  {
    if c.product.Some? && ExclusiveNames(c.product.value.unknown).Some? {
      var u := c.product.value.unknown;
      forall k
        ensures k in Payload(u) && k in e.pins && ComparePanics(u[k], e.pins[k]) <==> Uncomparable(e, u, k)
        ensures k in Payload(u) && k in e.pins && u[k] != e.pins[k] <==> Conflicts(e, u, k)
      {
      }
      forall k
        ensures k in Payload(u) && k in e.claims && ListMergePanics(e.claims[k], u[k]) <==> Nests(e, u, k)
      {
      }
    }
  }

  /** Two values in a row are lists whose union panics. */
  ghost predicate Clash(vs: seq<Value>) {
    exists n :: ClashAt(vs, n)
  }

  ghost predicate ClashAt(vs: seq<Value>, n: int) {
    0 < n < |vs| && ListMergePanics(vs[n - 1], vs[n])
  }

  lemma ClashGrows(vs: seq<Value>, v: Value)
    requires vs != []
    ensures Clash(vs + [v]) <==> Clash(vs) || ListMergePanics(vs[|vs| - 1], v)
  {
    var ws := vs + [v];
    forall n
      ensures ClashAt(ws, n) <==> ClashAt(vs, n) || (n == |vs| && ListMergePanics(vs[|vs| - 1], v))
    {
    }
    assert ClashAt(ws, |vs|) <==> ListMergePanics(vs[|vs| - 1], v);
  }

  lemma ShortNeverClashes(vs: seq<Value>)
    requires |vs| <= 1
    ensures !Clash(vs)
  {
  }

  /** As long as nothing clashed, the merged value clashes with the next one exactly if the
      newest value does. */
  lemma {:induction false} MergedClashes(vs: seq<Value>, v: Value)
    requires vs != [] && !Clash(vs)
    ensures ListMergePanics(Combined(vs), v) <==> ListMergePanics(vs[|vs| - 1], v)
    ensures SameKind(Combined(vs), vs[|vs| - 1])
    ensures Combined(vs).List? ==> (Flat(Combined(vs)) <==> Flat(vs[|vs| - 1]))
  {
    var n := |vs| - 1;
    if n == 0 {
      assert vs == [vs[0]];
      SingleValue(vs[0]);
    } else {
      assert vs == vs[..n] + [vs[n]];
      ClashGrows(vs[..n], vs[n]);
      MergedClashes(vs[..n], vs[n]);
      CombinedGrows(vs[..n], vs[n]);
      if vs[n].List? && vs[n - 1].List? {
        FlatMerge(Combined(vs[..n]), vs[n]);
      }
    }
    ClashIsElements(Combined(vs), v);
    ClashIsElements(vs[n], v);
  }

  lemma ClashIsElements(have: Value, next: Value)
    ensures ListMergePanics(have, next) <==> have.List? && next.List? && !(Flat(have) && Flat(next))
  {
    if have.List? && next.List? {
      var all := have.elems + next.elems;
      assert forall e :: e in all <==> e in have.elems || e in next.elems;
      assert forall e: Value :: Hashable(e) <==> e.Str? || e.Int64? || e.Float64? || e.Bool? || e.Null?;
    }
  }

  /** The union of two decoded lists panics exactly if one of them holds a list or an object. */
  lemma DecodedListsPanicIff(a: seq<Value>, b: seq<Value>)
    requires Decoded(List(a)) && Decoded(List(b))
    ensures ListMergePanics(List(a), List(b)) <==> exists v :: v in a + b && (v.List? || v.Object?)
  {
    forall v | v in a + b
      ensures !v.StrList?
    {
      assert Decoded(v);
    }
  }

  lemma FlatMerge(have: Value, next: Value)
    requires have.List? && next.List? && !ListMergePanics(have, next)
    ensures Flat(MergeValue(have, next)) && Flat(next)
  {
    ClashIsElements(have, next);
    forall e | e in Missing(next.elems, have.elems)
      ensures Hashable(e)
    {
      MissingElements(next.elems, have.elems, e);
    }
  }

  ghost predicate SomeClash(a: seq<Contribution>) {
    exists k :: Clash(Values(a, k))
  }

  /** Accepting one more licence clashes exactly if the handler's merge of it panics. */
  lemma ClaimClashes(a: seq<Contribution>, c: Contribution, k: string)
    requires c.product.Some? && !Clash(Values(a, k))
    ensures var p := Payload(c.product.value.unknown);
            Clash(Values(a + [c], k)) <==>
            k in p && k in SummaryClaims(a) && ListMergePanics(SummaryClaims(a)[k], p[k])
  {
    var p, vs := Payload(c.product.value.unknown), Values(a, k);
    assert (a + [c])[..|a|] == a;
    ClaimNamesHaveValues(a, k);
    if k !in p {
      assert Values(a + [c], k) == vs;
    } else if vs == [] {
      ShortNeverClashes(Values(a + [c], k));
    } else {
      ClashGrows(vs, p[k]);
      MergedClashes(vs, p[k]);
    }
  }

  lemma MergePanicsIsClash(a: seq<Contribution>, c: Contribution)
    requires c.product.Some? && !SomeClash(a)
    ensures MergePanics(SummaryClaims(a), Payload(c.product.value.unknown)) <==> SomeClash(a + [c])
  {
    var p := Payload(c.product.value.unknown);
    forall k
      ensures Clash(Values(a + [c], k)) <==>
              k in p && k in SummaryClaims(a) && ListMergePanics(SummaryClaims(a)[k], p[k])
    {
      assert !Clash(Values(a, k));
      ClaimClashes(a, c, k);
    }
  }

  ghost predicate NullProduct(cs: seq<Contribution>) {
    exists i :: 0 <= i < |cs| && cs[i].product.None?
  }

  /** One more decoded licence, after licences that did not clash. */
  lemma StepPanicsIff(a: seq<Contribution>, c: Contribution)
    requires c.product.Some? && !SomeClash(a) && SummaryPins(a) == map[]
    requires Accepts(a, c) <==> ExclusiveNames(c.product.value.unknown).Some?
    ensures Step(Summary(a), c).Panicked? <==> Accepts(a, c) && SomeClash(a + [c])
  {
    MergePanicsIsClash(a, c);
  }

  /** Entries `n - 1` and `n` of the values of a claim are lists, and one holds a list or object. */
  ghost predicate NestedAt(vs: seq<Value>, n: int) {
    0 < n < |vs| && vs[n - 1].List? && vs[n].List? &&
    exists v :: v in vs[n - 1].elems + vs[n].elems && (v.List? || v.Object?)
  }

  /** Two licences in a row give a claim lists, of which one holds a list or an object. */
  ghost predicate NestedNeighbours(a: seq<Contribution>) {
    exists k, n :: NestedAt(Values(a, k), n)
  }

  lemma {:induction false} ValuesDecoded(a: seq<Contribution>, k: string)
    requires AllDecoded(a)
    ensures forall i :: 0 <= i < |Values(a, k)| ==> Decoded(Values(a, k)[i])
  {
    if a != [] {
      OlderDecoded(a, |a| - 1);
      ValuesDecoded(a[..|a| - 1], k);
    }
  }

  lemma ClashAtIff(vs: seq<Value>, n: int)
    requires forall i :: 0 <= i < |vs| ==> Decoded(vs[i])
    ensures ClashAt(vs, n) <==> NestedAt(vs, n)
  {
    if 0 < n < |vs| && vs[n - 1].List? && vs[n].List? {
      DecodedListsPanicIff(vs[n - 1].elems, vs[n].elems);
    }
  }

  lemma SomeClashIff(a: seq<Contribution>)
    requires AllDecoded(a)
    ensures SomeClash(a) <==> NestedNeighbours(a)
  {
    forall k, n
      ensures ClashAt(Values(a, k), n) <==> NestedAt(Values(a, k), n)
    {
      ValuesDecoded(a, k);
      ClashAtIff(Values(a, k), n);
    }
    if SomeClash(a) {
      var k :| Clash(Values(a, k));
      var n :| ClashAt(Values(a, k), n);
      assert NestedAt(Values(a, k), n);
    }
    if k, n :| NestedAt(Values(a, k), n) {
      assert ClashAt(Values(a, k), n);
      assert Clash(Values(a, k));
    }
  }

  lemma AcceptedDecoded(cs: seq<Contribution>)
    requires AllDecoded(cs)
    ensures AllDecoded(Accepted(cs))
  {
    DecodedMembers(cs);
    forall i | 0 <= i < |Accepted(cs)|
      ensures Accepted(cs)[i] in cs
    {
      assert Accepted(cs)[i] in Accepted(cs);
    }
  }

  /** Decoded licences make the handler panic exactly if a product is a JSON null, or two
      accepted licences in a row give a claim lists of which one holds a list or an object. */
  lemma DecodedPanicsIff(cs: seq<Contribution>)
    requires AllDecoded(cs)
    ensures Fold(cs).Panicked? <==> NullProduct(cs) || NestedNeighbours(Accepted(cs))
  {
    DecodedClashes(cs);
    AcceptedDecoded(cs);
    SomeClashIff(Accepted(cs));
  }

  lemma {:induction false} DecodedClashes(cs: seq<Contribution>)
    requires AllDecoded(cs)
    ensures Fold(cs).Panicked? <==> NullProduct(cs) || SomeClash(Accepted(cs))
  {
    if cs == [] {
      assert forall k :: Values([], k) == [];
    } else {
      var older, c := cs[..|cs| - 1], cs[|cs| - 1];
      assert cs == older + [c];
      OlderDecoded(cs, |cs| - 1);
      DecodedClashes(older);
      NullProductGrows(older, c);
      if c.product.Some? {
        DecodedAcceptance(cs);
        if SomeClash(Accepted(older)) {
          ClashesStay(Accepted(older), c);
        } else if Fold(older).Done? {
          FoldIsSummary(older);
          StepPanicsIff(Accepted(older), c);
        }
      }
    }
  }

  lemma NullProductGrows(cs: seq<Contribution>, c: Contribution)
    ensures NullProduct(cs + [c]) <==> NullProduct(cs) || c.product.None?
  {
    var longer := cs + [c];
    assert longer[|cs|] == c;
    if i :| 0 <= i < |cs| && cs[i].product.None? {
      assert longer[i].product.None?;
    }
  }

  lemma ClashesStay(a: seq<Contribution>, c: Contribution)
    requires SomeClash(a)
    ensures SomeClash(a + [c])
  {
    var k :| Clash(Values(a, k));
    assert (a + [c])[..|a|] == a;
    var vs, ws := Values(a, k), Values(a + [c], k);
    assert ws == vs || ws == vs + [ws[|vs|]];
    if ws != vs {
      ClashGrows(vs, ws[|vs|]);
    }
  }

  /** The handler's tests on the newest of some decoded licences. */
  lemma DecodedAcceptance(cs: seq<Contribution>)
    requires AllDecoded(cs) && cs != [] && cs[|cs| - 1].product.Some?
    ensures var a, u := Accepted(cs[..|cs| - 1]), cs[|cs| - 1].product.value.unknown;
            && (Accepts(a, cs[|cs| - 1]) <==> ExclusiveNames(u).Some?)
            && SummaryPins(a) == map[]
  {
    var older := cs[..|cs| - 1];
    assert forall i :: 0 <= i < |older| ==> older[i] == cs[i];
    forall k
      ensures FirstPin(Accepted(older), k).None?
    {
      DecodedNeverPins(older, k);
    }
  }
}
