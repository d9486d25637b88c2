/** Two documented rules that the aggregation of decoded licences does not follow: product
    entries with one `lid` replace each other, and exclusive claims. When it agrees with them. */
module DocumentedRules {
  import opened Numbers
  import opened License
  import opened Aggregation
  import opened AggregationRules
  import opened AggregationPanics

  // ---------- Decoded licences: accepted without an exclusive list ----------

  ghost predicate ListsExclusive(c: Contribution) {
    c.product.Some? && EXCLUSIVE_CLAIM in c.product.value.unknown
  }

  /** The entries without an exclusive list. */
  ghost function Open(cs: seq<Contribution>): seq<Contribution> {
    if cs == [] then []
    else
      var c := cs[|cs| - 1];
      Open(cs[..|cs| - 1]) + if c.product.Some? && !ListsExclusive(c) then [c] else []
  }

  lemma {:induction false} DecodedAccepted(cs: seq<Contribution>)
    requires AllDecoded(cs)
    ensures Accepted(cs) == Open(cs)
  {
    if cs != [] {
      var older, c := cs[..|cs| - 1], cs[|cs| - 1];
      assert AllDecoded(older) by {
        assert forall i :: 0 <= i < |older| ==> older[i] == cs[i];
      }
      DecodedAccepted(older);
      if c.product.Some? {
        DecodedAcceptance(cs);
        var u := c.product.value.unknown;
        assert EXCLUSIVE_CLAIM in u ==> Decoded(u[EXCLUSIVE_CLAIM]);
      }
    }
  }

  lemma {:induction false} OpenConcat(a: seq<Contribution>, b: seq<Contribution>)
    ensures Open(a + b) == Open(a) + Open(b)
  {
    if b == [] {
      assert a + b == a;
    } else {
      assert (a + b)[..|a + b| - 1] == a + b[..|b| - 1];
      OpenConcat(a, b[..|b| - 1]);
    }
  }

  // ---------- Replacement by licence id ----------

  /** A later entry has the same (non-empty) licence id. */
  ghost predicate Replaced(c: Contribution, later: seq<Contribution>) {
    c.product.Some? && c.product.value.licenseId != "" &&
    exists i :: 0 <= i < |later| && later[i].product.Some? &&
                later[i].product.value.licenseId == c.product.value.licenseId
  }

  /** Entries without a licence id replace nothing. */
  lemma {:induction false} NoIdsReplaceNothing(cs: seq<Contribution>)
    requires forall i :: 0 <= i < |cs| && cs[i].product.Some? ==> cs[i].product.value.licenseId == ""
    ensures Unreplaced(cs) == cs
  {
    if cs != [] {
      NoIdsReplaceNothing(cs[1..]);
      assert cs == [cs[0]] + cs[1..];
    }
  }

  /** The entries that the documented rule leaves: of those with one licence id the newest. */
  ghost function Unreplaced(cs: seq<Contribution>): seq<Contribution> {
    if cs == [] then []
    else (if Replaced(cs[0], cs[1..]) then [] else [cs[0]]) + Unreplaced(cs[1..])
  }

  ghost predicate ReplacesOnlyExclusive(cs: seq<Contribution>) {
    forall i :: 0 <= i < |cs| && Replaced(cs[i], cs[i + 1..]) ==> ListsExclusive(cs[i])
  }

  lemma ReplacesOnlyExclusiveTail(cs: seq<Contribution>)
    requires cs != []
    ensures ReplacesOnlyExclusive(cs) <==>
            (Replaced(cs[0], cs[1..]) ==> ListsExclusive(cs[0])) && ReplacesOnlyExclusive(cs[1..])
  {
    var tail := cs[1..];
    forall i | 0 <= i < |tail|
      ensures tail[i] == cs[i + 1] && tail[i + 1..] == cs[i + 1 + 1..]
    {
    }
    if ReplacesOnlyExclusive(cs) {
      assert cs[0 + 1..] == tail;
    } else {
      var i :| 0 <= i < |cs| && Replaced(cs[i], cs[i + 1..]) && !ListsExclusive(cs[i]);
      if i > 0 {
        assert tail[i - 1] == cs[i] && tail[i - 1 + 1..] == cs[i + 1..];
      }
    }
  }

  /** The rule drops open entries, unless it replaces only entries that carry an exclusive list. */
  lemma {:induction false} OpenUnreplaced(cs: seq<Contribution>)
    ensures |Open(Unreplaced(cs))| <= |Open(cs)|
    ensures if ReplacesOnlyExclusive(cs) then Open(Unreplaced(cs)) == Open(cs) else |Open(Unreplaced(cs))| < |Open(cs)|
  {
    if cs != [] {
      var tail := cs[1..];
      OpenUnreplaced(tail);
      ReplacesOnlyExclusiveTail(cs);
      assert cs == [cs[0]] + tail;
      OpenConcat([cs[0]], tail);
      OpenConcat([cs[0]], Unreplaced(tail));
      OneOpen(cs[0]);
      assert Replaced(cs[0], tail) ==> Unreplaced(cs) == Unreplaced(tail);
    }
  }

  lemma OneOpen(c: Contribution)
    ensures Open([c]) == if c.product.Some? && !ListsExclusive(c) then [c] else []
  {
    assert [c][..0] == [];
  }

  lemma {:induction false} UnreplacedIn(cs: seq<Contribution>)
    requires AllDecoded(cs)
    ensures AllDecoded(Unreplaced(cs))
  {
    if cs != [] {
      assert forall i :: 0 <= i < |cs[1..]| ==> cs[1..][i] == cs[i + 1];
      UnreplacedIn(cs[1..]);
    }
  }

  lemma {:induction false} NullUnreplaced(cs: seq<Contribution>)
    ensures NullProduct(Unreplaced(cs)) <==> NullProduct(cs)
  {
    if cs != [] {
      NullUnreplaced(cs[1..]);
      assert cs == [cs[0]] + cs[1..];
      NullProductFront(cs[0], cs[1..]);
      NullProductFront(cs[0], Unreplaced(cs[1..]));
      assert [] + Unreplaced(cs[1..]) == Unreplaced(cs[1..]);
    }
  }

  lemma NullProductFront(c: Contribution, cs: seq<Contribution>)
    ensures NullProduct([c] + cs) <==> c.product.None? || NullProduct(cs)
  {
    var all := [c] + cs;
    assert all[0] == c;
    if i :| 0 <= i < |cs| && cs[i].product.None? {
      assert all[i + 1] == cs[i];
    }
  }

  lemma DoneLength(cs: seq<Contribution>)
    requires AllDecoded(cs) && Fold(cs).Done?
    ensures Fold(cs).value == Summary(Open(cs)) && |Fold(cs).value.expiry| == |Open(cs)|
  {
    DecodedAccepted(cs);
    FoldIsSummary(cs);
  }

  lemma SamePanics(cs: seq<Contribution>)
    requires AllDecoded(cs) && ReplacesOnlyExclusive(cs)
    ensures Fold(cs).Panicked? <==> Fold(Unreplaced(cs)).Panicked?
  {
    UnreplacedIn(cs);
    DecodedAccepted(cs);
    DecodedAccepted(Unreplaced(cs));
    OpenUnreplaced(cs);
    NullUnreplaced(cs);
    DecodedPanicsIff(cs);
    DecodedPanicsIff(Unreplaced(cs));
  }

  /** For decoded licences the aggregation agrees with the documented replacement by `lid` exactly
      if all entries it replaces carry an exclusive list, which gets them skipped anyway, or if
      the handler panics with them and without them. */
  lemma ReplacementIff(cs: seq<Contribution>)
    requires AllDecoded(cs)
    ensures Fold(cs) == Fold(Unreplaced(cs)) <==>
            ReplacesOnlyExclusive(cs) || (Fold(cs).Panicked? && Fold(Unreplaced(cs)).Panicked?)
  {
    UnreplacedIn(cs);
    OpenUnreplaced(cs);
    if ReplacesOnlyExclusive(cs) {
      SamePanics(cs);
    }
    if Fold(cs).Done? && Fold(Unreplaced(cs)).Done? {
      DoneLength(cs);
      DoneLength(Unreplaced(cs));
    }
  }

  /** A decoded licence for 5 users. */
  const FIVE := map["max-users" := Float64(5.0)]
  const FIVE_BY_LID := Contribution(Some(Product("lid", FIVE)), None, "", "")

  lemma FiveStep(n: int, e: Entry)
    requires 0 <= n <= 100 && e.pins == map[]
    requires e.claims == (if n == 0 then map[] else map["max-users" := Float64(n as real)])
    ensures var after := Step(e, FIVE_BY_LID);
            after.Done? && after.value.claims == map["max-users" := Float64((n + 5) as real)] && after.value.pins == map[]
  {
    assert Payload(FIVE) == FIVE && EXCLUSIVE_CLAIM !in FIVE;
    Round64Exact(n + 5);
    assert n as real + 5.0 == (n + 5) as real;
    assert MergeClaims(e.claims, FIVE) == map["max-users" := Float64((n + 5) as real)];
    assert AddPins(e.pins, FIVE, {}) == map[];
  }

  /** Two licences with one `lid` and 5 users each: the documented rule gives 5, the code 10. */
  lemma SameLidIsAdded()
    ensures var cs := [FIVE_BY_LID, FIVE_BY_LID];
            && AllDecoded(cs) && Fold(cs).Done? && Fold(Unreplaced(cs)).Done?
            && Fold(cs).value.claims == map["max-users" := Float64(10.0)]
            && Fold(Unreplaced(cs)).value.claims == map["max-users" := Float64(5.0)]
  {
    var c := FIVE_BY_LID;
    var cs := [c, c];
    assert cs[..1] == [c] && [c][..0] == [];
    FiveStep(0, EMPTY_ENTRY);
    assert Fold([c]) == Step(EMPTY_ENTRY, c);
    FiveStep(5, Step(EMPTY_ENTRY, c).value);
    assert cs[1..] == [c] && [c][1..] == [];
    assert Replaced(c, [c]) by {
      assert [c][0].product.value.licenseId == "lid";
    }
    assert Unreplaced([c]) == [c];
    assert Unreplaced(cs) == [c];
  }

  // ---------- Exclusive claims of decoded licences ----------

  predicate AllStrings(vs: seq<Value>) {
    forall i :: 0 <= i < |vs| ==> vs[i].Str?
  }

  /** The entry carries an exclusive list of strings, as JSON decodes it. */
  predicate ListsStrings(c: Contribution) {
    c.product.Some? && var u := c.product.value.unknown;
    EXCLUSIVE_CLAIM in u && u[EXCLUSIVE_CLAIM].List? && AllStrings(u[EXCLUSIVE_CLAIM].elems)
  }

  /** The entry as the documentation reads it: a decoded list of strings is a list of strings. */
  function Documented(c: Contribution): Contribution {
    if !ListsStrings(c) then c
    else
      var p := c.product.value;
      var es := p.unknown[EXCLUSIVE_CLAIM].elems;
      var names := seq(|es|, i requires 0 <= i < |es| => if es[i].Str? then es[i].s else "");
      c.(product := Some(p.(unknown := p.unknown[EXCLUSIVE_CLAIM := StrList(names)])))
  }

  /** Reading an entry as documented changes its exclusive list only, and that only if it is a
      generic list of strings: into the list of the same strings. */
  lemma DocumentedMeaning(c: Contribution, u: map<string, Value>, names: seq<string>)
    requires c.product.Some? && c.product.value.unknown == u
    ensures Documented(c) == c.(product := Documented(c).product) && Documented(c).product.Some?
    ensures Documented(c).product.value.licenseId == c.product.value.licenseId
    ensures "exclusive" !in u || !u["exclusive"].List? || (exists v :: v in u["exclusive"].elems && !v.Str?) ==>
              Documented(c) == c
    ensures "exclusive" in u && u["exclusive"] == List(seq(|names|, i requires 0 <= i < |names| => Str(names[i]))) ==>
              Documented(c).product.value.unknown == u["exclusive" := StrList(names)]
  {
    if "exclusive" in u && u["exclusive"] == List(seq(|names|, i requires 0 <= i < |names| => Str(names[i]))) {
      assert Documented(c).product.value.unknown["exclusive"].strs == names;
    }
  }

  function AllDocumented(cs: seq<Contribution>): seq<Contribution> {
    seq(|cs|, i requires 0 <= i < |cs| => Documented(cs[i]))
  }

  /** The exclusivity rule accepts entry `i`, after the older ones that it accepts. */
  ghost predicate AcceptedAt(cs: seq<Contribution>, i: nat)
    requires i < |cs|
  {
    Accepts(Accepted(cs[..i]), cs[i])
  }

  lemma FirstList(cs: seq<Contribution>, n: nat) returns (i: nat)
    requires n < |cs| && ListsStrings(cs[n])
    ensures i < |cs| && ListsStrings(cs[i]) && forall j :: 0 <= j < i ==> !ListsStrings(cs[j])
  {
    i := 0;
    while !ListsStrings(cs[i])
      decreases n - i
      invariant i <= n && forall j :: 0 <= j < i ==> !ListsStrings(cs[j])
    {
      i := i + 1;
    }
  }

  /** The first decoded list: no claim is pinned before it, so the documented rule accepts its
      entry, while the code skips it. */
  lemma FirstListDiffers(cs: seq<Contribution>, i: nat)
    requires AllDecoded(cs) && i < |cs| && ListsStrings(cs[i]) && forall j :: 0 <= j < i ==> !ListsStrings(cs[j])
    ensures !AcceptedAt(cs, i) && AcceptedAt(AllDocumented(cs), i)
  {
    var older := cs[..i];
    assert AllDocumented(cs)[..i] == older;
    assert AllDecoded(older) by {
      assert forall j :: 0 <= j < |older| ==> older[j] == cs[j];
    }
    forall k
      ensures FirstPin(Accepted(older), k).None?
    {
      DecodedNeverPins(older, k);
    }
  }

  /** For decoded licences the code accepts the same entries as the documented exclusivity rule
      exactly if none of them carries an exclusive list of strings. */
  lemma ExclusivityIff(cs: seq<Contribution>)
    requires AllDecoded(cs)
    ensures (forall i :: 0 <= i < |cs| ==> (AcceptedAt(cs, i) <==> AcceptedAt(AllDocumented(cs), i))) <==>
            (forall i :: 0 <= i < |cs| ==> !ListsStrings(cs[i]))
  {
    if n :| 0 <= n < |cs| && ListsStrings(cs[n]) {
      var i := FirstList(cs, n);
      FirstListDiffers(cs, i);
    } else {
      assert AllDocumented(cs) == cs;
    }
  }

  /** A decoded licence that makes its `multiserver` claim exclusive. */
  const MULTISERVER := map[EXCLUSIVE_CLAIM := List([Str("multiserver")]), "multiserver" := Bool(true)]
  const MULTISERVER_LICENSE := Contribution(Some(Product("", MULTISERVER)), None, "", "")

  /** The documentation activates and pins its claim; the code activates nothing. */
  lemma DecodedListIsSkipped()
    ensures var c := MULTISERVER_LICENSE;
            && AllDecoded([c]) && Fold([c]) == Done(EMPTY_ENTRY)
            && Fold([Documented(c)]).Done?
            && Fold([Documented(c)]).value.claims == map["multiserver" := Bool(true)]
            && Fold([Documented(c)]).value.pins == map["multiserver" := Bool(true)]
  {
    var c := MULTISERVER_LICENSE;
    var d := Documented(c);
    assert [c][..0] == [] && [d][..0] == [];
    assert Decoded(List([Str("multiserver")]));
    var u := d.product.value.unknown;
    assert u[EXCLUSIVE_CLAIM].strs == ["multiserver"];
    assert "multiserver" in NameSet(["multiserver"]) by {
      assert ["multiserver"][0] == "multiserver";
    }
    assert Payload(u) == map["multiserver" := Bool(true)];
    assert MergeClaims(map[], Payload(u)) == map["multiserver" := Bool(true)];
    assert AddPins(map[], Payload(u), NameSet(["multiserver"])) == map["multiserver" := Bool(true)];
  }
}
