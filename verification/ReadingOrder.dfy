/** Exactly when the order in which licence files are read does not matter. */
module ReadingOrder {
  import opened License
  import opened LicenseSet

  ghost predicate Rearranged(a: seq<Claims>, b: seq<Claims>) {
    multiset(a) == multiset(b)
  }

  /** A strictly newer licence has the same file id. */
  ghost predicate Outdated(cs: seq<Claims>, c: Claims) {
    c.fileId != "" && exists d :: d in cs && d.fileId == c.fileId && d.iat > c.iat
  }

  /** Different licences with one issue time: at least one of them is outdated. */
  ghost predicate TiesResolved(cs: seq<Claims>) {
    forall c, d :: c in cs && d in cs && c != d && c.iat == d.iat ==> Outdated(cs, c) || Outdated(cs, d)
  }

  ghost predicate OrderFree(cs: seq<Claims>) {
    forall b :: Rearranged(cs, b) ==> Deduplicated(b) == Deduplicated(cs)
  }

  lemma MembersRearranged(a: seq<Claims>, b: seq<Claims>, c: Claims)
    requires Rearranged(a, b)
    ensures c in a <==> c in b
    ensures Outdated(a, c) <==> Outdated(b, c)
  {
    forall d
      ensures d in a <==> d in b
    {
      assert d in multiset(a) <==> d in multiset(b);
    }
  }

  // ---------- How often a licence is active ----------

  lemma {:induction false} SortedIsRearranged(cs: seq<Claims>)
    ensures Rearranged(cs, Pick(cs, StableOrder(cs)))
  {
    if cs != [] {
      var n := |cs| - 1;
      var older := StableOrder(cs[..n]);
      SortedIsRearranged(cs[..n]);
      assert cs == cs[..n] + [cs[n]];
      var a, b := PickInserted(cs, older, Rank(cs, older, cs[n].iat));
    }
  }

  /** Deduplication keeps all licences without a file id. */
  lemma {:induction false} KeptWithoutFileId(cs: seq<Claims>, order: seq<nat>, c: Claims)
    requires Indices(cs, order) && c.fileId == ""
    ensures multiset(Pick(cs, Kept(cs, order)))[c] == multiset(Pick(cs, order))[c]
  {
    if order != [] {
      var newer, i := order[..|order| - 1], order[|order| - 1];
      KeptWithoutFileId(cs, newer, c);
      assert order == newer + [i];
      PickConcat(cs, newer, [i]);
      PickConcat(cs, [i], Kept(cs, newer));
      assert Pick(cs, [i]) == [cs[i]];
    }
  }

  lemma CountsOnce(s: seq<Claims>, k: nat)
    requires k < |s| && forall l :: 0 <= l < |s| && s[l] == s[k] ==> l == k
    ensures multiset(s)[s[k]] == 1
  {
    assert s == s[..k] + [s[k]] + s[k + 1..];
  }

  lemma ActiveIsNotOutdated(cs: seq<Claims>, c: Claims)
    requires c in Deduplicated(cs)
    ensures c in cs && !Outdated(cs, c)
  {
    DeduplicatedMeaning(cs);
    var kept := Kept(cs, StableOrder(cs));
    var k :| 0 <= k < |kept| && Deduplicated(cs)[k] == c;
    assert kept[k] in kept;
    forall d | c.fileId != "" && d in cs && d.fileId == c.fileId
      ensures d.iat <= c.iat
    {
      var j :| 0 <= j < |cs| && cs[j] == d;
      WinnerIsNewestOf(cs, kept[k], j);
    }
  }

  lemma WinnerIsNewestOf(cs: seq<Claims>, i: nat, j: nat)
    requires i < |cs| && j < |cs| && Winner(cs, i) && cs[i].fileId == cs[j].fileId != ""
    ensures cs[j].iat <= cs[i].iat
  {
    assert i != j ==> Before(cs, i, j);
  }

  /** With resolved ties, a licence with a file id is active once, unless it is outdated. */
  lemma ActiveOnce(cs: seq<Claims>, c: Claims)
    requires TiesResolved(cs) && c.fileId != ""
    ensures multiset(Deduplicated(cs))[c] == if c in cs && !Outdated(cs, c) then 1 else 0
  {
    var active := Deduplicated(cs);
    if c in active {
      ActiveIsNotOutdated(cs, c);
    }
    if c in cs && !Outdated(cs, c) {
      OneActivePerFileId(cs, c);
      var k :| 0 <= k < |active| && active[k].fileId == c.fileId &&
               forall l :: 0 <= l < |active| && active[l].fileId == c.fileId ==> l == k;
      ActiveIsNotOutdated(cs, active[k]);
      assert active[k] == c;
      CountsOnce(active, k);
    }
  }

  lemma ActiveCount(cs: seq<Claims>, c: Claims)
    requires TiesResolved(cs)
    ensures multiset(Deduplicated(cs))[c] ==
            if c.fileId == "" then multiset(cs)[c] else if c in cs && !Outdated(cs, c) then 1 else 0
  {
    if c.fileId == "" {
      KeptWithoutFileId(cs, StableOrder(cs), c);
      SortedIsRearranged(cs);
    } else {
      ActiveOnce(cs, c);
    }
  }

  // ---------- Resolved ties: one list for all orders ----------

  ghost predicate Sorted(s: seq<Claims>) {
    forall i, j :: 0 <= i < j < |s| ==> s[i].iat <= s[j].iat
  }

  /** Licences of the two lists with one issue time are the same. */
  ghost predicate NoTies(a: seq<Claims>, b: seq<Claims>) {
    forall c, d :: c in a && d in b && c.iat == d.iat ==> c == d
  }

  lemma {:induction false} SortedUnique(a: seq<Claims>, b: seq<Claims>)
    requires Sorted(a) && Sorted(b) && NoTies(a, b) && Rearranged(a, b)
    ensures a == b
  {
    SameLength(a, b);
    if a != [] {
      HeadsAgree(a, b);
      TailsRearranged(a, b);
      TailsSorted(a, b);
      SortedUnique(a[1..], b[1..]);
      assert a == [a[0]] + a[1..] && b == [b[0]] + b[1..];
    }
  }

  lemma SameLength(a: seq<Claims>, b: seq<Claims>)
    requires Rearranged(a, b)
    ensures |a| == |b|
  {
    assert |a| == |multiset(a)| == |b|;
  }

  lemma TailsSorted(a: seq<Claims>, b: seq<Claims>)
    requires a != [] && b != [] && Sorted(a) && Sorted(b) && NoTies(a, b)
    ensures Sorted(a[1..]) && Sorted(b[1..]) && NoTies(a[1..], b[1..])
  {
  }

  lemma HeadsAgree(a: seq<Claims>, b: seq<Claims>)
    requires a != [] && b != [] && Sorted(a) && Sorted(b) && NoTies(a, b) && Rearranged(a, b)
    ensures a[0] == b[0]
  {
    assert a[0] in b by { assert a[0] in multiset(b); }
    assert b[0] in a by { assert b[0] in multiset(a); }
    assert a[0].iat <= b[0].iat <= a[0].iat;
  }

  lemma TailsRearranged(a: seq<Claims>, b: seq<Claims>)
    requires a != [] && b != [] && Rearranged(a, b) && a[0] == b[0]
    ensures Rearranged(a[1..], b[1..])
  {
    assert a == [a[0]] + a[1..] && b == [b[0]] + b[1..];
    assert multiset(a[1..]) == multiset(a) - multiset{a[0]};
    assert multiset(b[1..]) == multiset(b) - multiset{b[0]};
  }

  lemma DeduplicatedSorted(cs: seq<Claims>)
    ensures Sorted(Deduplicated(cs))
  {
    DeduplicatedMeaning(cs);
    var kept := Kept(cs, StableOrder(cs));
    forall i, j | 0 <= i < j < |kept|
      ensures cs[kept[i]].iat <= cs[kept[j]].iat
    {
      assert Before(cs, kept[j], kept[i]);
    }
  }

  lemma ResolvedTiesAreOrderFree(a: seq<Claims>, b: seq<Claims>)
    requires TiesResolved(a) && Rearranged(a, b)
    ensures Deduplicated(b) == Deduplicated(a)
  {
    forall c
      ensures c in a <==> c in b
      ensures Outdated(a, c) <==> Outdated(b, c)
    {
      MembersRearranged(a, b, c);
    }
    assert multiset(Deduplicated(a)) == multiset(Deduplicated(b)) by {
      forall c
        ensures multiset(Deduplicated(a))[c] == multiset(Deduplicated(b))[c]
      {
        ActiveCount(a, c);
        ActiveCount(b, c);
      }
    }
    forall c, d | c in Deduplicated(a) && d in Deduplicated(b) && c.iat == d.iat
      ensures c == d
    {
      ActiveIsNotOutdated(a, c);
      ActiveIsNotOutdated(b, d);
    }
    DeduplicatedSorted(a);
    DeduplicatedSorted(b);
    SortedUnique(Deduplicated(a), Deduplicated(b));
  }

  // ---------- An open tie: the order shows ----------

  /** Of the active licences with its issue time, one that is read first and not outdated
      stands last. */
  lemma ReadFirstStandsLast(cs: seq<Claims>) returns (k: nat)
    requires cs != [] && !Outdated(cs, cs[0])
    ensures var active := Deduplicated(cs);
            k < |active| && active[k] == cs[0] && forall l :: k < l < |active| ==> active[l].iat != cs[0].iat
  {
    DeduplicatedMeaning(cs);
    var kept := Kept(cs, StableOrder(cs));
    assert Winner(cs, 0) by {
      if cs[0].fileId != "" {
        forall j | 0 <= j < |cs| && j != 0 && cs[j].fileId == cs[0].fileId
          ensures Before(cs, 0, j)
        {
          assert cs[j] in cs;
        }
      }
    }
    k :| 0 <= k < |kept| && kept[k] == 0;
    forall l | k < l < |kept|
      ensures cs[kept[l]].iat != cs[0].iat
    {
      assert Before(cs, kept[l], kept[k]);
    }
  }

  /** Only one licence stands last among those with its issue time. */
  lemma LastOfItsTime(active: seq<Claims>, k: nat, l: nat)
    requires k < |active| && l < |active| && active[k].iat == active[l].iat
    requires forall m :: k < m < |active| ==> active[m].iat != active[k].iat
    requires forall m :: l < m < |active| ==> active[m].iat != active[l].iat
    ensures k == l
  {
  }

  lemma OpenTieShows(c: Claims, d: Claims, rest: seq<Claims>)
    requires c != d && c.iat == d.iat
    requires !Outdated([c, d] + rest, c) && !Outdated([d, c] + rest, d)
    ensures Deduplicated([c, d] + rest) != Deduplicated([d, c] + rest)
  {
    var a, b := [c, d] + rest, [d, c] + rest;
    assert a[0] == c && b[0] == d;
    FrontsShow(a, b);
  }

  lemma FrontsShow(a: seq<Claims>, b: seq<Claims>)
    requires a != [] && b != [] && a[0] != b[0] && a[0].iat == b[0].iat
    requires !Outdated(a, a[0]) && !Outdated(b, b[0])
    ensures Deduplicated(a) != Deduplicated(b)
  {
    var k := ReadFirstStandsLast(a);
    var l := ReadFirstStandsLast(b);
    if Deduplicated(a) == Deduplicated(b) {
      LastOfItsTime(Deduplicated(a), k, l);
    }
  }

  lemma MoveToFront(cs: seq<Claims>, c: Claims) returns (rest: seq<Claims>)
    requires c in cs
    ensures Rearranged(cs, [c] + rest)
  {
    var i :| 0 <= i < |cs| && cs[i] == c;
    rest := cs[..i] + cs[i + 1..];
    assert cs == cs[..i] + [c] + cs[i + 1..];
  }

  /** Two licences moved to the front, in either order. */
  lemma MoveBothToFront(cs: seq<Claims>, c: Claims, d: Claims) returns (rest: seq<Claims>)
    requires c in cs && d in cs && c != d
    ensures Rearranged(cs, [c, d] + rest) && Rearranged(cs, [d, c] + rest)
  {
    var others := MoveToFront(cs, c);
    assert d in others by {
      MembersRearranged(cs, [c] + others, d);
    }
    rest := MoveToFront(others, d);
    assert [c, d] + rest == [c] + ([d] + rest) && [d, c] + rest == [d] + ([c] + rest);
    assert multiset([c, d] + rest) == multiset{c} + multiset([d] + rest) == multiset{c} + multiset(others);
  }

  lemma OpenTieIsNotFree(cs: seq<Claims>, c: Claims, d: Claims)
    requires c in cs && d in cs && c != d && c.iat == d.iat && !Outdated(cs, c) && !Outdated(cs, d)
    ensures !OrderFree(cs)
  {
    var rest := MoveBothToFront(cs, c, d);
    var a, b := [c, d] + rest, [d, c] + rest;
    MembersRearranged(cs, a, c);
    MembersRearranged(cs, b, d);
    OpenTieShows(c, d, rest);
    assert Rearranged(cs, a) && Rearranged(cs, b);
  }

  /** All orders of reading have one deduplicated list, exactly if of any two different licences
      with one issue time at least one is outdated. */
  lemma OrderFreeIff(cs: seq<Claims>)
    ensures OrderFree(cs) <==> TiesResolved(cs)
  {
    if TiesResolved(cs) {
      forall b | Rearranged(cs, b)
        ensures Deduplicated(b) == Deduplicated(cs)
      {
        ResolvedTiesAreOrderFree(cs, b);
      }
    } else {
      var c, d :| c in cs && d in cs && c != d && c.iat == d.iat && !Outdated(cs, c) && !Outdated(cs, d);
      OpenTieIsNotFree(cs, c, d);
    }
  }
}
