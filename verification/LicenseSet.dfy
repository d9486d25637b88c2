/** Which licences of a scan are active, in which order, and what a scan says about the
    licences known so far: the specification of the sorting, deduplication and history diff. */
module LicenseSet {
  import opened License

  // ---------- The stable sort by issue time, newest first ----------

  /** Licence `i` sorts before licence `j`: issued later, or at the same time and read earlier. */
  predicate Before(cs: seq<Claims>, i: nat, j: nat)
    requires i < |cs| && j < |cs|
  {
    cs[i].iat > cs[j].iat || (cs[i].iat == cs[j].iat && i < j)
  }

  ghost predicate Indices(cs: seq<Claims>, order: seq<nat>) {
    forall k :: 0 <= k < |order| ==> order[k] < |cs|
  }

  ghost predicate Ordered(cs: seq<Claims>, order: seq<nat>)
    requires Indices(cs, order)
  {
    forall k, l :: 0 <= k < l < |order| ==> Before(cs, order[k], order[l])
  }

  function Pick(cs: seq<Claims>, order: seq<nat>): (r: seq<Claims>)
    requires forall k :: 0 <= k < |order| ==> order[k] < |cs|
    ensures |r| == |order|
    ensures forall k :: 0 <= k < |r| ==> r[k] == cs[order[k]]
  {
    seq(|order|, k requires 0 <= k < |order| => cs[order[k]])
  }

  /** How many leading positions of `order` were issued at `iat` or later. */
  function Rank(cs: seq<Claims>, order: seq<nat>, iat: int): (r: nat)
    requires forall k :: 0 <= k < |order| ==> order[k] < |cs|
    ensures r <= |order|
    ensures forall k :: 0 <= k < r ==> cs[order[k]].iat >= iat
    ensures r < |order| ==> cs[order[r]].iat < iat
  {
    if order == [] || cs[order[0]].iat < iat then 0 else 1 + Rank(cs, order[1..], iat)
  }

  /** The positions of the licences in sorted order; inserting each licence after those issued
      at the same time keeps the sort stable. */
  function StableOrder(cs: seq<Claims>): (order: seq<nat>)
    ensures |order| == |cs|
    ensures Indices(cs, order)
  {
    if cs == [] then []
    else
      var n := |cs| - 1;
      var older := StableOrder(cs[..n]);
      Inserted(older, n, Rank(cs, older, cs[n].iat))
  }

  function Inserted(s: seq<nat>, n: nat, r: nat): seq<nat>
    requires r <= |s|
  {
    s[..r] + [n] + s[r..]
  }

  /** Inserting the licence read last after those issued no earlier keeps the order. */
  lemma InsertSorts(cs: seq<Claims>, older: seq<nat>)
    requires cs != [] && forall k :: 0 <= k < |older| ==> older[k] < |cs| - 1
    requires Ordered(cs, older)
    ensures Ordered(cs, Inserted(older, |cs| - 1, Rank(cs, older, cs[|cs| - 1].iat)))
  {
  }

  lemma OrderedExtends(cs: seq<Claims>, n: nat, order: seq<nat>)
    requires n <= |cs| && Indices(cs[..n], order) && Ordered(cs[..n], order)
    ensures Ordered(cs, order)
  {
  }

  lemma {:induction false} StableOrderSorts(cs: seq<Claims>)
    ensures Ordered(cs, StableOrder(cs))
  {
    if cs != [] {
      var n := |cs| - 1;
      StableOrderSorts(cs[..n]);
      OrderedExtends(cs, n, StableOrder(cs[..n]));
      InsertSorts(cs, StableOrder(cs[..n]));
    }
  }

  lemma InsertedMembers(s: seq<nat>, n: nat, r: nat, i: nat)
    requires r <= |s|
    ensures i in Inserted(s, n, r) <==> i in s || i == n
  {
  }

  lemma {:induction false} StableOrderMembers(cs: seq<Claims>, i: nat)
    ensures i in StableOrder(cs) <==> i < |cs|
  {
    if cs != [] {
      var n := |cs| - 1;
      var older := StableOrder(cs[..n]);
      StableOrderMembers(cs[..n], i);
      InsertedMembers(older, n, Rank(cs, older, cs[n].iat), i);
    }
  }

  /** A set of positions has one sorted order. */
  lemma {:induction false} OrderedUnique(cs: seq<Claims>, a: seq<nat>, b: seq<nat>)
    requires Indices(cs, a) && Indices(cs, b) && Ordered(cs, a) && Ordered(cs, b)
    requires forall i :: i in a <==> i in b
    ensures a == b
  {
    if a != [] {
      assert a[0] in b;
    }
    if b != [] {
      assert b[0] in a;
    }
    if a != [] {
      assert a[0] == b[0];
      forall i
        ensures i in a[1..] <==> i in b[1..]
      {
        assert a == [a[0]] + a[1..] && b == [b[0]] + b[1..];
        assert forall k :: 1 <= k < |a| ==> Before(cs, a[0], a[k]);
        assert forall k :: 1 <= k < |b| ==> Before(cs, b[0], b[k]);
        assert i in a <==> i in b;
      }
      OrderedUnique(cs, a[1..], b[1..]);
    }
  }

  // ---------- Deduplication by file id, newest first, into an oldest-first list ----------

  /** Whether one of the licences `s` has this (non-empty) file id. */
  predicate SeenAmong(s: seq<Claims>, fileId: string) {
    fileId != "" && exists k :: 0 <= k < |s| && s[k].fileId == fileId
  }

  function Kept(cs: seq<Claims>, order: seq<nat>): (kept: seq<nat>)
    requires forall k :: 0 <= k < |order| ==> order[k] < |cs|
    ensures Indices(cs, kept)
    ensures forall i :: i in kept ==> i in order
  {
    if order == [] then []
    else
      var newer, i := order[..|order| - 1], order[|order| - 1];
      if SeenAmong(Pick(cs, newer), cs[i].fileId) then Kept(cs, newer) else [i] + Kept(cs, newer)
  }

  /** The active licences of a scan, oldest first. */
  function Deduplicated(cs: seq<Claims>): seq<Claims> {
    Pick(cs, Kept(cs, StableOrder(cs)))
  }

  /** The licence that stands for its file id: the newest one with that id, on a tie the one
      read first. Licences without a file id all stand for themselves. */
  ghost predicate Winner(cs: seq<Claims>, i: nat)
    requires i < |cs|
  {
    cs[i].fileId == "" ||
    forall j :: 0 <= j < |cs| && j != i && cs[j].fileId == cs[i].fileId ==> Before(cs, i, j)
  }

  ghost predicate OldestFirst(cs: seq<Claims>, kept: seq<nat>)
    requires Indices(cs, kept)
  {
    forall k, l :: 0 <= k < l < |kept| ==> Before(cs, kept[l], kept[k])
  }

  ghost predicate FirstWithFileId(cs: seq<Claims>, order: seq<nat>, i: nat)
    requires Indices(cs, order) && i < |cs|
  {
    forall j :: j in order && j != i && cs[j].fileId == cs[i].fileId ==> Before(cs, i, j)
  }

  /** Newest-first, the first licence with a file id is kept and all later ones are dropped. */
  lemma {:induction false} KeptMember(cs: seq<Claims>, order: seq<nat>, i: nat)
    requires Indices(cs, order) && Ordered(cs, order) && i < |cs|
    ensures i in Kept(cs, order) <==> i in order && (cs[i].fileId == "" || FirstWithFileId(cs, order, i))
  {
    if order != [] {
      var newer, last := order[..|order| - 1], order[|order| - 1];
      KeptMember(cs, newer, i);
      assert order == newer + [last];
      LastIsAfter(cs, newer, last);
      if i == last {
        SeenMember(cs, newer, cs[i].fileId);
        LastIsFirstIff(cs, newer, i);
      } else {
        FirstStaysFirst(cs, newer, last, i);
      }
    }
  }

  lemma LastIsFirstIff(cs: seq<Claims>, newer: seq<nat>, i: nat)
    requires Indices(cs, newer) && i < |cs| && forall j :: j in newer ==> j < |cs| && Before(cs, j, i)
    ensures Indices(cs, newer + [i]) && i !in newer
    ensures FirstWithFileId(cs, newer + [i], i) <==> forall j :: j in newer ==> cs[j].fileId != cs[i].fileId
  {
  }

  lemma FirstStaysFirst(cs: seq<Claims>, newer: seq<nat>, last: nat, i: nat)
    requires Indices(cs, newer) && last < |cs| && i < |cs| && i != last
    requires i in newer ==> Before(cs, i, last)
    ensures Indices(cs, newer + [last]) && (i in newer + [last] <==> i in newer)
    ensures i in newer ==> (FirstWithFileId(cs, newer + [last], i) <==> FirstWithFileId(cs, newer, i))
  {
    if i in newer && FirstWithFileId(cs, newer + [last], i) {
      assert forall j :: j in newer ==> j in newer + [last];
    }
  }

  lemma SeenMember(cs: seq<Claims>, order: seq<nat>, fileId: string)
    requires Indices(cs, order)
    ensures SeenAmong(Pick(cs, order), fileId) <==> fileId != "" && exists j :: j in order && cs[j].fileId == fileId
  {
    if j :| j in order && cs[j].fileId == fileId {
      var k :| 0 <= k < |order| && order[k] == j;
      assert Pick(cs, order)[k].fileId == fileId;
    }
  }

  lemma LastIsAfter(cs: seq<Claims>, newer: seq<nat>, last: nat)
    requires Indices(cs, newer + [last]) && Ordered(cs, newer + [last])
    ensures last < |cs| && forall j :: j in newer ==> j < |cs| && Before(cs, j, last)
  {
    var order := newer + [last];
    assert order[|newer|] == last;
    forall j | j in newer
      ensures j < |cs| && Before(cs, j, last)
    {
      var k :| 0 <= k < |newer| && newer[k] == j;
      assert order[k] == j && Before(cs, order[k], order[|newer|]);
    }
  }

  lemma {:induction false} KeptOrdered(cs: seq<Claims>, order: seq<nat>)
    requires Indices(cs, order) && Ordered(cs, order)
    ensures OldestFirst(cs, Kept(cs, order))
  {
    if order != [] {
      var n := |order| - 1;
      var newer := order[..n];
      KeptOrdered(cs, newer);
      assert order == newer + [order[n]];
      LastIsAfter(cs, newer, order[n]);
      OldestPrepended(cs, order[n], Kept(cs, newer));
    }
  }

  lemma OldestPrepended(cs: seq<Claims>, i: nat, kept: seq<nat>)
    requires i < |cs| && Indices(cs, kept) && OldestFirst(cs, kept)
    requires forall j :: j in kept ==> j < |cs| && Before(cs, j, i)
    ensures OldestFirst(cs, [i] + kept)
  {
    assert forall l :: 0 <= l < |kept| ==> kept[l] in kept;
  }

  /** The deduplicated list is fully determined: exactly the winners, by ascending issue time. */
  lemma DeduplicatedMeaning(cs: seq<Claims>)
    ensures var kept := Kept(cs, StableOrder(cs));
            Deduplicated(cs) == Pick(cs, kept) && OldestFirst(cs, kept) &&
            forall i :: i in kept <==> 0 <= i < |cs| && Winner(cs, i)
  {
    StableOrderSorts(cs);
    KeptOrdered(cs, StableOrder(cs));
    forall i: nat
      ensures i in Kept(cs, StableOrder(cs)) <==> i < |cs| && Winner(cs, i)
    {
      KeptIsWinner(cs, i);
    }
  }

  lemma KeptIsWinner(cs: seq<Claims>, i: nat)
    ensures i in Kept(cs, StableOrder(cs)) <==> i < |cs| && Winner(cs, i)
  {
    StableOrderSorts(cs);
    forall j: nat
      ensures j in StableOrder(cs) <==> j < |cs|
    {
      StableOrderMembers(cs, j);
    }
    KeptOfAll(cs, StableOrder(cs), i);
  }

  lemma KeptOfAll(cs: seq<Claims>, order: seq<nat>, i: nat)
    requires Indices(cs, order) && Ordered(cs, order)
    requires forall j: nat :: j in order <==> j < |cs|
    ensures i in Kept(cs, order) <==> i < |cs| && Winner(cs, i)
  {
    if i < |cs| {
      KeptMember(cs, order, i);
    }
  }

  /** The winner for a file id among the positions from `i` on. */
  lemma {:induction false} WinnerExists(cs: seq<Claims>, i: nat, best: nat) returns (w: nat)
    requires i <= |cs| && best < |cs| && cs[best].fileId != ""
    requires forall j :: 0 <= j < i && j != best && cs[j].fileId == cs[best].fileId ==> Before(cs, best, j)
    decreases |cs| - i
    ensures w < |cs| && cs[w].fileId == cs[best].fileId && Winner(cs, w)
  {
    if i == |cs| {
      w := best;
    } else if i != best && cs[i].fileId == cs[best].fileId && !Before(cs, best, i) {
      w := WinnerExists(cs, i + 1, i);
    } else {
      w := WinnerExists(cs, i + 1, best);
    }
  }

  lemma WinnerUnique(cs: seq<Claims>, i: nat, j: nat)
    requires i < |cs| && j < |cs| && Winner(cs, i) && Winner(cs, j)
    requires cs[i].fileId == cs[j].fileId != ""
    ensures i == j
  {
  }

  lemma KeptOnce(cs: seq<Claims>, kept: seq<nat>, k: nat, l: nat)
    requires Indices(cs, kept) && OldestFirst(cs, kept)
    requires k < |kept| && l < |kept| && kept[k] == kept[l]
    ensures k == l
  {
  }

  /** For every file id exactly one licence is active. */
  lemma OneActivePerFileId(cs: seq<Claims>, c: Claims)
    requires c in cs && c.fileId != ""
    ensures var active := Deduplicated(cs);
            exists k :: 0 <= k < |active| && active[k].fileId == c.fileId &&
                        forall l :: 0 <= l < |active| && active[l].fileId == c.fileId ==> l == k
  {
    DeduplicatedMeaning(cs);
    var kept := Kept(cs, StableOrder(cs));
    var i :| 0 <= i < |cs| && cs[i] == c;
    var w := WinnerExists(cs, 0, i);
    var k :| 0 <= k < |kept| && kept[k] == w;
    forall l | 0 <= l < |kept| && cs[kept[l]].fileId == c.fileId
      ensures l == k
    {
      assert kept[l] in kept;
      WinnerUnique(cs, kept[l], w);
      KeptOnce(cs, kept, l, k);
    }
    assert Deduplicated(cs)[k].fileId == c.fileId;
  }

  /** Any list of positions that meets that description yields the same licences. */
  lemma DeduplicatedUnique(cs: seq<Claims>, kept: seq<nat>)
    requires Indices(cs, kept) && OldestFirst(cs, kept)
    requires forall i :: i in kept <==> 0 <= i < |cs| && Winner(cs, i)
    ensures Pick(cs, kept) == Deduplicated(cs)
  {
    DeduplicatedMeaning(cs);
    var other := Kept(cs, StableOrder(cs));
    OldestFirstUnique(cs, kept, other);
  }

  lemma OldestFirstUnique(cs: seq<Claims>, a: seq<nat>, b: seq<nat>)
    requires Indices(cs, a) && Indices(cs, b) && OldestFirst(cs, a) && OldestFirst(cs, b)
    requires forall i :: i in a <==> i in b
    ensures a == b
  {
    OrderedUnique(cs, Reversed(a), Reversed(b));
    assert |a| == |Reversed(a)| == |b|;
    forall k | 0 <= k < |a|
      ensures a[k] == b[k]
    {
      assert a[k] == Reversed(a)[|a| - 1 - k];
    }
  }

  ghost function Reversed(s: seq<nat>): (r: seq<nat>)
    ensures |r| == |s|
    ensures forall k :: 0 <= k < |s| ==> r[k] == s[|s| - 1 - k]
    ensures forall i :: i in r <==> i in s
  {
    if s == [] then [] else [s[|s| - 1]] + Reversed(s[..|s| - 1])
  }

  // ---------- Directory order does not matter ----------

  ghost predicate DistinctIssueTimes(cs: seq<Claims>) {
    forall i, j :: 0 <= i < j < |cs| ==> cs[i].iat != cs[j].iat
  }

  ghost predicate Ascending(cs: seq<Claims>) {
    forall i, j :: 0 <= i < j < |cs| ==> cs[i].iat < cs[j].iat
  }

  ghost predicate SameMembers(a: seq<Claims>, b: seq<Claims>) {
    forall c :: c in a <==> c in b
  }

  lemma {:induction false} AscendingUnique(a: seq<Claims>, b: seq<Claims>)
    requires Ascending(a) && Ascending(b) && SameMembers(a, b)
    ensures a == b
  {
    if a != [] {
      assert a[0] in b;
    }
    if b != [] {
      assert b[0] in a;
    }
    if a != [] {
      assert a[0] == b[0];
      forall c
        ensures c in a[1..] <==> c in b[1..]
      {
        assert a == [a[0]] + a[1..] && b == [b[0]] + b[1..];
        assert c in a[1..] ==> c.iat > a[0].iat;
        assert c in b[1..] ==> c.iat > b[0].iat;
        assert c in a <==> c in b;
      }
      AscendingUnique(a[1..], b[1..]);
    }
  }

  /** Among licences issued at distinct times, the one that is newer than all others with its
      file id. */
  ghost predicate Newest(cs: seq<Claims>, c: Claims) {
    c in cs && (c.fileId == "" || forall d :: d in cs && d != c && d.fileId == c.fileId ==> c.iat > d.iat)
  }

  lemma WinnerIsNewest(cs: seq<Claims>, i: nat)
    requires DistinctIssueTimes(cs) && i < |cs|
    ensures Winner(cs, i) <==> Newest(cs, cs[i])
  {
  }

  /** The active licences as a set, and their order. */
  lemma DistinctMembers(cs: seq<Claims>)
    requires forall i, j :: 0 <= i < j < |cs| ==> cs[i].iat != cs[j].iat
    ensures var active := Deduplicated(cs); forall i, j :: 0 <= i < j < |active| ==> active[i].iat < active[j].iat
    ensures forall c :: c in Deduplicated(cs) <==>
      c in cs && (c.fileId == "" || forall d :: d in cs && d.fileId == c.fileId && d != c ==> d.iat < c.iat)
  {
    MembersAreNewest(cs);
    assert forall c :: Newest(cs, c) <==>
      c in cs && (c.fileId == "" || forall d :: d in cs && d.fileId == c.fileId && d != c ==> d.iat < c.iat);
  }

  lemma MembersAreNewest(cs: seq<Claims>)
    requires DistinctIssueTimes(cs)
    ensures Ascending(Deduplicated(cs))
    ensures forall c :: c in Deduplicated(cs) <==> Newest(cs, c)
  {
    DeduplicatedMeaning(cs);
    var kept := Kept(cs, StableOrder(cs));
    forall k, l | 0 <= k < l < |kept|
      ensures cs[kept[k]].iat < cs[kept[l]].iat
    {
      assert Before(cs, kept[l], kept[k]);
    }
    forall c
      ensures c in Deduplicated(cs) <==> Newest(cs, c)
    {
      if c in Deduplicated(cs) {
        var k :| 0 <= k < |kept| && cs[kept[k]] == c;
        assert kept[k] in kept;
        WinnerIsNewest(cs, kept[k]);
      }
      if Newest(cs, c) {
        var i :| 0 <= i < |cs| && cs[i] == c;
        WinnerIsNewest(cs, i);
        assert i in kept;
        var k :| 0 <= k < |kept| && kept[k] == i;
        assert Deduplicated(cs)[k] == c;
      }
    }
  }

  /** With distinct issue times, the active licences do not depend on the order in which the
      files are read. */
  lemma ReadingOrderIrrelevant(a: seq<Claims>, b: seq<Claims>)
    requires forall i, j :: 0 <= i < j < |a| ==> a[i].iat != a[j].iat
    requires forall i, j :: 0 <= i < j < |b| ==> b[i].iat != b[j].iat
    requires forall c :: c in a <==> c in b
    ensures Deduplicated(a) == Deduplicated(b)
  {
    MembersAreNewest(a);
    MembersAreNewest(b);
    AscendingUnique(Deduplicated(a), Deduplicated(b));
  }

  // ---------- What a scan says about the licences known so far ----------

  function Ids(cs: seq<Claims>): set<string> {
    set c | c in cs :: c.id
  }

  function Occurrences(cs: seq<Claims>, id: string): nat {
    if cs == [] then 0
    else Occurrences(cs[..|cs| - 1], id) + if cs[|cs| - 1].id == id then 1 else 0
  }

  /** The claims whose id the scan announces as new. */
  ghost predicate Announced(history: map<string, Claims>, cs: seq<Claims>, id: string) {
    id !in history && Occurrences(cs, id) == 1
  }

  ghost predicate Removed(history: map<string, Claims>, cs: seq<Claims>, id: string) {
    id in history && Occurrences(cs, id) == 0
  }

  /** Whether a hook that triggers publication fires. */
  ghost predicate Changed(history: map<string, Claims>, cs: seq<Claims>) {
    exists id :: Announced(history, cs, id) || Removed(history, cs, id)
  }

  /** The first licence with the id in a list. */
  function FirstWith(cs: seq<Claims>, id: string): Claims
    requires Occurrences(cs, id) > 0
  {
    if Occurrences(cs[..|cs| - 1], id) > 0 then FirstWith(cs[..|cs| - 1], id) else cs[|cs| - 1]
  }

  /** The history after a scan: the ids of the scan, known ones with their old claims. */
  function HistoryAfter(history: map<string, Claims>, sorted: seq<Claims>): map<string, Claims> {
    map id | id in Ids(sorted) && (id in history || Occurrences(sorted, id) > 0) ::
      if id in history then history[id] else FirstWith(sorted, id)
  }

  lemma {:induction false} OccursIffIn(cs: seq<Claims>, id: string)
    ensures Occurrences(cs, id) > 0 <==> id in Ids(cs)
    ensures Occurrences(cs, id) > 0 <==> exists i :: 0 <= i < |cs| && cs[i].id == id
  {
    if cs != [] {
      var n := |cs| - 1;
      OccursIffIn(cs[..n], id);
      assert cs == cs[..n] + [cs[n]];
    }
  }

  /** The sort neither adds nor drops occurrences. */
  lemma {:induction false} OccurrencesPicked(cs: seq<Claims>, id: string)
    ensures Occurrences(Pick(cs, StableOrder(cs)), id) == Occurrences(cs, id)
  {
    if cs != [] {
      var n := |cs| - 1;
      OccurrencesPicked(cs[..n], id);
      OccurrencesInserted(cs, StableOrder(cs[..n]), Rank(cs, StableOrder(cs[..n]), cs[n].iat), id);
    }
  }

  lemma OccurrencesInserted(cs: seq<Claims>, older: seq<nat>, r: nat, id: string)
    requires cs != [] && r <= |older| && forall k :: 0 <= k < |older| ==> older[k] < |cs| - 1
    ensures Occurrences(Pick(cs, Inserted(older, |cs| - 1, r)), id) ==
            Occurrences(Pick(cs[..|cs| - 1], older), id) + if cs[|cs| - 1].id == id then 1 else 0
  {
    var n := |cs| - 1;
    var a, b := PickInserted(cs, older, r);
    OccurrencesConcat(a, b, id);
    OccurrencesConcat(a + [cs[n]], b, id);
    OccurrencesConcat(a, [cs[n]], id);
    assert [cs[n]][..0] == [];
    assert Occurrences([cs[n]], id) == if cs[n].id == id then 1 else 0;
  }

  /** The licences before and after the place where the last one is inserted. */
  lemma PickInserted(cs: seq<Claims>, older: seq<nat>, r: nat) returns (a: seq<Claims>, b: seq<Claims>)
    requires cs != [] && r <= |older| && forall k :: 0 <= k < |older| ==> older[k] < |cs| - 1
    ensures Pick(cs[..|cs| - 1], older) == a + b
    ensures Indices(cs, Inserted(older, |cs| - 1, r))
    ensures Pick(cs, Inserted(older, |cs| - 1, r)) == a + [cs[|cs| - 1]] + b
  {
    var n := |cs| - 1;
    a, b := Pick(cs, older[..r]), Pick(cs, older[r..]);
    PickConcat(cs, older[..r], older[r..]);
    assert older[..r] + older[r..] == older;
    PickConcat(cs, older[..r] + [n], older[r..]);
    PickConcat(cs, older[..r], [n]);
    assert Pick(cs, [n]) == [cs[n]];
    assert Pick(cs[..n], older) == Pick(cs, older);
  }

  lemma PickConcat(cs: seq<Claims>, a: seq<nat>, b: seq<nat>)
    requires Indices(cs, a) && Indices(cs, b)
    ensures Pick(cs, a + b) == Pick(cs, a) + Pick(cs, b)
  {
  }

  lemma {:induction false} OccurrencesConcat(a: seq<Claims>, b: seq<Claims>, id: string)
    ensures Occurrences(a + b, id) == Occurrences(a, id) + Occurrences(b, id)
  {
    if b == [] {
      assert a + b == a;
    } else {
      var n := |b| - 1;
      assert (a + b)[..|a + b| - 1] == a + b[..n];
      OccurrencesConcat(a, b[..n], id);
    }
  }

  ghost predicate DistinctIds(cs: seq<Claims>) {
    forall id :: Occurrences(cs, id) <= 1
  }

  /** The family of scans whose change goes unnoticed: ids only came in, and each new id is on
      two or more licences. */
  ghost predicate MissedChange(known: set<string>, cs: seq<Claims>) {
    known < Ids(cs) && forall id :: id in Ids(cs) - known ==> Occurrences(cs, id) >= 2
  }

  /** The hooks notice exactly the changes of the id set, except for the missed family. */
  lemma ChangeIsNoticedIff(history: map<string, Claims>, cs: seq<Claims>)
    ensures (Changed(history, cs) <==> Ids(cs) != history.Keys) <==> !MissedChange(history.Keys, cs)
    ensures DistinctIds(cs) ==> !MissedChange(history.Keys, cs)
  {
    forall id
      ensures Occurrences(cs, id) > 0 <==> id in Ids(cs)
    {
      OccursIffIn(cs, id);
    }
    if Changed(history, cs) {
      var id :| Announced(history, cs, id) || Removed(history, cs, id);
      assert (id in Ids(cs)) != (id in history.Keys);
    } else if Ids(cs) != history.Keys {
      assert forall id :: id in history.Keys ==> !Removed(history, cs, id);
      assert forall id :: id in Ids(cs) - history.Keys ==> !Announced(history, cs, id);
    }
    if MissedChange(history.Keys, cs) {
      var id :| id in Ids(cs) - history.Keys;
    }
  }

  /** Two files that share a new id: the scan adds a licence, and no hook reports it. */
  lemma SharedIdGoesUnnoticed(c: Claims, d: Claims)
    requires c.id == d.id
    ensures !Changed(map[], [c, d]) && Ids([c, d]) == {c.id}
  {
    assert [c, d][..1] == [c] && [c][..0] == [];
    forall id
      ensures Occurrences([c, d], id) == if id == c.id then 2 else 0
    {
      assert Occurrences([c], id) == if id == c.id then 1 else 0;
    }
    assert c in [c, d];
  }
}
