/** The licence loader: the folder scan and `sortAndDeduplicate`, with the history it updates
    in place and the hooks it fires. */
module LicensesLoader {
  import opened License
  import opened LicenseSet
  import opened Scan

  /** A call of one of the two hooks of the deduplication loop. */
  datatype Hook = OnActivate(c: Claims) | OnSkip(c: Claims)

  /** The first licence with an id that is not in the history is reported as activated, or as
      skipped when its file id was seen before. */
  ghost function ActivationOf(history: map<string, Claims>, newer: seq<Claims>, c: Claims): seq<Hook> {
    if c.id in history || Occurrences(newer, c.id) > 0 then []
    else if SeenAmong(newer, c.fileId) then [OnSkip(c)]
    else [OnActivate(c)]
  }

  ghost function Activations(history: map<string, Claims>, sorted: seq<Claims>): seq<Hook> {
    if sorted == [] then []
    else
      var newer, c := sorted[..|sorted| - 1], sorted[|sorted| - 1];
      Activations(history, newer) + ActivationOf(history, newer, c)
  }

  function IdOf(h: Hook): string {
    h.c.id
  }

  ghost function CallsFor(calls: seq<Hook>, id: string): nat {
    if calls == [] then 0 else CallsFor(calls[..|calls| - 1], id) + if IdOf(calls[|calls| - 1]) == id then 1 else 0
  }

  lemma CallsConcat(calls: seq<Hook>, more: seq<Hook>, id: string)
    requires |more| <= 1
    ensures CallsFor(calls + more, id) == CallsFor(calls, id) + if more != [] && IdOf(more[0]) == id then 1 else 0
  {
    if more == [] {
      assert calls + more == calls;
    } else {
      assert (calls + more)[..|calls|] == calls;
    }
  }

  lemma CallOfLicense(history: map<string, Claims>, newer: seq<Claims>, c: Claims)
    ensures var call := ActivationOf(history, newer, c);
            |call| <= 1 && (call != [] ==> IdOf(call[0]) == c.id && call[0].c == c) &&
            (call != [] <==> c.id !in history && Occurrences(newer, c.id) == 0)
  {
  }

  /** Unlike `OnNew`, the two hooks of the deduplication loop report every id that was not in
      the history exactly once, however many licences share it, */
  lemma {:induction false} NewIdsAreReportedOnce(history: map<string, Claims>, sorted: seq<Claims>, id: string)
    ensures CallsFor(Activations(history, sorted), id) ==
            if id !in history && Occurrences(sorted, id) > 0 then 1 else 0
  {
    if sorted != [] {
      var newer, c := sorted[..|sorted| - 1], sorted[|sorted| - 1];
      NewIdsAreReportedOnce(history, newer, id);
      CallOfLicense(history, newer, c);
      CallsConcat(Activations(history, newer), ActivationOf(history, newer, c), id);
    }
  }

  /** and for the newest of the licences that share it. */
  lemma {:induction false} NewestIsReported(history: map<string, Claims>, sorted: seq<Claims>, h: Hook)
    requires h in Activations(history, sorted)
    ensures Occurrences(sorted, IdOf(h)) > 0 && h.c == FirstWith(sorted, IdOf(h))
  {
    if sorted != [] {
      var newer, c := sorted[..|sorted| - 1], sorted[|sorted| - 1];
      CallOfLicense(history, newer, c);
      if h in Activations(history, newer) {
        NewestIsReported(history, newer, h);
      } else {
        assert h in ActivationOf(history, newer, c);
      }
    }
  }

  /** `OnSkip` reports a licence exactly if a newer one, earlier in the list, has its file id. */
  lemma {:induction false} SkippedIff(history: map<string, Claims>, sorted: seq<Claims>, h: Hook)
    requires h in Activations(history, sorted)
    ensures exists n :: 0 <= n < |sorted| && sorted[n] == h.c && (forall m :: 0 <= m < n ==> sorted[m].id != h.c.id) &&
                        (h.OnSkip? <==> h.c.fileId != "" && exists m :: 0 <= m < n && sorted[m].fileId == h.c.fileId)
  {
    if sorted != [] {
      var newer, c := sorted[..|sorted| - 1], sorted[|sorted| - 1];
      assert forall m :: 0 <= m < |newer| ==> newer[m] == sorted[m];
      if h in Activations(history, newer) {
        SkippedIff(history, newer, h);
      } else {
        assert h in ActivationOf(history, newer, c);
        OccursIffIn(newer, c.id);
        assert sorted[|newer|] == c;
      }
    }
  }

  /** The claims in the calls of a hook: each id once. */
  ghost predicate OncePerId(calls: seq<Claims>) {
    forall i, j :: 0 <= i < j < |calls| ==> calls[i].id != calls[j].id
  }

  /** What the removal loop has done to the history `was` when the ids `todo` are left. */
  ghost predicate RemovedBut(was: map<string, Claims>, added: map<string, bool>, todo: set<string>,
                             history: map<string, Claims>, removed: seq<Claims>)
  {
    && history == (map id | id in was && (id in added || id in todo) :: was[id])
    && OncePerId(removed)
    && forall c :: c in removed <==> c.id in was && c.id !in added && c.id !in todo && c == was[c.id]
  }

  lemma OneMoreRemoved(was: map<string, Claims>, added: map<string, bool>, todo: set<string>,
                       history: map<string, Claims>, removed: seq<Claims>, id: string)
    requires RemovedBut(was, added, todo, history, removed) && id in todo && todo <= was.Keys
    requires was[id].id == id
    ensures RemovedBut(was, added, todo - {id}, if id in added then history else history - {id},
                       if id in added then removed else removed + [was[id]])
  {
    if id !in added {
      assert was[id] !in removed;
    }
  }

  /** What the deduplication loop has recorded about an id after the licences `s`, starting
      from the history `was`: whether the id is new, the last licence with it, its history. */
  ghost predicate RecordedId(was: map<string, Claims>, s: seq<Claims>, history: map<string, Claims>,
                             added: map<string, bool>, all: map<string, Claims>, id: string)
  {
    var n := Occurrences(s, id);
    && (id in added <==> n > 0)
    && (id in all <==> n > 0)
    && (id in history <==> id in was || n > 0)
    && (n > 0 ==> (added[id] <==> id !in was && n == 1) && all[id] in s && all[id].id == id)
    && (id in was ==> history[id] == was[id])
    && (id !in was && n > 0 ==> history[id] == FirstWith(s, id))
  }

  ghost predicate Recorded(was: map<string, Claims>, s: seq<Claims>, history: map<string, Claims>,
                           added: map<string, bool>, all: map<string, Claims>)
  {
    forall id :: RecordedId(was, s, history, added, all, id)
  }

  lemma RecordedIdGrows(was: map<string, Claims>, s: seq<Claims>, history: map<string, Claims>,
                        added: map<string, bool>, all: map<string, Claims>, c: Claims, id: string)
    requires RecordedId(was, s, history, added, all, id)
    ensures RecordedId(was, s + [c], if c.id in history then history else history[c.id := c],
                       added[c.id := c.id !in history], all[c.id := c], id)
  {
  }

  lemma RecordedGrows(was: map<string, Claims>, s: seq<Claims>, history: map<string, Claims>,
                      added: map<string, bool>, all: map<string, Claims>, c: Claims)
    requires Recorded(was, s, history, added, all)
    ensures Recorded(was, s + [c], if c.id in history then history else history[c.id := c],
                     added[c.id := c.id !in history], all[c.id := c])
    ensures c.id in history <==> c.id in was || Occurrences(s, c.id) > 0
  {
    var t := s + [c];
    var history' := if c.id in history then history else history[c.id := c];
    var added', all' := added[c.id := c.id !in history], all[c.id := c];
    forall id
      ensures RecordedId(was, t, history', added', all', id)
    {
      RecordedIdGrows(was, s, history, added, all, c, id);
    }
    assert RecordedId(was, s, history, added, all, c.id);
  }

  lemma KeptGrows(claims: seq<Claims>, newer: seq<nat>, i: nat)
    requires Indices(claims, newer) && i < |claims|
    ensures Pick(claims, Kept(claims, newer + [i])) ==
            if SeenAmong(Pick(claims, newer), claims[i].fileId) then Pick(claims, Kept(claims, newer))
            else [claims[i]] + Pick(claims, Kept(claims, newer))
  {
    var order := newer + [i];
    assert order[..|newer|] == newer && order[|newer|] == i;
    PickPrepended(claims, Kept(claims, newer), i);
  }

  lemma PickPrepended(claims: seq<Claims>, order: seq<nat>, i: nat)
    requires Indices(claims, order) && i < |claims|
    ensures Indices(claims, [i] + order) && Pick(claims, [i] + order) == [claims[i]] + Pick(claims, order)
  {
  }

  lemma ActivationsGrow(history: map<string, Claims>, s: seq<Claims>, c: Claims)
    ensures Activations(history, s + [c]) == Activations(history, s) + ActivationOf(history, s, c)
  {
  }

  /** The file ids seen so far, as a set. */
  ghost predicate Seen(seen: set<string>, s: seq<Claims>) {
    forall id :: id in seen <==> SeenAmong(s, id)
  }

  lemma SeenGrows(seen: set<string>, s: seq<Claims>, c: Claims)
    requires Seen(seen, s)
    ensures Seen(if c.fileId == "" then seen else seen + {c.fileId}, s + [c])
  {
    var t := s + [c];
    assert t[|s|] == c;
    forall id
      ensures SeenAmong(t, id) <==> SeenAmong(s, id) || (id != "" && id == c.fileId)
    {
      if SeenAmong(s, id) {
        var k :| 0 <= k < |s| && s[k].fileId == id;
        assert t[k].fileId == id;
      }
    }
  }

  lemma PrefixGrows<T>(s: seq<T>, i: nat)
    requires i < |s|
    ensures s[..i + 1] == s[..i] + [s[i]]
  {
  }

  /** What one more licence means for the results of the deduplication loop. */
  lemma NextLicense(claims: seq<Claims>, order: seq<nat>, sorted: seq<Claims>, was: map<string, Claims>, i: nat)
    requires Indices(claims, order) && sorted == Pick(claims, order) && i < |sorted|
    ensures sorted[..i + 1] == sorted[..i] + [sorted[i]]
    ensures Activations(was, sorted[..i + 1]) == Activations(was, sorted[..i]) + ActivationOf(was, sorted[..i], sorted[i])
    ensures Pick(claims, Kept(claims, order[..i + 1])) ==
            if SeenAmong(sorted[..i], sorted[i].fileId) then Pick(claims, Kept(claims, order[..i]))
            else [sorted[i]] + Pick(claims, Kept(claims, order[..i]))
  {
    PrefixGrows(sorted, i);
    PrefixGrows(order, i);
    assert sorted[..i] == Pick(claims, order[..i]);
    KeptGrows(claims, order[..i], order[i]);
    ActivationsGrow(was, sorted[..i], sorted[i]);
  }

  class LicensesLoader {
    var activateHistory: map<string, Claims>

    ghost predicate Valid()
      reads this
    {
      forall id :: id in activateHistory ==> activateHistory[id].id == id
    }

    constructor ()
      ensures Valid() && activateHistory == map[]
    {
      activateHistory := map[];
    }

    /** Takes one licence into the history and the records of this scan. */
    method Record(c: Claims, added: map<string, bool>, all: map<string, Claims>,
                  ghost was: map<string, Claims>, ghost newer: seq<Claims>)
      returns (isNew: bool, added': map<string, bool>, all': map<string, Claims>)
      requires Recorded(was, newer, activateHistory, added, all)
      modifies this
      ensures Recorded(was, newer + [c], activateHistory, added', all')
      ensures isNew <==> !(c.id in was || Occurrences(newer, c.id) > 0)
    {
      RecordedGrows(was, newer, activateHistory, added, all, c);
      all' := all[c.id := c];
      if c.id in activateHistory {
        added' := added[c.id := false];
        isNew := false;
      } else {
        added' := added[c.id := true];
        activateHistory := activateHistory[c.id := c];
        isNew := true;
      }
    }

    /** Keeps or skips one licence by its file id. */
    static method Take(c: Claims, isNew: bool, seen: set<string>, result: seq<Claims>, activations: seq<Hook>,
                       ghost newer: seq<Claims>)
      returns (seen': set<string>, result': seq<Claims>, activations': seq<Hook>)
      requires Seen(seen, newer)
      ensures Seen(seen', newer + [c])
      ensures result' == if SeenAmong(newer, c.fileId) then result else [c] + result
      ensures activations' == activations +
              if !isNew then [] else if SeenAmong(newer, c.fileId) then [OnSkip(c)] else [OnActivate(c)]
    {
      SeenGrows(seen, newer, c);
      seen', result', activations' := seen, result, activations;
      if c.fileId !in seen {
        if c.fileId != "" {
          seen' := seen + {c.fileId};
        }
        result' := [c] + result;
        if isNew {
          activations' := activations + [OnActivate(c)];
        }
      } else {
        if isNew {
          activations' := activations + [OnSkip(c)];
        }
      }
    }

    /** The deduplication loop, over the sorted licences. */
    method Deduplicate(claims: seq<Claims>, ghost order: seq<nat>, sorted: seq<Claims>)
      returns (result: seq<Claims>, activations: seq<Hook>, added: map<string, bool>, all: map<string, Claims>)
      requires Valid() && Indices(claims, order) && sorted == Pick(claims, order)
      modifies this
      ensures result == Pick(claims, Kept(claims, order))
      ensures activations == Activations(old(activateHistory), sorted)
      ensures Recorded(old(activateHistory), sorted, activateHistory, added, all)
    {
      ghost var was := activateHistory;
      result, activations, added, all := [], [], map[], map[];
      var seen: set<string> := {};
      for i := 0 to |sorted|
        invariant result == Pick(claims, Kept(claims, order[..i]))
        invariant activations == Activations(was, sorted[..i])
        invariant Seen(seen, sorted[..i])
        invariant Recorded(was, sorted[..i], activateHistory, added, all)
      {
        var c := sorted[i];
        ghost var newer := sorted[..i];
        NextLicense(claims, order, sorted, was, i);
        var isNew;
        isNew, added, all := Record(c, added, all, was, newer);
        seen, result, activations := Take(c, isNew, seen, result, activations, newer);
      }
      assert sorted[..|sorted|] == sorted && order[..|order|] == order;
    }

    /** Fires `OnRemove` and deletes, in any order, for every known id that the scan lacks. */
    method FireRemoved(added: map<string, bool>) returns (removed: seq<Claims>)
      requires Valid()
      modifies this
      ensures Valid()
      ensures activateHistory == map id | id in old(activateHistory) && id in added :: old(activateHistory)[id]
      ensures forall i, j :: 0 <= i < j < |removed| ==> removed[i].id != removed[j].id
      ensures forall c :: c in removed <==>
        c.id in old(activateHistory) && c.id !in added && c == old(activateHistory)[c.id]
    {
      ghost var was := activateHistory;
      removed := [];
      var todo := activateHistory.Keys;
      while todo != {}
        invariant todo <= was.Keys
        invariant RemovedBut(was, added, todo, activateHistory, removed)
      {
        var id :| id in todo;
        OneMoreRemoved(was, added, todo, activateHistory, removed, id);
        todo := todo - {id};
        if id !in added {
          removed := removed + [activateHistory[id]];
          activateHistory := activateHistory - {id};
        }
      }
    }

    /** Fires `OnNew`, in any order, for the ids that are marked as new. */
    static method FireNew(added: map<string, bool>, all: map<string, Claims>) returns (announced: seq<Claims>)
      requires added.Keys <= all.Keys && forall id :: id in all ==> all[id].id == id
      ensures forall i, j :: 0 <= i < j < |announced| ==> announced[i].id != announced[j].id
      ensures forall c :: c in announced <==> c.id in added && added[c.id] && c == all[c.id]
    {
      announced := [];
      var todo := added.Keys;
      while todo != {}
        invariant todo <= added.Keys
        invariant OncePerId(announced)
        invariant forall c :: c in announced <==> c.id in added && added[c.id] && c.id !in todo && c == all[c.id]
      {
        var id :| id in todo;
        todo := todo - {id};
        if added[id] {
          assert all[id] !in announced;
          announced := announced + [all[id]];
        }
      }
    }

    /** `sortAndDeduplicate`. The calls of the hooks are returned in the order they are made:
        first `activations`, then `OnRemove` for `removed`, then `OnNew` for `announced`. */
    method SortAndDeduplicate(claims: seq<Claims>)
      returns (result: seq<Claims>, activations: seq<Hook>, removed: seq<Claims>, announced: seq<Claims>)
      requires Valid()
      modifies this
      ensures Valid()
      ensures result == Deduplicated(claims)
      ensures activations == Activations(old(activateHistory), Pick(claims, StableOrder(claims)))
      ensures activateHistory == HistoryAfter(old(activateHistory), Pick(claims, StableOrder(claims)))
      ensures forall i, j :: 0 <= i < j < |removed| ==> removed[i].id != removed[j].id
      ensures forall i, j :: 0 <= i < j < |announced| ==> announced[i].id != announced[j].id
      ensures forall c :: c in removed <==>
        Removed(old(activateHistory), claims, c.id) && c == old(activateHistory)[c.id]
      ensures forall c :: c in announced <==> Announced(old(activateHistory), claims, c.id) && c in claims
    {
      ghost var was := activateHistory;
      ghost var order := StableOrder(claims);
      var sorted := SliceStable(claims);
      var added, all;
      result, activations, added, all := Deduplicate(claims, order, sorted);
      ghost var recorded := activateHistory;
      SortKeepsCounts(claims);
      RecordedMeaning(was, claims, sorted, recorded, added, all);
      removed := FireRemoved(added);
      announced := FireNew(added, all);
    }

    /** `ScanFolder` in safe mode: a folder that cannot be read is an error and changes nothing. */
    method ScanFolder(folder: Option<seq<File>>, keys: Keys, now: int)
      returns (result: Option<seq<Claims>>, activations: seq<Hook>, removed: seq<Claims>, announced: seq<Claims>)
      requires Valid()
      modifies this
      ensures Valid()
      ensures folder.None? ==>
                result.None? && activations == [] && removed == announced == [] && activateHistory == old(activateHistory)
      ensures folder.Some? ==>
                var claims := ClaimsIn(folder.value, keys, now);
                && result == Some(Deduplicated(claims))
                && activations == Activations(old(activateHistory), Pick(claims, StableOrder(claims)))
                && activateHistory == HistoryAfter(old(activateHistory), Pick(claims, StableOrder(claims)))
                && OncePerId(removed) && OncePerId(announced)
                && (forall c :: c in removed <==>
                      Removed(old(activateHistory), claims, c.id) && c == old(activateHistory)[c.id])
                && (forall c :: c in announced <==> Announced(old(activateHistory), claims, c.id) && c in claims)
    {
      if folder.None? {
        return None, [], [], [];
      }
      var claims := ReadFiles(folder.value, keys, now);
      var sorted;
      sorted, activations, removed, announced := SortAndDeduplicate(claims);
      result := Some(sorted);
    }
  }

  /** The scan loop over the directory entries. */
  method ReadFiles(files: seq<File>, keys: Keys, now: int) returns (claims: seq<Claims>)
    ensures claims == ClaimsIn(files, keys, now)
  {
    claims := [];
    for i := 0 to |files|
      invariant claims == ClaimsIn(files[..i], keys, now)
    {
      assert files[..i + 1][..i] == files[..i];
      var taken := ReadFile(files[i], keys, now);
      if taken.Some? {
        claims := claims + [taken.value];
      }
    }
    assert files[..|files|] == files;
  }

  /** The library's stable sort, as its documentation specifies it. */
  method SliceStable(claims: seq<Claims>) returns (sorted: seq<Claims>)
    ensures sorted == Pick(claims, StableOrder(claims))
  {
    sorted := Pick(claims, StableOrder(claims));
  }

  lemma {:induction false} OnlyOne(cs: seq<Claims>, c: Claims, d: Claims)
    requires c in cs && d in cs && c.id == d.id && Occurrences(cs, c.id) == 1
    ensures c == d
  {
    var n := |cs| - 1;
    assert cs == cs[..n] + [cs[n]];
    OccursIffIn(cs[..n], c.id);
    if c in cs[..n] && d in cs[..n] {
      OnlyOne(cs[..n], c, d);
    }
  }

  lemma {:induction false} FirstHasId(cs: seq<Claims>, id: string)
    requires Occurrences(cs, id) > 0
    ensures FirstWith(cs, id).id == id
  {
    if Occurrences(cs[..|cs| - 1], id) > 0 {
      FirstHasId(cs[..|cs| - 1], id);
    }
  }

  lemma PickedIn(cs: seq<Claims>, order: seq<nat>, c: Claims)
    requires Indices(cs, order) && c in Pick(cs, order)
    ensures c in cs
  {
  }

  /** `b` is a rearrangement of `a` as far as ids and members go. */
  ghost predicate SameCounts(a: seq<Claims>, b: seq<Claims>) {
    && (forall id :: Occurrences(b, id) == Occurrences(a, id))
    && (forall c :: c in b ==> c in a)
  }

  lemma SortKeepsCounts(claims: seq<Claims>)
    ensures SameCounts(claims, Pick(claims, StableOrder(claims)))
  {
    forall id
      ensures Occurrences(Pick(claims, StableOrder(claims)), id) == Occurrences(claims, id)
    {
      OccurrencesPicked(claims, id);
    }
    forall c | c in Pick(claims, StableOrder(claims))
      ensures c in claims
    {
      PickedIn(claims, StableOrder(claims), c);
    }
  }

  /** What the records of the deduplication loop mean for one id of the scanned claims. */
  lemma RecordedIdMeaning(was: map<string, Claims>, claims: seq<Claims>, sorted: seq<Claims>, history: map<string, Claims>,
                          added: map<string, bool>, all: map<string, Claims>, id: string)
    requires id in was ==> was[id].id == id
    requires SameCounts(claims, sorted) && RecordedId(was, sorted, history, added, all, id)
    ensures id in added <==> id in all
    ensures id in all ==> all[id].id == id && all[id] in claims
    ensures id in history ==> history[id].id == id
    ensures Removed(was, claims, id) <==> id in history && id !in added
    ensures id in was ==> id in history && history[id] == was[id]
    ensures Announced(was, claims, id) <==> id in added && added[id]
    ensures id in HistoryAfter(was, sorted) <==> id in history && id in added
    ensures id in history && id in added ==> HistoryAfter(was, sorted)[id] == history[id]
  {
    OccursIffIn(sorted, id);
    if Occurrences(sorted, id) > 0 {
      FirstHasId(sorted, id);
    }
  }

  lemma RecordedMeaning(was: map<string, Claims>, claims: seq<Claims>, sorted: seq<Claims>, history: map<string, Claims>,
                        added: map<string, bool>, all: map<string, Claims>)
    requires forall id :: id in was ==> was[id].id == id
    requires SameCounts(claims, sorted) && Recorded(was, sorted, history, added, all)
    ensures added.Keys <= all.Keys && forall id :: id in all ==> all[id].id == id
    ensures forall id :: id in history ==> history[id].id == id
    ensures forall id :: Removed(was, claims, id) <==> id in history && id !in added
    ensures forall id :: id in was ==> id in history && history[id] == was[id]
    ensures forall c: Claims :: (c.id in added && added[c.id] && c == all[c.id]) <==>
                                (Announced(was, claims, c.id) && c in claims)
    ensures (map id | id in history && id in added :: history[id]) == HistoryAfter(was, sorted)
  {
    var after := HistoryAfter(was, sorted);
    forall id
      ensures id in added <==> id in all
      ensures id in all ==> all[id].id == id && all[id] in claims
      ensures id in history ==> history[id].id == id
      ensures Removed(was, claims, id) <==> id in history && id !in added
      ensures id in was ==> id in history && history[id] == was[id]
      ensures Announced(was, claims, id) <==> id in added && added[id]
      ensures id in after <==> id in history && id in added
      ensures id in history && id in added ==> after[id] == history[id]
    {
      assert RecordedId(was, sorted, history, added, all, id);
      RecordedIdMeaning(was, claims, sorted, history, added, all, id);
    }
    forall c: Claims | Announced(was, claims, c.id) && c in claims
      ensures c == all[c.id]
    {
      OnlyOne(claims, c, all[c.id]);
    }
  }
}
