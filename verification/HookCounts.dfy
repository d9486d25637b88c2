/** How often the `OnNew` and `OnRemove` hooks fire for an id, over whole runs of scans. */
module HookCounts {
  import opened License
  import opened LicenseSet
  import opened Scan
  import opened ChangeDetection

  /** The history keys before the last scan of a run; they do not depend on the customer. */
  ghost function Known(run: seq<ScanResult>): set<string> {
    Ids(LastScan(run))
  }

  /** Whether the scan `r` fires `OnNew` for `id`, given the ids known before. */
  ghost predicate Announces(known: set<string>, r: ScanResult, id: string) {
    r.Scanned? && id !in known && Occurrences(r.claims, id) == 1
  }

  ghost predicate Removes(known: set<string>, r: ScanResult, id: string) {
    r.Scanned? && id in known && Occurrences(r.claims, id) == 0
  }

  /** The scan brings in the id on two or more licences at once. */
  ghost predicate SharesNew(known: set<string>, r: ScanResult, id: string) {
    r.Scanned? && id !in known && Occurrences(r.claims, id) >= 2
  }

  ghost function NewCount(run: seq<ScanResult>, id: string): nat {
    if run == [] then 0
    else
      var older := run[..|run| - 1];
      NewCount(older, id) + if Announces(Known(older), run[|run| - 1], id) then 1 else 0
  }

  ghost function RemoveCount(run: seq<ScanResult>, id: string): nat {
    if run == [] then 0
    else
      var older := run[..|run| - 1];
      RemoveCount(older, id) + if Removes(Known(older), run[|run| - 1], id) then 1 else 0
  }

  /** These are the hooks the loader fires: its history holds exactly the known ids. */
  lemma HooksOfLoader(sub: string, run: seq<ScanResult>, cs: seq<Claims>, id: string)
    ensures Announces(Known(run), Scanned(cs), id) <==> Announced(After(sub, run).history, cs, id)
    ensures Removes(Known(run), Scanned(cs), id) <==> Removed(After(sub, run).history, cs, id)
  {
    HistoryIsLastScan(sub, run);
  }

  /** Announcements minus removals tell whether the id is known. */
  ghost predicate Balanced(run: seq<ScanResult>, id: string) {
    NewCount(run, id) - RemoveCount(run, id) == if id in Known(run) then 1 else 0
  }

  ghost predicate SharedBefore(run: seq<ScanResult>, n: nat, id: string)
    requires n <= |run|
  {
    exists i :: 0 <= i < n && SharesNew(Known(run[..i]), run[i], id)
  }

  lemma OneMoreScan(run: seq<ScanResult>, n: nat, id: string)
    requires n < |run|
    ensures NewCount(run[..n + 1], id) - RemoveCount(run[..n + 1], id) ==
            NewCount(run[..n], id) - RemoveCount(run[..n], id) +
            (if Announces(Known(run[..n]), run[n], id) then 1 else 0) -
            (if Removes(Known(run[..n]), run[n], id) then 1 else 0)
    ensures id in Known(run[..n + 1]) <==>
            if run[n].Scanned? then Occurrences(run[n].claims, id) > 0 else id in Known(run[..n])
  {
    assert run[..n + 1][..n] == run[..n];
    if run[n].Scanned? {
      OccursIffIn(run[n].claims, id);
    }
  }

  lemma {:induction false} BalancedUntilShared(run: seq<ScanResult>, n: nat, id: string)
    requires n <= |run| && !SharedBefore(run, n, id)
    ensures Balanced(run[..n], id)
  {
    if n > 0 {
      BalancedUntilShared(run, n - 1, id);
      OneMoreScan(run, n - 1, id);
      assert !SharesNew(Known(run[..n - 1]), run[n - 1], id);
    }
  }

  /** The hooks of an id are conserved at every point of a run exactly if no scan of the run
      brings the id in on two or more licences at once. */
  lemma HooksConservedIff(run: seq<ScanResult>, id: string)
    ensures (forall n :: 0 <= n <= |run| ==> Balanced(run[..n], id)) <==> !SharedBefore(run, |run|, id)
  {
    if SharedBefore(run, |run|, id) {
      var i :| 0 <= i < |run| && SharesNew(Known(run[..i]), run[i], id);
      OneMoreScan(run, i, id);
      assert !Balanced(run[..i], id) || !Balanced(run[..i + 1], id);
    } else {
      forall n | 0 <= n <= |run|
        ensures Balanced(run[..n], id)
      {
        BalancedUntilShared(run, n, id);
      }
    }
  }

  // ---------- Fixed files and keys, and a clock that does not go back ----------

  /** Scans of fixed files with fixed keys, at given times or failing. */
  ghost function Ticks(files: seq<File>, keys: Keys, times: seq<Option<int>>): seq<ScanResult> {
    if times == [] then []
    else
      var t := times[|times| - 1];
      Ticks(files, keys, times[..|times| - 1]) + [if t.None? then Failed else Scanned(ClaimsIn(files, keys, t.value))]
  }

  ghost predicate NonDecreasing(times: seq<Option<int>>) {
    forall i, j :: 0 <= i < j < |times| && times[i].Some? && times[j].Some? ==> times[i].value <= times[j].value
  }

  ghost predicate Holds(f: File, keys: Keys, t: int, id: string) {
    Taken(f, keys, t).Some? && Taken(f, keys, t).value.id == id
  }

  /** Two files never yield the same id. */
  ghost predicate Apart(f: File, g: File, keys: Keys) {
    forall t, u, id :: !(Holds(f, keys, t, id) && Holds(g, keys, u, id))
  }

  ghost predicate FilesIdentified(files: seq<File>, keys: Keys) {
    forall i, j :: 0 <= i < j < |files| ==> Apart(files[i], files[j], keys)
  }

  lemma {:induction false} OccursWhenHeld(files: seq<File>, keys: Keys, t: int, id: string)
    requires FilesIdentified(files, keys)
    ensures Occurrences(ClaimsIn(files, keys, t), id) ==
            if exists i :: 0 <= i < |files| && Holds(files[i], keys, t, id) then 1 else 0
  {
    if files != [] {
      var n := |files| - 1;
      var older, f := files[..n], files[n];
      assert FilesIdentified(older, keys);
      OccursWhenHeld(older, keys, t, id);
      var cs := ClaimsIn(older, keys, t);
      var taken := Taken(f, keys, t);
      assert taken.Some? ==> (cs + [taken.value])[..|cs|] == cs;
      assert cs + [] == cs;
      assert Occurrences(ClaimsIn(files, keys, t), id) == Occurrences(cs, id) + if Holds(f, keys, t, id) then 1 else 0;
      if i :| 0 <= i < n && Holds(older[i], keys, t, id) {
        assert Apart(files[i], f, keys) && Holds(files[i], keys, t, id);
      }
    }
  }

  lemma PresentBetween(files: seq<File>, keys: Keys, t0: int, t1: int, t2: int, id: string)
    requires FilesIdentified(files, keys)
    requires t0 <= t1 <= t2 && Occurrences(ClaimsIn(files, keys, t0), id) == 1 && Occurrences(ClaimsIn(files, keys, t2), id) == 1
    ensures Occurrences(ClaimsIn(files, keys, t1), id) == 1
  {
    OccursWhenHeld(files, keys, t0, id);
    OccursWhenHeld(files, keys, t1, id);
    OccursWhenHeld(files, keys, t2, id);
    var i :| 0 <= i < |files| && Holds(files[i], keys, t0, id);
    var j :| 0 <= j < |files| && Holds(files[j], keys, t2, id);
    assert !Apart(files[i], files[j], keys) && !Apart(files[j], files[i], keys);
    assert i == j;
    TakenIsInterval(files[i], keys, t0, t1, t2);
    assert Holds(files[i], keys, t1, id);
  }

  /** The times at which an id is present form an interval, if no two files ever yield one id. */
  lemma PresenceIsInterval(files: seq<File>, keys: Keys, t0: int, t1: int, t2: int, id: string)
    requires forall i, j :: 0 <= i < j < |files| ==>
               forall t, u :: Taken(files[i], keys, t).Some? && Taken(files[j], keys, u).Some? ==>
                                Taken(files[i], keys, t).value.id != Taken(files[j], keys, u).value.id
    requires t0 <= t1 <= t2 && Occurrences(ClaimsIn(files, keys, t0), id) == 1 && Occurrences(ClaimsIn(files, keys, t2), id) == 1
    ensures Occurrences(ClaimsIn(files, keys, t1), id) == 1
  {
    assert FilesIdentified(files, keys);
    PresentBetween(files, keys, t0, t1, t2, id);
  }

  ghost predicate PresentAt(files: seq<File>, keys: Keys, times: seq<Option<int>>, i: nat, id: string)
    requires i < |times|
  {
    times[i].Some? && Occurrences(ClaimsIn(files, keys, times[i].value), id) == 1
  }

  ghost predicate WasPresent(files: seq<File>, keys: Keys, times: seq<Option<int>>, id: string) {
    exists i :: 0 <= i < |times| && PresentAt(files, keys, times, i, id)
  }

  ghost predicate WasDropped(files: seq<File>, keys: Keys, times: seq<Option<int>>, id: string) {
    exists i, j :: 0 <= i < j < |times| && PresentAt(files, keys, times, i, id) &&
                   times[j].Some? && !PresentAt(files, keys, times, j, id)
  }

  /** How far the life of an id has come: not yet present, present, or gone for good. */
  ghost predicate Phase(files: seq<File>, keys: Keys, times: seq<Option<int>>, id: string) {
    var run := Ticks(files, keys, times);
    var n, r := NewCount(run, id), RemoveCount(run, id);
    || (n == 0 && r == 0 && id !in Known(run))
    || (n == 1 && r == 0 && id in Known(run) && WasPresent(files, keys, times, id))
    || (n == 1 && r == 1 && id !in Known(run) && WasDropped(files, keys, times, id))
  }

  lemma PresentOrAbsent(files: seq<File>, keys: Keys, t: int, id: string)
    requires FilesIdentified(files, keys)
    ensures Occurrences(ClaimsIn(files, keys, t), id) <= 1
  {
    OccursWhenHeld(files, keys, t, id);
  }

  /** What one more scan adds to the counts. */
  lemma OneMoreTick(files: seq<File>, keys: Keys, older: seq<Option<int>>, t: Option<int>, id: string)
    requires FilesIdentified(files, keys)
    ensures var run, longer := Ticks(files, keys, older), Ticks(files, keys, older + [t]);
            var present := t.Some? && Occurrences(ClaimsIn(files, keys, t.value), id) == 1;
            && NewCount(longer, id) == NewCount(run, id) + (if present && id !in Known(run) then 1 else 0)
            && RemoveCount(longer, id) == RemoveCount(run, id) + (if t.Some? && !present && id in Known(run) then 1 else 0)
            && (id in Known(longer) <==> if t.Some? then present else id in Known(run))
  {
    var run, longer := Ticks(files, keys, older), Ticks(files, keys, older + [t]);
    assert (older + [t])[..|older|] == older;
    assert longer[..|run|] == run;
    if t.Some? {
      PresentOrAbsent(files, keys, t.value, id);
      OccursIffIn(ClaimsIn(files, keys, t.value), id);
    }
  }

  lemma PresenceGrows(files: seq<File>, keys: Keys, older: seq<Option<int>>, t: Option<int>, id: string)
    ensures var times := older + [t];
            var present := PresentAt(files, keys, times, |older|, id);
            && (WasPresent(files, keys, older, id) || present ==> WasPresent(files, keys, times, id))
            && (WasDropped(files, keys, older, id) ==> WasDropped(files, keys, times, id))
            && (WasPresent(files, keys, older, id) && t.Some? && !present ==> WasDropped(files, keys, times, id))
  {
    var times := older + [t];
    assert forall i :: 0 <= i < |older| ==>
        (PresentAt(files, keys, times, i, id) <==> PresentAt(files, keys, older, i, id));
    if WasPresent(files, keys, older, id) {
      var i :| 0 <= i < |older| && PresentAt(files, keys, older, i, id);
      assert PresentAt(files, keys, times, i, id);
    }
    if WasDropped(files, keys, older, id) {
      var i, j :| 0 <= i < j < |older| && PresentAt(files, keys, older, i, id) &&
                  older[j].Some? && !PresentAt(files, keys, older, j, id);
      assert PresentAt(files, keys, times, i, id) && !PresentAt(files, keys, times, j, id);
    }
  }

  /** An id that was present and then absent never comes back. */
  lemma DroppedForGood(files: seq<File>, keys: Keys, older: seq<Option<int>>, t: Option<int>, id: string)
    requires FilesIdentified(files, keys) && NonDecreasing(older + [t])
    requires WasDropped(files, keys, older, id)
    ensures !PresentAt(files, keys, older + [t], |older|, id)
  {
    var times := older + [t];
    var i, j :| 0 <= i < j < |older| && PresentAt(files, keys, older, i, id) &&
                older[j].Some? && !PresentAt(files, keys, older, j, id);
    assert times[i] == older[i] && times[j] == older[j] && times[|older|] == t;
    if PresentAt(files, keys, times, |older|, id) {
      PresentBetween(files, keys, older[i].value, older[j].value, t.value, id);
    }
  }

  lemma {:induction false} LifeOfId(files: seq<File>, keys: Keys, times: seq<Option<int>>, id: string)
    requires FilesIdentified(files, keys) && NonDecreasing(times)
    ensures Phase(files, keys, times, id)
  {
    if times == [] {
      NoIdsNoClaims([]);
    } else {
      var n := |times| - 1;
      var older, t := times[..n], times[n];
      assert times == older + [t];
      LifeOfId(files, keys, older, id);
      OneMoreTick(files, keys, older, t, id);
      PresenceGrows(files, keys, older, t, id);
      if WasDropped(files, keys, older, id) {
        DroppedForGood(files, keys, older, t, id);
      }
    }
  }

  /** With fixed files and keys and a clock that does not go back, no id is announced twice or
      removed twice. */
  lemma AnnouncedAtMostOnce(files: seq<File>, keys: Keys, times: seq<Option<int>>, id: string)
    requires forall i, j :: 0 <= i < j < |files| ==>
               forall t, u :: Taken(files[i], keys, t).Some? && Taken(files[j], keys, u).Some? ==>
                                Taken(files[i], keys, t).value.id != Taken(files[j], keys, u).value.id
    requires forall i, j :: 0 <= i < j < |times| && times[i].Some? && times[j].Some? ==> times[i].value <= times[j].value
    ensures RemoveCount(Ticks(files, keys, times), id) <= NewCount(Ticks(files, keys, times), id) <= 1
  {
    LifeOfId(files, keys, times, id);
  }
}
