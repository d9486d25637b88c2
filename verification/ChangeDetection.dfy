/** The loader's publication cache over whole runs of scans: which licences the server serves,
    and which hooks fire. */
module ChangeDetection {
  import opened License
  import opened LicenseSet

  /** The outcome of reading the licence folder: an error (or no folder configured), or the
      claims of the files that were taken. */
  datatype ScanResult = Failed | Scanned(claims: seq<Claims>)

  /** What the loader remembers between scans, and what the server serves. */
  datatype LoaderState = LoaderState(
    history: map<string, Claims>,
    lastSub: string,
    first: bool,
    published: seq<Claims>,
    publications: nat)

  const INITIAL := LoaderState(map[], "", true, [], 0)

  /** The configured customer id, as a claim set at the head of the list. */
  function ConfiguredClaims(sub: string): seq<Claims> {
    if sub == "" then [] else [Claims("", "", sub, 0, None, None, "", "", map[])]
  }

  /** Without a configured customer there is no such claim set; otherwise one, which names the
      customer and has no product, no id and no bounds in time. */
  lemma ConfiguredCustomer(sub: string)
    ensures sub == "" ==> ConfiguredClaims(sub) == []
    ensures sub != "" ==>
              |ConfiguredClaims(sub)| == 1 &&
              var c := ConfiguredClaims(sub)[0];
              && c.subject == sub && c.products == map[] && c.id == c.fileId == c.displayName == c.supportId == ""
              && c.nbf == c.exp == None && c.iat == 0
  {
  }

  function HeadSub(cs: seq<Claims>): string {
    if cs == [] then "" else cs[0].subject
  }

  function Found(r: ScanResult): seq<Claims> {
    if r.Failed? then [] else Deduplicated(r.claims)
  }

  ghost function HistoryAfterResult(history: map<string, Claims>, r: ScanResult): map<string, Claims> {
    if r.Failed? then history else HistoryAfter(history, Pick(r.claims, StableOrder(r.claims)))
  }

  ghost predicate Noticed(history: map<string, Claims>, r: ScanResult) {
    r.Scanned? && Changed(history, r.claims)
  }

  /** How a run of the loader closure ends: it returns early unless it is the first, the
      customer at the head of the list changed, or a hook reported a change. */
  function Conclude(st: LoaderState, history: map<string, Claims>, claims: seq<Claims>, changed: bool): LoaderState {
    if !st.first && HeadSub(claims) == st.lastSub && !changed then st.(history := history)
    else LoaderState(history, HeadSub(claims), false, claims, st.publications + 1)
  }

  /** One run of the loader closure. */
  ghost function AfterScan(sub: string, st: LoaderState, r: ScanResult): LoaderState {
    Conclude(st, HistoryAfterResult(st.history, r), ConfiguredClaims(sub) + Found(r), Noticed(st.history, r))
  }

  ghost function After(sub: string, run: seq<ScanResult>): LoaderState {
    if run == [] then INITIAL else AfterScan(sub, After(sub, run[..|run| - 1]), run[|run| - 1])
  }

  lemma AfterOneMore(sub: string, run: seq<ScanResult>, r: ScanResult)
    ensures After(sub, run + [r]) == AfterScan(sub, After(sub, run), r)
  {
  }

  /** The claims of the last scan that succeeded. */
  ghost function LastScan(run: seq<ScanResult>): seq<Claims> {
    if run == [] then []
    else if run[|run| - 1].Scanned? then run[|run| - 1].claims
    else LastScan(run[..|run| - 1])
  }

  /** What a loader that publishes after every scan serves: the configured customer and what the
      last scan found, which is nothing if it failed. */
  ghost function Unconditional(sub: string, run: seq<ScanResult>): seq<Claims> {
    if run == [] then [] else ConfiguredClaims(sub) + Found(run[|run| - 1])
  }

  /** The same, except that with a configured customer a failed scan does not take back the
      licences of the last success. */
  ghost function Retained(sub: string, run: seq<ScanResult>): seq<Claims> {
    if run == [] then []
    else if run[|run| - 1].Failed? && sub == "" then []
    else ConfiguredClaims(sub) + Deduplicated(LastScan(run))
  }

  ghost predicate NamesCustomers(r: ScanResult) {
    r.Scanned? ==> forall c :: c in r.claims ==> c.subject != ""
  }

  ghost predicate GoodScan(r: ScanResult) {
    NamesCustomers(r) && (r.Scanned? ==> DistinctIds(r.claims))
  }

  /** The assumptions of change detection: no scan has two licences with one id, every licence
      names a customer, and scans with the same ids have the same deduplicated list. */
  ghost predicate Coherent(run: seq<ScanResult>) {
    && (forall i :: 0 <= i < |run| ==> GoodScan(run[i]))
    && (forall i, j :: 0 <= i < |run| && 0 <= j < |run| && run[i].Scanned? && run[j].Scanned? ==>
          SameListIfSameIds(run[i].claims, run[j].claims))
  }

  ghost predicate SameListIfSameIds(a: seq<Claims>, b: seq<Claims>) {
    Ids(a) == Ids(b) ==> Deduplicated(a) == Deduplicated(b)
  }

  // ---------- The history is the id set of the last successful scan ----------

  lemma HistoryKeys(history: map<string, Claims>, cs: seq<Claims>)
    ensures HistoryAfter(history, Pick(cs, StableOrder(cs))).Keys == Ids(cs)
  {
    forall id
      ensures id in HistoryAfter(history, Pick(cs, StableOrder(cs))) <==> id in Ids(cs)
    {
      OccurrencesPicked(cs, id);
      OccursIffIn(cs, id);
      OccursIffIn(Pick(cs, StableOrder(cs)), id);
    }
  }

  lemma {:induction false} HistoryIsLastScan(sub: string, run: seq<ScanResult>)
    ensures After(sub, run).history.Keys == Ids(LastScan(run))
    ensures After(sub, run).first <==> run == []
    ensures After(sub, run).lastSub == HeadSub(After(sub, run).published)
  {
    if run != [] {
      HistoryIsLastScan(sub, run[..|run| - 1]);
      var r := run[|run| - 1];
      if r.Scanned? {
        HistoryKeys(After(sub, run[..|run| - 1]).history, r.claims);
      }
    }
  }

  // ---------- The cache over coherent runs ----------

  lemma NoIdsNoClaims(cs: seq<Claims>)
    ensures Ids(cs) == {} <==> cs == []
  {
    if cs != [] {
      assert cs[0].id in Ids(cs);
    }
  }

  /** A served list without the configured customer that has no head customer is empty. */
  lemma NoHeadNoClaims(cs: seq<Claims>)
    requires forall c :: c in cs ==> c.subject != ""
    ensures HeadSub(Deduplicated(cs)) == "" <==> Deduplicated(cs) == []
  {
  }

  lemma {:induction false} LastScanOfRun(run: seq<ScanResult>)
    ensures LastScan(run) == [] || exists i :: 0 <= i < |run| && run[i] == Scanned(LastScan(run))
  {
    if run != [] && run[|run| - 1].Failed? {
      var older := run[..|run| - 1];
      LastScanOfRun(older);
      if i :| 0 <= i < |older| && older[i] == Scanned(LastScan(run)) {
        assert run[i] == Scanned(LastScan(run));
      }
    }
  }

  /** Scans with the same ids as the last success have its deduplicated list. */
  lemma SameIdsSameList(run: seq<ScanResult>, cs: seq<Claims>)
    requires Coherent(run + [Scanned(cs)])
    requires Ids(cs) == Ids(LastScan(run))
    ensures Deduplicated(cs) == Deduplicated(LastScan(run))
  {
    LastScanOfRun(run);
    if LastScan(run) == [] {
      NoIdsNoClaims(cs);
    } else {
      var i :| 0 <= i < |run| && run[i] == Scanned(LastScan(run));
      var longer := run + [Scanned(cs)];
      assert longer[i] == run[i] && longer[|run|] == Scanned(cs);
      assert SameListIfSameIds(longer[|run|].claims, longer[i].claims);
    }
  }

  ghost predicate CustomersNamed(run: seq<ScanResult>) {
    forall i :: 0 <= i < |run| ==> NamesCustomers(run[i])
  }

  lemma NamedLastScan(run: seq<ScanResult>)
    requires CustomersNamed(run)
    ensures forall c :: c in LastScan(run) ==> c.subject != ""
  {
  }

  /** An early return after a successful scan leaves the list of that scan in place. */
  lemma EarlyReturnKeepsList(sub: string, run: seq<ScanResult>, cs: seq<Claims>)
    requires Coherent(run + [Scanned(cs)]) && run != []
    requires After(sub, run).published == Retained(sub, run)
    requires HeadSub(ConfiguredClaims(sub) + Deduplicated(cs)) == After(sub, run).lastSub
    requires !Changed(After(sub, run).history, cs)
    ensures Retained(sub, run) == ConfiguredClaims(sub) + Deduplicated(cs)
  {
    var longer := run + [Scanned(cs)];
    assert GoodScan(longer[|run|]);
    HistoryIsLastScan(sub, run);
    ChangeIsNoticedIff(After(sub, run).history, cs);
    SameIdsSameList(run, cs);
    if run[|run| - 1].Failed? && sub == "" {
      assert ConfiguredClaims(sub) + Deduplicated(cs) == Deduplicated(cs);
      NoHeadNoClaims(cs);
    }
  }

  lemma NothingFound()
    ensures Deduplicated([]) == []
  {
  }

  lemma FailureWithCustomer(sub: string, run: seq<ScanResult>)
    requires sub != "" && After(sub, run).published == Retained(sub, run)
    ensures After(sub, run + [Failed]).published == Retained(sub, run + [Failed])
  {
    assert (run + [Failed])[..|run|] == run;
    HistoryIsLastScan(sub, run);
    NothingFound();
  }

  /** Without a configured customer a failed scan leaves nothing served. */
  lemma FailedStep(st: LoaderState)
    requires st.lastSub == HeadSub(st.published)
    requires HeadSub(st.published) == "" ==> st.published == []
    ensures AfterScan("", st, Failed).published == []
  {
  }

  lemma FailureWithoutCustomer(run: seq<ScanResult>)
    requires CustomersNamed(run)
    requires After("", run).published == Retained("", run)
    ensures After("", run + [Failed]).published == []
  {
    var last := LastScan(run);
    NamedLastScan(run);
    NoHeadNoClaims(last);
    assert ConfiguredClaims("") + Deduplicated(last) == Deduplicated(last);
    assert Retained("", run) == [] || Retained("", run) == Deduplicated(last);
    HistoryIsLastScan("", run);
    AfterOneMore("", run, Failed);
    FailedStep(After("", run));
  }

  /** A failed scan empties the list, or with a configured customer keeps it. */
  lemma FailureRetains(sub: string, run: seq<ScanResult>)
    requires CustomersNamed(run)
    requires After(sub, run).published == Retained(sub, run)
    ensures After(sub, run + [Failed]).published == Retained(sub, run + [Failed])
  {
    if sub == "" {
      FailureWithoutCustomer(run);
    } else {
      FailureWithCustomer(sub, run);
    }
  }

  /** Over every coherent run of successful and failed scans, what is served. */
  lemma {:induction false} ServedIsRetained(sub: string, run: seq<ScanResult>)
    requires Coherent(run)
    ensures After(sub, run).published == Retained(sub, run)
  {
    if run != [] {
      var older, r := run[..|run| - 1], run[|run| - 1];
      assert run == older + [r];
      assert forall i :: 0 <= i < |older| ==> older[i] == run[i];
      ServedIsRetained(sub, older);
      HistoryIsLastScan(sub, older);
      if r.Failed? {
        FailureRetains(sub, older);
      } else if After(sub, run).publications == After(sub, older).publications {
        EarlyReturnKeepsList(sub, older, r.claims);
      }
    }
  }

  /** The cache is transparent over coherent runs, except after a failed scan when a customer is
      configured and the last success found licences: exactly then the served list is not that
      of a loader that always publishes. */
  lemma TransparentIff(sub: string, run: seq<ScanResult>)
    requires Coherent(run) && run != []
    ensures After(sub, run).published == Unconditional(sub, run) <==>
            !(sub != "" && run[|run| - 1].Failed? && Deduplicated(LastScan(run)) != [])
  {
    ServedIsRetained(sub, run);
    NothingFound();
  }

  /** A configured customer, one licence, then an unreadable folder: the licence stays. */
  lemma FailureKeepsLicense(c: Claims)
    requires c.subject != ""
    ensures var run := [Scanned([c]), Failed];
            Coherent(run) && After("customer", run).published == ConfiguredClaims("customer") + [c] != Unconditional("customer", run)
  {
    var run := [Scanned([c]), Failed];
    assert forall id :: Occurrences([c], id) <= 1 by {
      assert [c][..0] == [];
    }
    assert LastScan(run) == [c] by {
      assert run[..1] == [Scanned([c])];
    }
    OneKept(c);
    ServedIsRetained("customer", run);
    TransparentIff("customer", run);
  }

  lemma OneKept(c: Claims)
    ensures Deduplicated([c]) == [c]
  {
    var kept: seq<nat> := [0];
    assert kept[0] in kept && Winner([c], 0);
    DeduplicatedUnique([c], kept);
  }

  /** The promise that matters: after each successful scan the server serves the configured
      customer followed by the deduplicated licences of that scan. */
  lemma ServedAfterSuccess(sub: string, run: seq<ScanResult>, cs: seq<Claims>)
    requires Coherent(run + [Scanned(cs)])
    ensures After(sub, run + [Scanned(cs)]).published == ConfiguredClaims(sub) + Deduplicated(cs)
  {
    ServedIsRetained(sub, run + [Scanned(cs)]);
  }

  /** An id stands for one licence in both. */
  ghost predicate Agree(a: seq<Claims>, b: seq<Claims>) {
    forall c, d :: c in a && d in b && c.id == d.id ==> c == d
  }

  /** Distinct ids and issue times in every scan, and ids that stand for one licence throughout the
      run, are enough. */
  lemma DistinctTimesCohere(run: seq<ScanResult>)
    requires forall i :: 0 <= i < |run| ==> GoodScan(run[i])
    requires forall i :: 0 <= i < |run| && run[i].Scanned? ==>
               var cs := run[i].claims; forall j, k :: 0 <= j < k < |cs| ==> cs[j].iat != cs[k].iat
    requires forall i, j :: 0 <= i < |run| && 0 <= j < |run| && run[i].Scanned? && run[j].Scanned? ==>
               forall c, d :: c in run[i].claims && d in run[j].claims && c.id == d.id ==> c == d
    ensures Coherent(run)
  {
    forall i, j | 0 <= i < |run| && 0 <= j < |run| && run[i].Scanned? && run[j].Scanned?
      ensures SameListIfSameIds(run[i].claims, run[j].claims)
    {
      assert Agree(run[i].claims, run[j].claims) && Agree(run[j].claims, run[i].claims);
      if Ids(run[i].claims) == Ids(run[j].claims) {
        SameIdsSameMembers(run[i].claims, run[j].claims);
        SameIdsSameMembers(run[j].claims, run[i].claims);
        ReadingOrderIrrelevant(run[i].claims, run[j].claims);
      }
    }
  }

  lemma SameIdsSameMembers(a: seq<Claims>, b: seq<Claims>)
    requires Agree(a, b) && Ids(a) == Ids(b)
    ensures forall c :: c in a ==> c in b
  {
    forall c | c in a
      ensures c in b
    {
      assert c.id in Ids(b);
      var d :| d in b && d.id == c.id;
      assert c == d;
    }
  }

  // ---------- Exactly when the cache shows ----------

  /** Scan `n` of the run finds another list than the scan before, but the customer at the head
      of the list is the same, and no hook reports a change: the scan failed, or its ids are
      those of the last success, or it brings in new ids only on several licences at once. */
  ghost predicate GoesUnnoticed(sub: string, run: seq<ScanResult>, n: nat)
    requires n < |run|
  {
    n > 0 &&
    var ids, before, now := Ids(LastScan(run[..n])), Unconditional(sub, run[..n]), ConfiguredClaims(sub) + Found(run[n]);
    && now != before && HeadSub(now) == HeadSub(before)
    && (run[n].Scanned? ==> Ids(run[n].claims) == ids || MissedChange(ids, run[n].claims))
  }

  ghost predicate Unnoticed(sub: string, run: seq<ScanResult>) {
    exists n :: 0 <= n < |run| && GoesUnnoticed(sub, run, n)
  }

  ghost predicate TransparentAfter(sub: string, run: seq<ScanResult>, n: nat)
    requires n <= |run|
  {
    After(sub, run[..n]).published == Unconditional(sub, run[..n])
  }

  lemma PublishesIff(sub: string, st: LoaderState, r: ScanResult)
    requires !st.first && st.lastSub == HeadSub(st.published)
    ensures var ids, now := st.history.Keys, ConfiguredClaims(sub) + Found(r);
            AfterScan(sub, st, r).published == now <==>
            !(&& now != st.published
              && HeadSub(now) == HeadSub(st.published)
              && (r.Scanned? ==> Ids(r.claims) == ids || MissedChange(ids, r.claims)))
  {
    if r.Scanned? {
      ChangeIsNoticedIff(st.history, r.claims);
    }
  }

  /** From a state in which the cache does not show, a scan makes it show exactly if it is one
      that goes unnoticed. */
  lemma NextIsTransparentIff(sub: string, run: seq<ScanResult>, n: nat)
    requires n < |run| && TransparentAfter(sub, run, n)
    ensures TransparentAfter(sub, run, n + 1) <==> !GoesUnnoticed(sub, run, n)
  {
    var older := run[..n];
    assert run[..n + 1] == older + [run[n]];
    HistoryIsLastScan(sub, older);
    AfterOneMore(sub, older, run[n]);
    if n > 0 {
      PublishesIff(sub, After(sub, older), run[n]);
    }
  }

  lemma {:induction false} TransparentUntilUnnoticed(sub: string, run: seq<ScanResult>, n: nat)
    requires n <= |run|
    requires forall i :: 0 <= i < n ==> !GoesUnnoticed(sub, run, i)
    ensures TransparentAfter(sub, run, n)
  {
    if n > 0 {
      TransparentUntilUnnoticed(sub, run, n - 1);
      NextIsTransparentIff(sub, run, n - 1);
    }
  }

  /** For every run, coherent or not: the served list is at every point that of a loader that
      always publishes, exactly if no scan of the run goes unnoticed. */
  lemma TransparentThroughoutIff(sub: string, run: seq<ScanResult>)
    ensures (forall n :: 0 <= n <= |run| ==> TransparentAfter(sub, run, n)) <==> !Unnoticed(sub, run)
  {
    if n :| 0 <= n < |run| && GoesUnnoticed(sub, run, n) {
      if TransparentAfter(sub, run, n) {
        NextIsTransparentIff(sub, run, n);
      }
      assert !TransparentAfter(sub, run, n) || !TransparentAfter(sub, run, n + 1);
    } else {
      forall n | 0 <= n <= |run|
        ensures TransparentAfter(sub, run, n)
      {
        TransparentUntilUnnoticed(sub, run, n);
      }
    }
  }

  /** A configured customer, an empty folder, then two different files that share their id:
      the loader keeps serving no licence at all. */
  lemma StaleExample(c: Claims, d: Claims)
    requires c.id == d.id && c.fileId != d.fileId
    ensures After("customer", [Scanned([]), Scanned([c, d])]).published == ConfiguredClaims("customer")
    ensures |Deduplicated([c, d])| == 2
  {
    var empty := [Scanned([])];
    NothingFound();
    AfterOneMore("customer", [], Scanned([]));
    assert [] + [Scanned([])] == empty;
    var st := After("customer", empty);
    HistoryIsLastScan("customer", empty);
    NoIdsNoClaims([]);
    assert st.history == map[];
    assert empty + [Scanned([c, d])] == [Scanned([]), Scanned([c, d])];
    AfterOneMore("customer", empty, Scanned([c, d]));
    SharedIdGoesUnnoticed(c, d);
    TwoKept(c, d);
  }

  lemma TwoKept(c: Claims, d: Claims)
    requires c.fileId != d.fileId
    ensures |Deduplicated([c, d])| == 2
  {
    var cs := [c, d];
    var kept: seq<nat> := if Before(cs, 0, 1) then [1, 0] else [0, 1];
    assert Before(cs, 0, 1) != Before(cs, 1, 0);
    assert kept[0] in kept && kept[1] in kept;
    assert Winner(cs, 0) && Winner(cs, 1);
    DeduplicatedUnique(cs, kept);
  }
}
