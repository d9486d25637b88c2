/** The licence loading closure of `Serve`, with the variables it captures and the claims it
    publishes, refined to the run specification of `ChangeDetection`. */
module Loader {
  import opened License
  import opened LicenseSet
  import opened Scan
  import opened LicensesLoader
  import opened ChangeDetection

  /** The hooks that set `changed` fire exactly if the specification notices a change. */
  lemma HooksMeanChange(history: map<string, Claims>, cs: seq<Claims>, removed: seq<Claims>, announced: seq<Claims>)
    requires forall id :: id in history ==> history[id].id == id
    requires forall c :: c in removed <==> Removed(history, cs, c.id) && c == history[c.id]
    requires forall c :: c in announced <==> Announced(history, cs, c.id) && c in cs
    ensures Changed(history, cs) <==> removed != [] || announced != []
  {
    if removed != [] {
      assert removed[0] in removed;
    }
    if announced != [] {
      assert announced[0] in announced;
    }
    if Changed(history, cs) {
      var id :| Announced(history, cs, id) || Removed(history, cs, id);
      if Announced(history, cs, id) {
        OccursIffIn(cs, id);
        var i :| 0 <= i < |cs| && cs[i].id == id;
        assert cs[i] in announced;
      } else {
        assert history[id] in removed;
      }
    }
  }

  /** Every scanned licence names a customer. */
  lemma ScannedNameCustomers(files: seq<File>, keys: Keys, now: int)
    ensures forall c :: c in ClaimsIn(files, keys, now) ==> c.subject != ""
  {
  }

  /** What a loader serves after a run of its closure. */
  lemma ServedAfterRun(sub: string, run: seq<ScanResult>)
    ensures Unnoticed(sub, run) || After(sub, run).published == Unconditional(sub, run)
    ensures Coherent(run) ==> After(sub, run).published == Retained(sub, run)
  {
    assert run[..|run|] == run;
    if !Unnoticed(sub, run) {
      TransparentUntilUnnoticed(sub, run, |run|);
    }
    if Coherent(run) {
      ServedIsRetained(sub, run);
    }
  }

  lemma RunGrows(sub: string, run: seq<ScanResult>, r: ScanResult)
    requires CustomersNamed(run) && NamesCustomers(r)
    ensures var longer := run + [r];
            && CustomersNamed(longer)
            && After(sub, longer) == AfterScan(sub, After(sub, run), r)
            && (Unnoticed(sub, longer) || After(sub, longer).published == Unconditional(sub, longer))
            && (Coherent(longer) ==> After(sub, longer).published == Retained(sub, longer))
  {
    AfterOneMore(sub, run, r);
    ServedAfterRun(sub, run + [r]);
  }

  class Loader {
    const sub: string
    const hasFolder: bool
    const scanner: LicensesLoader

    var lastSub: string
    var first: bool

    /** The server's active claims, and how often they were replaced. */
    var claims: seq<Claims>
    var publications: nat

    /** The outcomes of all scans so far. */
    ghost var run: seq<ScanResult>

    ghost function State(): LoaderState
      reads this, scanner
    {
      LoaderState(scanner.activateHistory, lastSub, first, claims, publications)
    }

    ghost predicate Valid()
      reads this, scanner
    {
      scanner.Valid() && State() == After(sub, run) && CustomersNamed(run)
    }

    constructor (sub: string, hasFolder: bool)
      ensures Valid() && this.sub == sub && this.hasFolder == hasFolder && run == []
      ensures fresh(scanner)
    {
      this.sub, this.hasFolder := sub, hasFolder;
      scanner := new LicensesLoader();
      lastSub, first, claims, publications, run := "", true, [], 0, [];
    }

    /** The outcome of the scan that a run of the closure makes. */
    ghost function Outcome(folder: Option<seq<File>>, keys: Keys, now: int): ScanResult {
      if hasFolder && folder.Some? then Scanned(ClaimsIn(folder.value, keys, now)) else Failed
    }

    lemma OutcomeNamesCustomers(folder: Option<seq<File>>, keys: Keys, now: int)
      ensures NamesCustomers(Outcome(folder, keys, now))
    {
      if folder.Some? {
        ScannedNameCustomers(folder.value, keys, now);
      }
    }

    lemma FoundIn(folder: Option<seq<File>>, keys: Keys, now: int)
      ensures Found(Outcome(folder, keys, now)) ==
              if hasFolder && folder.Some? then Deduplicated(ClaimsIn(folder.value, keys, now)) else []
    {
    }

    /** Scans the folder, if one is configured, and tells whether a hook reported a change. */
    method ScanLicenses(folder: Option<seq<File>>, keys: Keys, now: int) returns (found: seq<Claims>, changed: bool)
      requires scanner.Valid()
      modifies scanner
      ensures scanner.Valid()
      ensures !hasFolder || folder.None? ==>
                found == [] && !changed && scanner.activateHistory == old(scanner.activateHistory)
      ensures hasFolder && folder.Some? ==>
                var read := ClaimsIn(folder.value, keys, now);
                && found == Deduplicated(read)
                && (changed <==> Changed(old(scanner.activateHistory), read))
                && scanner.activateHistory.Keys == Ids(read)
      ensures changed <==> Noticed(old(scanner.activateHistory), Outcome(folder, keys, now))
      ensures scanner.activateHistory == HistoryAfterResult(old(scanner.activateHistory), Outcome(folder, keys, now))
    {
      if !hasFolder {
        return [], false;
      }
      var result, activations, removed, announced := scanner.ScanFolder(folder, keys, now);
      if result.None? {
        return [], false;
      }
      HooksMeanChange(old(scanner.activateHistory), ClaimsIn(folder.value, keys, now), removed, announced);
      HistoryKeys(old(scanner.activateHistory), ClaimsIn(folder.value, keys, now));
      return result.value, removed != [] || announced != [];
    }

    /** Publishes the claims, unless the closure returns early. */
    method Publish(all: seq<Claims>, changed: bool)
      modifies this`lastSub, this`first, this`claims, this`publications
      ensures State() == Conclude(old(State()), scanner.activateHistory, all, changed)
      ensures var head := if all == [] then "" else all[0].subject;
              if !old(first) && head == old(lastSub) && !changed
              then claims == old(claims) && lastSub == old(lastSub) && !first && publications == old(publications)
              else claims == all && lastSub == head && !first && publications == old(publications) + 1
    {
      var head := "";
      if |all| > 0 {
        head := all[0].subject;
      }
      if !first && head == lastSub && !changed {
        return;
      }
      lastSub := head;
      claims := all;
      publications := publications + 1;
      first := false;
    }

    /** The closure: scans, and publishes unless nothing changed. After a scan the history has
        the ids of that scan; without one it stays as it was. */
    method F(folder: Option<seq<File>>, keys: Keys, now: int)
      requires scanner.Valid()
      modifies this`lastSub, this`first, this`claims, this`publications, scanner
      ensures scanner.Valid()
      ensures State() == AfterScan(sub, old(State()), Outcome(folder, keys, now))
      ensures !hasFolder || folder.None? ==> scanner.activateHistory == old(scanner.activateHistory)
      ensures hasFolder && folder.Some? ==> scanner.activateHistory.Keys == Ids(ClaimsIn(folder.value, keys, now))
      ensures claims == old(claims) ||
              claims == ConfiguredClaims(sub) +
                        if hasFolder && folder.Some? then Deduplicated(ClaimsIn(folder.value, keys, now)) else []
    {
      var found, changed := ScanLicenses(folder, keys, now);
      FoundIn(folder, keys, now);
      Publish(ConfiguredClaims(sub) + found, changed);
    }

    /** One more run of the closure: as long as no scan went unnoticed, the served claims are
        those of a closure that never returns early; and over coherent scans they are these, or
        after a failed scan with a configured customer, those of the last success. A run over a
        folder that can be read leaves exactly the licences of that folder. */
    method Reload(folder: Option<seq<File>>, keys: Keys, now: int)
      requires Valid()
      modifies this, scanner
      ensures Valid()
      ensures run == old(run) +
                     [if hasFolder && folder.Some? then Scanned(ClaimsIn(folder.value, keys, now)) else Failed]
      ensures Unnoticed(sub, run) || claims == Unconditional(sub, run)
      ensures Coherent(run) ==> claims == Retained(sub, run)
      ensures hasFolder && folder.Some? ==>
                var read := ClaimsIn(folder.value, keys, now);
                && scanner.activateHistory.Keys == Ids(read)
                && (Coherent(run) ==> claims == ConfiguredClaims(sub) + Deduplicated(read))
      ensures !hasFolder || folder.None? ==> scanner.activateHistory == old(scanner.activateHistory)
    {
      OutcomeNamesCustomers(folder, keys, now);
      F(folder, keys, now);
      Remember(Outcome(folder, keys, now));
    }

    /** Notes the outcome of the scan that the closure has just run on. */
    ghost method Remember(r: ScanResult)
      requires scanner.Valid() && CustomersNamed(run) && NamesCustomers(r)
      requires State() == AfterScan(sub, After(sub, run), r)
      modifies this`run
      ensures Valid() && run == old(run) + [r]
      ensures Unnoticed(sub, run) || claims == Unconditional(sub, run)
      ensures Coherent(run) ==> claims == Retained(sub, run)
    {
      RunGrows(sub, run, r);
      run := run + [r];
    }
  }
}
