/** What the product aggregation of the claims handler computes, for one product at a time:
    the fold the code performs and the closed form it amounts to. */
module Aggregation {
  import opened Numbers
  import opened License

  /** What one licence says about one product. */
  datatype Contribution = Contribution(product: Option<Product>, expiry: Option<int>, dn: string, sin: string)

  /** The response entry of one product; `pins` are the exclusive claims. */
  datatype Entry = Entry(
    claims: map<string, Value>,
    pins: map<string, Value>,
    expiry: seq<Option<int>>,
    dn: seq<string>,
    sin: seq<string>)

  const EMPTY_ENTRY := Entry(map[], map[], [], [], [])

  // ---------- One licence ----------

  function NameSet(names: seq<string>): set<string> {
    set s | s in names
  }

  /** The claims a licence lists as exclusive; `None` when the list has an unknown format. */
  function ExclusiveNames(u: map<string, Value>): Option<set<string>> {
    if EXCLUSIVE_CLAIM !in u then Some({})
    else if u[EXCLUSIVE_CLAIM].StrList? then Some(NameSet(u[EXCLUSIVE_CLAIM].strs))
    else None
  }

  /** The claims that are aggregated: all but the exclusive list itself. */
  function Payload(u: map<string, Value>): map<string, Value> {
    u - {EXCLUSIVE_CLAIM}
  }

  predicate PinPanics(pins: map<string, Value>, p: map<string, Value>) {
    exists k :: k in p && k in pins && ComparePanics(p[k], pins[k])
  }

  predicate PinConflict(pins: map<string, Value>, p: map<string, Value>) {
    exists k :: k in p && k in pins && p[k] != pins[k]
  }

  predicate ListMergePanics(have: Value, next: Value) {
    have.List? && next.List? && exists v :: v in have.elems + next.elems && !Hashable(v)
  }

  predicate MergePanics(claims: map<string, Value>, p: map<string, Value>) {
    exists k :: k in p && k in claims && ListMergePanics(claims[k], p[k])
  }

  /** The elements of `next` that `have` lacks, in order and with their duplicates. */
  function Missing(next: seq<Value>, have: seq<Value>): seq<Value> {
    if next == [] then []
    else Missing(next[..|next| - 1], have) +
         if next[|next| - 1] in have then [] else [next[|next| - 1]]
  }

  function MergeValue(have: Value, next: Value): Value {
    match next
    case Int64(n) => if have.Int64? then Int64(Wrap64(have.i + n)) else next
    case Float64(x) => if have.Float64? then Float64(FloatAdd(have.f, x)) else next
    case List(vs) => if have.List? then List(have.elems + Missing(vs, have.elems)) else next
    case _ => next
  }

  function MergeAt(claims: map<string, Value>, p: map<string, Value>, k: string): Value
    requires k in claims || k in p
  {
    if k !in p then claims[k] else if k in claims then MergeValue(claims[k], p[k]) else p[k]
  }

  function MergeClaims(claims: map<string, Value>, p: map<string, Value>): map<string, Value> {
    map k | k in claims.Keys + p.Keys :: MergeAt(claims, p, k)
  }

  function AddPins(pins: map<string, Value>, p: map<string, Value>, names: set<string>): map<string, Value> {
    pins + map k | k in p && k in names && k !in pins && p[k] != Null :: p[k]
  }

  function AppendIfMissing(xs: seq<string>, x: string): seq<string> {
    if x in xs then xs else xs + [x]
  }

  function AppendName(xs: seq<string>, x: string): seq<string> {
    if x == "" then xs else AppendIfMissing(xs, x)
  }

  function Step(e: Entry, c: Contribution): Outcome<Entry> {
    if c.product.None? then Panicked
    else
      var u := c.product.value.unknown;
      var p := Payload(u);
      if ExclusiveNames(u).None? then Done(e)
      else if PinPanics(e.pins, p) then Panicked
      else if PinConflict(e.pins, p) then Done(e)
      else if MergePanics(e.claims, p) then Panicked
      else Done(Entry(MergeClaims(e.claims, p),
                      AddPins(e.pins, p, ExclusiveNames(u).value),
                      e.expiry + [c.expiry],
                      AppendName(e.dn, c.dn),
                      AppendName(e.sin, c.sin)))
  }

  /** The entry after all contributions, oldest licence first. */
  function Fold(cs: seq<Contribution>): Outcome<Entry> {
    if cs == [] then Done(EMPTY_ENTRY)
    else
      var before := Fold(cs[..|cs| - 1]);
      if before.Panicked? then Panicked else Step(before.value, cs[|cs| - 1])
  }

  // ---------- Which licences count: the documented rule ----------

  /** Licence `c` has a value for claim `k` and lists `k` as exclusive. */
  ghost predicate Lists(c: Contribution, k: string) {
    c.product.Some? &&
    var u := c.product.value.unknown;
    k in Payload(u) && u[k] != Null && ExclusiveNames(u).Some? && k in ExclusiveNames(u).value
  }

  /** The value the oldest accepted licence that lists `k` as exclusive gives to `k`. */
  ghost function FirstPin(accepted: seq<Contribution>, k: string): Option<Value> {
    if accepted == [] then None
    else
      var older := FirstPin(accepted[..|accepted| - 1], k);
      var c := accepted[|accepted| - 1];
      if older.Some? then older
      else if Lists(c, k) then Some(c.product.value.unknown[k])
      else None
  }

  /** The rule for one licence, given the accepted older ones: its exclusive list is absent or
      well-formed, and it gives every pinned claim it carries the pinned value. */
  ghost predicate Accepts(accepted: seq<Contribution>, c: Contribution) {
    c.product.Some? &&
    var u := c.product.value.unknown;
    ExclusiveNames(u).Some? &&
    forall k :: k in Payload(u) && FirstPin(accepted, k).Some? ==> u[k] == FirstPin(accepted, k).value
  }

  ghost function Accepted(cs: seq<Contribution>): seq<Contribution> {
    if cs == [] then []
    else
      var older := Accepted(cs[..|cs| - 1]);
      if Accepts(older, cs[|cs| - 1]) then older + [cs[|cs| - 1]] else older
  }

  // ---------- What the accepted licences amount to ----------

  /** The values of claim `k`, oldest first. */
  ghost function Values(a: seq<Contribution>, k: string): seq<Value> {
    if a == [] then []
    else
      var c := a[|a| - 1];
      Values(a[..|a| - 1], k) +
      if c.product.Some? && k in Payload(c.product.value.unknown) then [c.product.value.unknown[k]] else []
  }

  function IntOf(v: Value): int {
    if v.Int64? then v.i else 0
  }

  function FloatOf(v: Value): real {
    if v.Float64? then v.f else 0.0
  }

  function ElementsOf(v: Value): seq<Value> {
    if v.List? then v.elems else []
  }

  ghost function IntSum(run: seq<Value>): int {
    if run == [] then 0 else IntSum(run[..|run| - 1]) + IntOf(run[|run| - 1])
  }

  ghost function FloatSum(run: seq<Value>): real
    requires run != []
  {
    if |run| == 1 then FloatOf(run[0])
    else FloatAdd(FloatSum(run[..|run| - 1]), FloatOf(run[|run| - 1]))
  }

  ghost function ListUnion(run: seq<Value>): seq<Value>
    requires run != []
  {
    if |run| == 1 then ElementsOf(run[0])
    else
      var have := ListUnion(run[..|run| - 1]);
      have + Missing(ElementsOf(run[|run| - 1]), have)
  }

  /** `vs[start..]` is the longest suffix whose values all have the kind of the newest value. */
  ghost predicate TrailingRun(vs: seq<Value>, start: nat) {
    && start < |vs|
    && (forall i :: start <= i < |vs| ==> SameKind(vs[i], vs[|vs| - 1]))
    && (start > 0 ==> !SameKind(vs[start - 1], vs[|vs| - 1]))
  }

  /** The meaning of a run of values of the newest value's kind: numbers add up (exactly for integers, modulo
      2^64), lists unite in order, and of anything else the newest value wins. */
  ghost function MergeRun(run: seq<Value>): Value
    requires run != []
  {
    var last := run[|run| - 1];
    if last.Int64? then Int64(Wrap64(IntSum(run)))
    else if last.Float64? then Float64(FloatSum(run))
    else if last.List? then List(ListUnion(run))
    else last
  }

  ghost function RunStart(vs: seq<Value>): (start: nat)
    requires vs != []
    ensures TrailingRun(vs, start)
  {
    var n := |vs| - 1;
    if n == 0 || !SameKind(vs[n - 1], vs[n]) then n
    else
      assert forall i :: 0 <= i < n ==> vs[..n][i] == vs[i];
      RunStart(vs[..n])
  }

  ghost function Combined(vs: seq<Value>): Value
    requires vs != []
  {
    MergeRun(vs[RunStart(vs)..])
  }

  ghost function ClaimNames(a: seq<Contribution>): set<string> {
    if a == [] then {}
    else
      var c := a[|a| - 1];
      ClaimNames(a[..|a| - 1]) + if c.product.Some? then Payload(c.product.value.unknown).Keys else {}
  }

  /** The distinct non-empty names, in order of first appearance. */
  ghost function DistinctNames(xs: seq<string>): seq<string> {
    if xs == [] then [] else AppendName(DistinctNames(xs[..|xs| - 1]), xs[|xs| - 1])
  }

  ghost function SummaryClaims(a: seq<Contribution>): map<string, Value> {
    map k | k in ClaimNames(a) && Values(a, k) != [] :: Combined(Values(a, k))
  }

  ghost function SummaryPins(a: seq<Contribution>): map<string, Value> {
    map k | k in ClaimNames(a) && FirstPin(a, k).Some? :: FirstPin(a, k).value
  }

  /** The entry that a list of accepted licences stands for. */
  ghost function Summary(a: seq<Contribution>): Entry {
    Entry(
      SummaryClaims(a),
      SummaryPins(a),
      seq(|a|, i requires 0 <= i < |a| => a[i].expiry),
      DistinctNames(seq(|a|, i requires 0 <= i < |a| => a[i].dn)),
      DistinctNames(seq(|a|, i requires 0 <= i < |a| => a[i].sin)))
  }

  // ---------- Lemmas: a run grows by one value ----------

  lemma TrailingRunUnique(vs: seq<Value>, s: nat, t: nat)
    requires TrailingRun(vs, s) && TrailingRun(vs, t)
    ensures s == t
  {
  }

  lemma RunGrows(run: seq<Value>, v: Value)
    requires run != [] && SameKind(run[|run| - 1], v)
    ensures MergeRun(run + [v]) == MergeValue(MergeRun(run), v)
  {
    assert (run + [v])[..|run|] == run;
    if v.Int64? {
      Wrap64Absorbs(IntSum(run), v.i);
    }
  }

  lemma RunStartGrows(vs: seq<Value>, v: Value)
    requires vs != []
    ensures RunStart(vs + [v]) == if SameKind(vs[|vs| - 1], v) then RunStart(vs) else |vs|
  {
  }

  /** Merging one more value, as the code does, keeps the closed form. */
  lemma CombinedGrows(vs: seq<Value>, v: Value)
    requires vs != []
    ensures Combined(vs + [v]) == MergeValue(Combined(vs), v)
  {
    var ws, s := vs + [v], RunStart(vs);
    RunStartGrows(vs, v);
    if SameKind(vs[|vs| - 1], v) {
      assert ws[s..] == vs[s..] + [v];
      RunGrows(vs[s..], v);
    } else {
      assert ws[|vs|..] == [v];
      assert IntSum([v]) == IntSum([]) + IntOf(v);
    }
  }

  lemma ClaimNamesHaveValues(a: seq<Contribution>, k: string)
    ensures k in ClaimNames(a) <==> Values(a, k) != []
    ensures FirstPin(a, k).Some? ==> k in ClaimNames(a)
  {
  }

  // ---------- The main result: the fold is the closed form over the accepted licences ----------

  lemma SummaryGrowsPins(a: seq<Contribution>, c: Contribution)
    requires c.product.Some? && ExclusiveNames(c.product.value.unknown).Some?
    ensures var u := c.product.value.unknown;
            SummaryPins(a + [c]) == AddPins(SummaryPins(a), Payload(u), ExclusiveNames(u).value)
  {
    var b := a + [c];
    assert b[..|b| - 1] == a;
    forall k
      ensures k in SummaryPins(b) <==> FirstPin(b, k).Some?
      ensures k in SummaryPins(a) <==> FirstPin(a, k).Some?
    {
      ClaimNamesHaveValues(a, k);
      ClaimNamesHaveValues(b, k);
    }
  }

  lemma SummaryGrowsClaim(a: seq<Contribution>, c: Contribution, k: string)
    requires c.product.Some? && (Values(a, k) != [] || k in Payload(c.product.value.unknown))
    ensures Values(a + [c], k) != []
    ensures var p := Payload(c.product.value.unknown);
            Combined(Values(a + [c], k)) ==
            if k !in p then Combined(Values(a, k))
            else if Values(a, k) == [] then p[k]
            else MergeValue(Combined(Values(a, k)), p[k])
  {
    var b, p := a + [c], Payload(c.product.value.unknown);
    assert b[..|b| - 1] == a;
    if k in p {
      if Values(a, k) == [] {
        assert Values(b, k) == [p[k]];
        SingleValue(p[k]);
      } else {
        CombinedGrows(Values(a, k), p[k]);
      }
    } else {
      assert Values(b, k) == Values(a, k);
    }
  }

  lemma SummaryClaimKeys(a: seq<Contribution>)
    ensures SummaryClaims(a).Keys == ClaimNames(a)
  {
  }

  lemma SummaryKeysGrow(a: seq<Contribution>, c: Contribution)
    requires c.product.Some?
    ensures SummaryClaims(a + [c]).Keys == SummaryClaims(a).Keys + Payload(c.product.value.unknown).Keys
  {
    SummaryClaimKeys(a);
    SummaryClaimKeys(a + [c]);
    assert (a + [c])[..|a|] == a;
  }

  lemma SummaryGrowsAt(a: seq<Contribution>, c: Contribution, k: string)
    requires c.product.Some? && k in SummaryClaims(a).Keys + Payload(c.product.value.unknown).Keys
    ensures k in SummaryClaims(a + [c])
    ensures SummaryClaims(a + [c])[k] == MergeAt(SummaryClaims(a), Payload(c.product.value.unknown), k)
  {
    SummaryKeysGrow(a, c);
    ClaimNamesHaveValues(a, k);
    SummaryGrowsClaim(a, c, k);
  }

  lemma SameMap(a: map<string, Value>, b: map<string, Value>)
    requires a.Keys == b.Keys && forall k :: k in a ==> a[k] == b[k]
    ensures a == b
  {
  }

  lemma SummaryGrowsClaims(a: seq<Contribution>, c: Contribution)
    requires c.product.Some?
    ensures SummaryClaims(a + [c]) == MergeClaims(SummaryClaims(a), Payload(c.product.value.unknown))
  {
    var left, right := SummaryClaims(a + [c]), MergeClaims(SummaryClaims(a), Payload(c.product.value.unknown));
    SummaryKeysGrow(a, c);
    forall k | k in left
      ensures left[k] == right[k]
    {
      SummaryGrowsAt(a, c, k);
    }
    SameMap(left, right);
  }

  lemma SingleValue(v: Value)
    ensures Combined([v]) == v
  {
    assert TrailingRun([v], 0);
    TrailingRunUnique([v], 0, RunStart([v]));
    assert [v][0..] == [v];
    assert IntSum([v]) == IntSum([]) + IntOf(v);
  }

  lemma SummaryGrowsNames(a: seq<Contribution>, c: Contribution)
    ensures Summary(a + [c]).expiry == Summary(a).expiry + [c.expiry]
    ensures Summary(a + [c]).dn == AppendName(Summary(a).dn, c.dn)
    ensures Summary(a + [c]).sin == AppendName(Summary(a).sin, c.sin)
  {
    var b := a + [c];
    var dns := seq(|b|, i requires 0 <= i < |b| => b[i].dn);
    assert dns[..|a|] == seq(|a|, i requires 0 <= i < |a| => a[i].dn);
    var sins := seq(|b|, i requires 0 <= i < |b| => b[i].sin);
    assert sins[..|a|] == seq(|a|, i requires 0 <= i < |a| => a[i].sin);
  }

  /** On the summary of accepted licences, the code's two tests are the documented rule. */
  lemma ConflictIsRule(a: seq<Contribution>, c: Contribution)
    requires c.product.Some? && ExclusiveNames(c.product.value.unknown).Some?
    ensures PinConflict(SummaryPins(a), Payload(c.product.value.unknown)) <==> !Accepts(a, c)
  {
    forall k
      ensures k in SummaryPins(a) <==> FirstPin(a, k).Some?
    {
      ClaimNamesHaveValues(a, k);
    }
  }

  lemma StepIsSummary(a: seq<Contribution>, c: Contribution)
    requires Step(Summary(a), c).Done?
    ensures Step(Summary(a), c).value == Summary(if Accepts(a, c) then a + [c] else a)
  {
    if ExclusiveNames(c.product.value.unknown).Some? {
      ConflictIsRule(a, c);
      if Accepts(a, c) {
        SummaryGrowsClaims(a, c);
        SummaryGrowsPins(a, c);
        SummaryGrowsNames(a, c);
      }
    }
  }

  /** Unless it panics, the handler's loop over one product yields exactly the summary of the
      licences that the documented exclusivity rule accepts. */
  lemma {:induction false} FoldIsSummary(cs: seq<Contribution>)
    requires Fold(cs).Done?
    ensures Fold(cs).value == Summary(Accepted(cs))
  {
    if cs == [] {
      assert Summary([]) == EMPTY_ENTRY;
    } else {
      FoldIsSummary(cs[..|cs| - 1]);
      StepIsSummary(Accepted(cs[..|cs| - 1]), cs[|cs| - 1]);
    }
  }
}
