/** Any number of requests over the same licences in memory. */
module Requests {
  import opened License
  import opened Aggregation
  import opened Responses
  import opened Slices
  import opened Plans
  import opened ProductsHandler
  import opened ProductsResponse

  // ---------- The licences' own arrays ----------

  /** A claim of a product of a licence. */
  datatype Place = Place(i: nat, product: string, claim: string)

  predicate HasValue(gs: seq<GoClaims>, p: Place) {
    p.i < |gs| && p.product in gs[p.i].products && gs[p.i].products[p.product].Some? &&
    p.claim in gs[p.i].products[p.product].value
  }

  function ValueAt(gs: seq<GoClaims>, p: Place): GoValue
    requires HasValue(gs, p)
  {
    gs[p.i].products[p.product].value[p.claim]
  }

  /** The places that hold a list. */
  ghost function Lists(gs: seq<GoClaims>): set<Place> {
    set i, name, k | 0 <= i < |gs| && name in gs[i].products && gs[i].products[name].Some? &&
                     k in gs[i].products[name].value && gs[i].products[name].value[k].Shared? :: Place(i, name, k)
  }

  lemma ListsMeaning(gs: seq<GoClaims>, p: Place)
    ensures p in Lists(gs) <==> HasValue(gs, p) && ValueAt(gs, p).Shared?
  {
  }

  ghost function ArrayAt(gs: seq<GoClaims>, p: Place): array<Value>
    requires p in Lists(gs)
  {
    ValueAt(gs, p).slice.arr
  }

  ghost function Arrays(gs: seq<GoClaims>): set<array<Value>> {
    set p | p in Lists(gs) :: ArrayAt(gs, p)
  }

  /** Every list of every claim of every product of every licence has an array of its own. */
  ghost predicate Separate(gs: seq<GoClaims>) {
    forall p, q :: p in Lists(gs) && q in Lists(gs) && p != q ==> ArrayAt(gs, p) != ArrayAt(gs, q)
  }

  /** The licence in memory is `c`, but for the values of its claims. */
  ghost predicate SameShape(g: GoClaims, c: Claims) {
    && Describes(g, c)
    && forall name :: name in g.products ==>
         && g.products[name].None? == c.products[name].None?
         && (g.products[name].Some? ==> g.products[name].value.Keys == c.products[name].value.unknown.Keys)
  }

  /** What a reader of the licences sees. */
  ghost predicate Displays(gs: seq<GoClaims>, vs: seq<Claims>)
    reads Arrays(gs)
  {
    && |gs| == |vs| && (forall i :: 0 <= i < |gs| ==> SameShape(gs[i], vs[i]))
    && forall p :: HasValue(gs, p) ==> DisplaysAt(gs, vs, p)
  }

  ghost predicate DisplaysAt(gs: seq<GoClaims>, vs: seq<Claims>, p: Place)
    requires |gs| == |vs| && HasValue(gs, p) && SameShape(gs[p.i], vs[p.i])
    reads Arrays(gs)
  {
    ListsMeaning(gs, p);
    Visible(ValueAt(gs, p), vs[p.i].products[p.product].value.unknown[p.claim])
  }

  // ---------- The ledger of the licences ----------

  /** A place whose list is in the array. */
  ghost function OwnerOf(gs: seq<GoClaims>, a: array<Value>): (p: Place)
    requires a in Arrays(gs)
    ensures p in Lists(gs) && ArrayAt(gs, p) == a
  {
    var p :| p in Lists(gs) && ArrayAt(gs, p) == a;
    p
  }

  /** The plan of the list at a place. */
  ghost function PlanAt(gs: seq<GoClaims>, vs: seq<Claims>, p: Place): Promise
    requires |gs| == |vs| && p in Lists(gs) && SameShape(gs[p.i], vs[p.i])
  {
    var v := vs[p.i].products[p.product].value.unknown[p.claim];
    Promise(Planned(ElementsOf(v), ContributionsOf(vs, p.product), Position(vs, p.i, p.product) + 1, p.claim),
            ValueAt(gs, p).slice.len)
  }

  ghost function InitialLedger(gs: seq<GoClaims>, vs: seq<Claims>): Ledger
    requires |gs| == |vs| && Separate(gs) && forall i :: 0 <= i < |gs| ==> SameShape(gs[i], vs[i])
  {
    map a | a in Arrays(gs) :: PlanAt(gs, vs, OwnerOf(gs, a))
  }

  lemma LedgerAt(gs: seq<GoClaims>, vs: seq<Claims>, p: Place)
    requires |gs| == |vs| && Separate(gs) && (forall i :: 0 <= i < |gs| ==> SameShape(gs[i], vs[i])) && p in Lists(gs)
    ensures var l := InitialLedger(gs, vs); ArrayAt(gs, p) in l && l[ArrayAt(gs, p)] == PlanAt(gs, vs, p)
  {
  }

  lemma InitiallyTracked(gs: seq<GoClaims>, vs: seq<Claims>, p: Place)
    requires Separate(gs) && Displays(gs, vs) && HasValue(gs, p)
    ensures var v := vs[p.i].products[p.product].value.unknown[p.claim];
            Tracks(InitialLedger(gs, vs), ValueAt(gs, p), v, ContributionsOf(vs, p.product),
                   Position(vs, p.i, p.product) + 1, p.claim)
  {
    ListsMeaning(gs, p);
    assert DisplaysAt(gs, vs, p);
    if ValueAt(gs, p).Shared? {
      LedgerAt(gs, vs, p);
      OwnPlanTracks(InitialLedger(gs, vs), ValueAt(gs, p).slice, vs[p.i].products[p.product].value.unknown[p.claim],
                    ContributionsOf(vs, p.product), Position(vs, p.i, p.product) + 1, p.claim);
    }
  }

  /** A list with an array of its own that has its plan. */
  lemma OwnPlanTracks(l: Ledger, s: Slice, v: Value, cs: seq<Contribution>, j: nat, k: string)
    requires v.List? && |v.elems| == s.len && s.arr in l && l[s.arr] == Promise(Planned(v.elems, cs, j, k), s.len)
    ensures Tracks(l, Shared(s), v, cs, j, k)
  {
    PlannedExtends(v.elems, cs, j, k);
  }

  lemma InitiallyAllTracked(gs: seq<GoClaims>, vs: seq<Claims>)
    requires Separate(gs) && Displays(gs, vs)
    ensures Tracked(InitialLedger(gs, vs), gs, vs)
  {
    var l := InitialLedger(gs, vs);
    forall i, name | 0 <= i < |gs| && name in gs[i].products
      ensures ProductTracked(l, gs[i].products[name], ContributionsOf(vs, name), Position(vs, i, name))
    {
      PositionOf(vs, i, name);
      if gs[i].products[name].Some? {
        forall k | k in gs[i].products[name].value
          ensures Tracks(l, gs[i].products[name].value[k], vs[i].products[name].value.unknown[k],
                         ContributionsOf(vs, name), Position(vs, i, name) + 1, k)
        {
          InitiallyTracked(gs, vs, Place(i, name, k));
        }
      }
    }
  }

  lemma InitiallyKept(gs: seq<GoClaims>, vs: seq<Claims>, p: Place)
    requires Separate(gs) && Displays(gs, vs) && p in Lists(gs)
    ensures Fulfilled(PlanAt(gs, vs, p), ArrayAt(gs, p))
  {
    ListsMeaning(gs, p);
    assert DisplaysAt(gs, vs, p);
    var v := vs[p.i].products[p.product].value.unknown[p.claim];
    PlannedExtends(v.elems, ContributionsOf(vs, p.product), Position(vs, p.i, p.product) + 1, p.claim);
  }

  /** The heap of licences with separate arrays. */
  method HeapOf(ghost gs: seq<GoClaims>, ghost vs: seq<Claims>) returns (heap: Heap)
    requires Separate(gs) && Displays(gs, vs)
    ensures fresh(heap) && heap.Valid() && heap.Repr == {heap} + Arrays(gs)
    ensures Tracked(heap.ledger, gs, vs)
  {
    forall p | p in Lists(gs)
      ensures Fulfilled(PlanAt(gs, vs, p), ArrayAt(gs, p))
    {
      InitiallyKept(gs, vs, p);
    }
    InitiallyAllTracked(gs, vs);
    forall a | a in InitialLedger(gs, vs)
      ensures a in Arrays(gs) && Fulfilled(InitialLedger(gs, vs)[a], a)
    {
      LedgerAt(gs, vs, OwnerOf(gs, a));
    }
    heap := new Heap(Arrays(gs), InitialLedger(gs, vs));
  }

  /** What the ledger says about the licences is what their readers see. */
  lemma TrackedIsDisplayed(heap: Heap, gs: seq<GoClaims>, vs: seq<Claims>)
    requires heap.Valid() && Tracked(heap.ledger, gs, vs)
    ensures Displays(gs, vs)
  {
    forall i | 0 <= i < |gs|
      ensures SameShape(gs[i], vs[i])
    {
      LicenseShape(heap.ledger, gs[i], vs, i);
    }
    forall p | HasValue(gs, p)
      ensures DisplaysAt(gs, vs, p)
    {
      TrackedAt(heap.ledger, gs, vs, p);
      heap.ShownIsVisible(ValueAt(gs, p), vs[p.i].products[p.product].value.unknown[p.claim]);
    }
  }

  lemma LicenseShape(l: Ledger, g: GoClaims, vs: seq<Claims>, i: nat)
    requires i < |vs| && LicenseTracked(l, g, vs, i)
    ensures SameShape(g, vs[i])
  {
    forall name | name in g.products
      ensures g.products[name].None? == vs[i].products[name].None?
      ensures g.products[name].Some? ==> g.products[name].value.Keys == vs[i].products[name].value.unknown.Keys
    {
      PositionOf(vs, i, name);
      assert ProductTracked(l, g.products[name], ContributionsOf(vs, name), Position(vs, i, name));
    }
  }

  lemma TrackedAt(l: Ledger, gs: seq<GoClaims>, vs: seq<Claims>, p: Place)
    requires Tracked(l, gs, vs) && HasValue(gs, p) && SameShape(gs[p.i], vs[p.i])
    ensures Shows(l, ValueAt(gs, p), vs[p.i].products[p.product].value.unknown[p.claim])
  {
    PositionOf(vs, p.i, p.product);
    var cs, j := ContributionsOf(vs, p.product), Position(vs, p.i, p.product);
    assert ProductTracked(l, gs[p.i].products[p.product], cs, j);
    assert Tracks(l, ValueAt(gs, p), cs[j].product.value.unknown[p.claim], cs, j + 1, p.claim);
  }

  // ---------- The requests ----------

  /** What a request was answered with: nothing, if the handler panicked, else the response. */
  type Answer = Option<Response>

  function ObjectsOf(answer: Answer): set<Response> {
    if answer.Some? then {answer.value} else {}
  }

  ghost function ReprOf(answer: Answer): set<object>
    reads ObjectsOf(answer)
  {
    if answer.Some? then {answer.value} + answer.value.Repr else {}
  }

  /** The answer is the one that `Respond` gives. */
  ghost predicate Answers(l: Ledger, answer: Answer, vs: seq<Claims>, filter: Option<set<string>>)
    reads ObjectsOf(answer), ReprOf(answer)
  {
    match Respond(vs, filter)
    case Panicked => answer.None?
    case Done(value) => answer.Some? && answer.value.Shows(l, value)
  }

  lemma StillAnswers(l: Ledger, later: Ledger, answer: Answer, vs: seq<Claims>, filter: Option<set<string>>)
    requires Answers(l, answer, vs, filter) && Grows(l, later)
    ensures Answers(later, answer, vs, filter)
  {
    if answer.Some? {
      answer.value.StillShows(l, later, Respond(vs, filter).value);
    }
  }

  /** One more request. */
  method NextRequest(heap: Heap, gs: seq<GoClaims>, filter: Option<set<string>>, ghost vs: seq<Claims>,
                     ghost earlier: seq<Answer>, ghost filters: seq<Option<set<string>>>)
    returns (answer: Answer)
    requires heap.Valid() && Tracked(heap.ledger, gs, vs) && |earlier| <= |filters|
    requires forall n :: 0 <= n < |earlier| ==> Answers(heap.ledger, earlier[n], vs, filters[n])
    modifies heap.Repr
    ensures heap.Valid() && fresh(heap.Repr - old(heap.Repr))
    ensures Tracked(heap.ledger, gs, vs)
    ensures Answers(heap.ledger, answer, vs, filter)
    ensures forall n :: 0 <= n < |earlier| ==> Answers(heap.ledger, earlier[n], vs, filters[n])
  {
    ghost var l := heap.ledger;
    var panicked, response := ClaimsKopanoProducts(heap, gs, filter, vs);
    answer := if panicked then None else Some(response);
    forall n | 0 <= n < |earlier|
      ensures Answers(heap.ledger, earlier[n], vs, filters[n])
    {
      assert Answers(l, earlier[n], vs, filters[n]);
      StillAnswers(l, heap.ledger, earlier[n], vs, filters[n]);
    }
  }

  /** Any number of requests, one after the other. */
  method AnswerAll(heap: Heap, gs: seq<GoClaims>, filters: seq<Option<set<string>>>, ghost vs: seq<Claims>)
    returns (answers: seq<Answer>)
    requires heap.Valid() && Tracked(heap.ledger, gs, vs)
    modifies heap.Repr
    ensures heap.Valid() && Tracked(heap.ledger, gs, vs) && |answers| == |filters|
    ensures forall n :: 0 <= n < |filters| ==> Answers(heap.ledger, answers[n], vs, filters[n])
  {
    answers := [];
    for i := 0 to |filters|
      invariant heap.Valid() && fresh(heap.Repr - old(heap.Repr))
      invariant Tracked(heap.ledger, gs, vs) && |answers| == i
      invariant forall n :: 0 <= n < i ==> Answers(heap.ledger, answers[n], vs, filters[n])
    {
      var answer := NextRequest(heap, gs, filters[i], vs, answers, filters);
      answers := answers + [answer];
    }
  }

  /** Each of any number of requests panics exactly if `Respond` does, and else shows what `Respond`
      gives; in the end all responses, the earlier ones included, show it; and every licence shows
      nothing but its own lists, whatever was appended to them and whichever request panicked. */
  method Serve(gs: seq<GoClaims>, filters: seq<Option<set<string>>>, ghost vs: seq<Claims>)
    returns (answers: seq<Answer>, heap: Heap)
    requires Separate(gs) && Displays(gs, vs)
    modifies Arrays(gs)
    ensures Displays(gs, vs)
    ensures heap.Valid() && |answers| == |filters|
    ensures forall n :: 0 <= n < |filters| ==> Answers(heap.ledger, answers[n], vs, filters[n])
  {
    heap := HeapOf(gs, vs);
    answers := AnswerAll(heap, gs, filters, vs);
    TrackedIsDisplayed(heap, gs, vs);
  }

  /** What a response shows is what its readers see. */
  lemma ShownIsRead(heap: Heap, response: Response, value: map<string, Entry>, name: string)
    requires heap.Valid() && response.Shows(heap.ledger, value) && name in value
    ensures name in response.products
    ensures var e, v := response.products[name], value[name];
            && e.claims.Keys == v.claims.Keys && (forall k :: k in v.claims ==> Visible(e.claims[k], v.claims[k]))
            && e.pins.Keys == v.pins.Keys && (forall k :: k in v.pins ==> Visible(e.pins[k], v.pins[k]))
            && e.ok && e.expiry == v.expiry && e.dn == v.dn && e.sin == v.sin
  {
    var e, v := response.products[name], value[name];
    assert e.Shows(heap.ledger, v);
    forall k | k in v.claims
      ensures Visible(e.claims[k], v.claims[k])
    {
      heap.ShownIsVisible(e.claims[k], v.claims[k]);
    }
    forall k | k in v.pins
      ensures Visible(e.pins[k], v.pins[k])
    {
      heap.ShownIsVisible(e.pins[k], v.pins[k]);
    }
  }
}
