/** The claims generator: form parameters to licence claims, in whatever order the parameter
    map is iterated. */
module ClaimsGen {
  import opened Numbers
  import opened License

  /** A generated random id, or one given by a parameter. All generated ids count as equal. */
  datatype Id = Generated | Given(id: string)

  datatype GenProduct = GenProduct(licenseId: Id, unknown: map<string, Value>)

  datatype GenClaims = GenClaims(fileId: Id, displayName: string, supportId: string, products: map<string, GenProduct>)

  const NEW_CLAIMS := GenClaims(Generated, "", "", map[])
  const NEW_PRODUCT := GenProduct(Generated, map[])

  /** The `strconv` parsers. */
  datatype Parsers = Parsers(
    int_: string -> Option<int64>,
    bool_: string -> Option<bool>,
    float_: string -> Option<real>)

  type Params = map<string, seq<string>>

  const STRING_LIST := "[]string"

  // ---------- Keys ----------

  /** What a parameter key names. */
  datatype Target = FileId | DisplayName | SupportId | BadKey | Claim(product: string, claim: string, typ: string)

  /** `SplitN(s, sep, 2)`: the parts before and after the first separator. */
  function Cut(s: string, sep: char): Option<(string, string)> {
    if s == "" then None
    else if s[0] == sep then Some(("", s[1..]))
    else
      var rest := Cut(s[1..], sep);
      if rest.None? then None else Some(([s[0]] + rest.value.0, rest.value.1))
  }

  function ParseKey(k: string): Target {
    if k == "uid" then FileId
    else if k == "dn" then DisplayName
    else if k == "sin" then SupportId
    else
      var parts := Cut(k, '.');
      if parts.None? then BadKey
      else
        var withType := Cut(parts.value.1, ':');
        if withType.None? then Claim(parts.value.0, parts.value.1, "string")
        else Claim(parts.value.0, withType.value.0, withType.value.1)
  }

  lemma {:induction false} CutJoins(s: string, sep: char)
    ensures Cut(s, sep).Some? ==> s == Cut(s, sep).value.0 + [sep] + Cut(s, sep).value.1
  {
    if s != "" && s[0] != sep {
      CutJoins(s[1..], sep);
      assert s == [s[0]] + s[1..];
    }
  }

  lemma {:induction false} CutOf(a: string, sep: char, b: string)
    requires sep !in a
    ensures Cut(a + [sep] + b, sep) == Some((a, b))
  {
    var s := a + [sep] + b;
    if a == "" {
      assert s[1..] == b;
    } else {
      CutOf(a[1..], sep, b);
      assert a == [a[0]] + a[1..] && s[1..] == a[1..] + [sep] + b;
    }
  }

  lemma {:induction false} CutNoneIff(s: string, sep: char)
    ensures Cut(s, sep) == None <==> sep !in s
  {
    if s != "" {
      CutNoneIff(s[1..], sep);
      assert s == [s[0]] + s[1..];
    }
  }

  lemma PlainKey(k: string)
    ensures '.' !in k ==>
              ParseKey(k) == match k case "uid" => FileId case "dn" => DisplayName case "sin" => SupportId case _ => BadKey
    ensures '.' in k ==> ParseKey(k).Claim?
  {
    CutNoneIff(k, '.');
    assert "uid"[0] != '.' && "uid"[1] != '.' && "uid"[2] != '.';
  }

  lemma TypedKey(product: string, claim: string, typ: string)
    requires '.' !in product && ':' !in claim
    ensures ParseKey(product + "." + claim + ":" + typ) == Claim(product, claim, typ)
  {
    var rest := claim + ":" + typ;
    assert product + "." + claim + ":" + typ == product + ['.'] + rest;
    CutOf(product, '.', rest);
    CutOf(claim, ':', typ);
    assert (product + ['.'] + rest)[|product|] == '.';
  }

  lemma UntypedKey(product: string, claim: string)
    requires '.' !in product && ':' !in claim
    ensures ParseKey(product + "." + claim) == Claim(product, claim, "string")
  {
    CutOf(product, '.', claim);
    CutNoneIff(claim, ':');
    assert (product + "." + claim)[|product|] == '.';
  }

  /** What a key names: `uid`, `dn` and `sin` stand for themselves; of any other key the part before
      the first dot is the product, the part from there to the first colon the claim, and the rest
      its type, which is a string if there is no colon. */
  lemma ParseKeyMeaning(k: string, product: string, claim: string, typ: string)
    requires '.' !in product && ':' !in claim
    ensures '.' !in k ==>
              ParseKey(k) == match k case "uid" => FileId case "dn" => DisplayName case "sin" => SupportId case _ => BadKey
    ensures ParseKey(product + "." + claim) == Claim(product, claim, "string")
    ensures ParseKey(product + "." + claim + ":" + typ) == Claim(product, claim, typ)
  {
    PlainKey(k);
    UntypedKey(product, claim);
    TypedKey(product, claim, typ);
  }

  /** Only one key names a given claim as a string list. */
  lemma ListKeyUnique(k: string, p: string, c: string)
    requires ParseKey(k) == Claim(p, c, STRING_LIST)
    ensures k == p + "." + c + ":[]string"
  {
    CutJoins(k, '.');
    CutJoins(Cut(k, '.').value.1, ':');
  }

  // ---------- One parameter ----------

  /** The key stores a list of strings under a claim. */
  predicate ListKey(t: Target) {
    t.Claim? && t.claim != LID_CLAIM && t.claim != "" && t.typ == STRING_LIST
  }

  /** The value of a claim that is not a list. */
  function Scalar(ps: Parsers, typ: string, v: string): Option<Value> {
    match typ
    case "int" => if ps.int_(v).Some? then Some(Int64(ps.int_(v).value)) else None
    case "bool" => if ps.bool_(v).Some? then Some(Bool(ps.bool_(v).value)) else None
    case "float" => if ps.float_(v).Some? then Some(Float64(ps.float_(v).value)) else None
    case _ => Some(Str(v))
  }

  /** The parameter fails whatever was read before: an empty value list, a key without a dot,
      an exclusive claim that is not a list, a value that does not parse, too many values. */
  predicate Fails(ps: Parsers, t: Target, vs: seq<string>) {
    || vs == []
    || t.BadKey?
    || (t.Claim? && t.claim == EXCLUSIVE_CLAIM && t.typ != STRING_LIST)
    || (t.Claim? && t.claim != LID_CLAIM && t.claim != "" && t.typ != STRING_LIST && Scalar(ps, t.typ, vs[0]).None?)
    || (!ListKey(t) && |vs| > 1)
  }

  function ProductOf(c: GenClaims, name: string): GenProduct {
    if name in c.products then c.products[name] else NEW_PRODUCT
  }

  /** Appending to a claim that holds something other than a list of strings panics. */
  predicate AppendPanicsIn(p: GenProduct, t: Target) {
    ListKey(t) && t.claim in p.unknown && !p.unknown[t.claim].StrList?
  }

  predicate AppendPanics(c: GenClaims, t: Target) {
    t.Claim? && AppendPanicsIn(ProductOf(c, t.product), t)
  }

  function NewValue(ps: Parsers, p: GenProduct, t: Target, vs: seq<string>): Value
    requires t.Claim? && t.claim != LID_CLAIM && t.claim != "" && !Fails(ps, t, vs) && !AppendPanicsIn(p, t)
  {
    if t.typ == STRING_LIST then StrList((if t.claim in p.unknown then p.unknown[t.claim].strs else []) + vs)
    else Scalar(ps, t.typ, vs[0]).value
  }

  function WriteTo(ps: Parsers, p: GenProduct, t: Target, vs: seq<string>): GenProduct
    requires t.Claim? && !Fails(ps, t, vs) && !AppendPanicsIn(p, t)
  {
    if t.claim == LID_CLAIM then p.(licenseId := Given(vs[0]))
    else if t.claim == "" then p
    else p.(unknown := p.unknown[t.claim := NewValue(ps, p, t, vs)])
  }

  function Write(ps: Parsers, c: GenClaims, t: Target, vs: seq<string>): GenClaims
    requires !Fails(ps, t, vs) && !AppendPanics(c, t)
  {
    match t
    case FileId => c.(fileId := Given(vs[0]))
    case DisplayName => c.(displayName := vs[0])
    case SupportId => c.(supportId := vs[0])
    case Claim(name, _, _) => c.(products := c.products[name := WriteTo(ps, ProductOf(c, name), t, vs)])
  }

  /** One iteration; `None` is an error or a panic. */
  function Step(ps: Parsers, c: GenClaims, k: string, vs: seq<string>): Option<GenClaims> {
    var t := ParseKey(k);
    if Fails(ps, t, vs) || AppendPanics(c, t) then None else Some(Write(ps, c, t, vs))
  }

  function Run(ps: Parsers, params: Params, c: Option<GenClaims>, order: seq<string>): Option<GenClaims>
    requires forall k :: k in order ==> k in params
    decreases |order|
  {
    if order == [] || c.None? then c
    else Run(ps, params, Step(ps, c.value, order[0], params[order[0]]), order[1..])
  }

  /** An order in which the map can be iterated. */
  ghost predicate IsOrder(keys: set<string>, order: seq<string>) {
    && (forall k :: k in order <==> k in keys)
    && (forall i, j :: 0 <= i < j < |order| ==> order[i] != order[j])
  }

  /** `GenerateClaims`: a run over some order of the map, or over any order if one parameter fails
      on its own or all are compatible. */
  method GenerateClaims(ps: Parsers, params: Params) returns (r: Option<GenClaims>, ghost order: seq<string>)
    ensures IsOrder(params.Keys, order)
    ensures r == Run(ps, params, Some(NEW_CLAIMS), order)
    ensures AnyFails(ps, params) ==> r.None?
    ensures AllCompatible(ps, params) ==>
              forall any :: IsOrder(params.Keys, any) ==> r == Run(ps, params, Some(NEW_CLAIMS), any)
  {
    r, order := Some(NEW_CLAIMS), [];
    var todo := params.Keys;
    while todo != {} && r.Some?
      invariant todo <= params.Keys
      invariant IsOrder(params.Keys - todo, order)
      invariant r == Run(ps, params, Some(NEW_CLAIMS), order)
      decreases todo
    {
      var k :| k in todo;
      todo := todo - {k};
      RunSnoc(ps, params, Some(NEW_CLAIMS), order, k);
      r := Iterate(ps, r.value, k, params[k]);
      order := order + [k];
    }
    ghost var rest := todo;
    while rest != {}
      invariant rest <= params.Keys && IsOrder(params.Keys - rest, order)
      invariant r == Run(ps, params, Some(NEW_CLAIMS), order) && (rest != {} ==> r.None?)
      decreases rest
    {
      ghost var k :| k in rest;
      rest := rest - {k};
      RunSnoc(ps, params, Some(NEW_CLAIMS), order, k);
      order := order + [k];
    }
    assert params.Keys - rest == params.Keys;
    ReadsAnyOrder(ps, params, order);
  }

  /** The body of the loop. */
  method Iterate(ps: Parsers, c: GenClaims, k: string, values: seq<string>) returns (r: Option<GenClaims>)
    ensures r == Step(ps, c, k, values)
  {
    if values == [] {
      return None;
    }
    var multi, v := false, values[0];
    var claims := c;
    match ParseKey(k) {
      case FileId =>
        claims := claims.(fileId := Given(v));
      case DisplayName =>
        claims := claims.(displayName := v);
      case SupportId =>
        claims := claims.(supportId := v);
      case BadKey =>
        return None;
      case Claim(name, claim, typ) =>
        var product := NEW_PRODUCT;
        if name in claims.products {
          product := claims.products[name];
        }
        if claim == EXCLUSIVE_CLAIM && typ != STRING_LIST {
          return None;
        }
        if claim == LID_CLAIM {
          product := product.(licenseId := Given(v));
        } else if claim != "" {
          var tv;
          if typ == STRING_LIST {
            multi := true;
            var sa := [];
            if claim in product.unknown {
              if !product.unknown[claim].StrList? {
                return None;
              }
              sa := product.unknown[claim].strs;
            }
            tv := Some(StrList(sa + values));
          } else {
            tv := Scalar(ps, typ, v);
          }
          if tv.None? {
            return None;
          }
          product := product.(unknown := product.unknown[claim := tv.value]);
        }
        claims := claims.(products := claims.products[name := product]);
    }
    if !multi && |values| > 1 {
      return None;
    }
    return Some(claims);
  }

  lemma {:induction false} RunSnoc(ps: Parsers, params: Params, c: Option<GenClaims>, order: seq<string>, k: string)
    requires (forall x :: x in order ==> x in params) && k in params
    decreases |order|
    ensures var before := Run(ps, params, c, order);
            Run(ps, params, c, order + [k]) == if before.None? then None else Step(ps, before.value, k, params[k])
  {
    if order != [] && c.Some? {
      RunSnoc(ps, params, Step(ps, c.value, order[0], params[order[0]]), order[1..], k);
      assert (order + [k])[1..] == order[1..] + [k];
    }
  }

  // ---------- Which parameters go together ----------

  /** Two keys write the same place. */
  predicate SamePlace(t: Target, u: Target) {
    if t.Claim? && u.Claim? then t.product == u.product && t.claim == u.claim && t.claim != ""
    else t == u
  }

  /** Two parameters do not get in each other's way: they write different places, or the same
      value, which is not a list, to the same place. */
  predicate Compatible(ps: Parsers, t: Target, vs: seq<string>, u: Target, ws: seq<string>) {
    SamePlace(t, u) ==>
      !ListKey(t) && !ListKey(u) && vs != [] && ws != [] &&
      if t.Claim? && t.claim != LID_CLAIM then Scalar(ps, t.typ, vs[0]) == Scalar(ps, u.typ, ws[0])
      else vs[0] == ws[0]
  }

  lemma CommuteInProduct(ps: Parsers, p: GenProduct, t: Target, vs: seq<string>, u: Target, ws: seq<string>)
    requires t.Claim? && u.Claim? && t.product == u.product
    requires !Fails(ps, t, vs) && !Fails(ps, u, ws) && Compatible(ps, t, vs, u, ws)
    requires !AppendPanicsIn(p, t) && !AppendPanicsIn(p, u)
    ensures !AppendPanicsIn(WriteTo(ps, p, t, vs), u) && !AppendPanicsIn(WriteTo(ps, p, u, ws), t)
    ensures WriteTo(ps, WriteTo(ps, p, t, vs), u, ws) == WriteTo(ps, WriteTo(ps, p, u, ws), t, vs)
  {
  }

  lemma CommuteClaims(ps: Parsers, c: GenClaims, t: Target, vs: seq<string>, u: Target, ws: seq<string>)
    requires t.Claim? && u.Claim? && !Fails(ps, t, vs) && !Fails(ps, u, ws) && Compatible(ps, t, vs, u, ws)
    requires !AppendPanics(c, t) && !AppendPanics(c, u)
    ensures !AppendPanics(Write(ps, c, t, vs), u) && !AppendPanics(Write(ps, c, u, ws), t)
    ensures Write(ps, Write(ps, c, t, vs), u, ws) == Write(ps, Write(ps, c, u, ws), t, vs)
  {
    if t.product == u.product {
      CommuteInProduct(ps, ProductOf(c, t.product), t, vs, u, ws);
    }
    assert Write(ps, Write(ps, c, t, vs), u, ws).products == Write(ps, Write(ps, c, u, ws), t, vs).products;
  }

  lemma CommuteWrites(ps: Parsers, c: GenClaims, t: Target, vs: seq<string>, u: Target, ws: seq<string>)
    requires !Fails(ps, t, vs) && !Fails(ps, u, ws) && Compatible(ps, t, vs, u, ws)
    requires !AppendPanics(c, t) && !AppendPanics(c, u)
    ensures !AppendPanics(Write(ps, c, t, vs), u) && !AppendPanics(Write(ps, c, u, ws), t)
    ensures Write(ps, Write(ps, c, t, vs), u, ws) == Write(ps, Write(ps, c, u, ws), t, vs)
  {
    if t.Claim? && u.Claim? {
      CommuteClaims(ps, c, t, vs, u, ws);
    }
  }

  /** Compatible parameters can be read in either order: both orders fail, or both give the
      same claims. */
  lemma Commute(ps: Parsers, c: GenClaims, k: string, vs: seq<string>, l: string, ws: seq<string>)
    requires !Fails(ps, ParseKey(k), vs) && !Fails(ps, ParseKey(l), ws)
    requires Compatible(ps, ParseKey(k), vs, ParseKey(l), ws)
    ensures var a, b := Step(ps, c, k, vs), Step(ps, c, l, ws);
            (if a.None? then None else Step(ps, a.value, l, ws)) == (if b.None? then None else Step(ps, b.value, k, vs))
  {
    var t, u := ParseKey(k), ParseKey(l);
    if !AppendPanics(c, t) && !AppendPanics(c, u) {
      CommuteWrites(ps, c, t, vs, u, ws);
    }
  }

  // ---------- When the order does not matter ----------

  ghost predicate AnyFails(ps: Parsers, params: Params) {
    exists k :: k in params && Fails(ps, ParseKey(k), params[k])
  }

  ghost predicate AllCompatible(ps: Parsers, params: Params) {
    forall k, l :: k in params && l in params && k != l ==>
      Compatible(ps, ParseKey(k), params[k], ParseKey(l), params[l])
  }

  lemma {:induction false} RunConcat(ps: Parsers, params: Params, c: Option<GenClaims>, a: seq<string>, b: seq<string>)
    requires forall k :: k in a || k in b ==> k in params
    decreases |a|
    ensures Run(ps, params, c, a + b) == Run(ps, params, Run(ps, params, c, a), b)
  {
    if a == [] {
      assert a + b == b;
    } else if c.Some? {
      assert (a + b)[1..] == a[1..] + b;
      RunConcat(ps, params, Step(ps, c.value, a[0], params[a[0]]), a[1..], b);
    }
  }

  /** A key that is compatible with all keys of a stretch may be read before or after it. */
  lemma {:induction false} Bubble(ps: Parsers, params: Params, c: Option<GenClaims>, k: string, b: seq<string>)
    requires k in params && k !in b && forall l :: l in b ==> l in params
    requires !AnyFails(ps, params) && AllCompatible(ps, params)
    decreases |b|
    ensures Run(ps, params, c, [k] + b) == Run(ps, params, c, b + [k])
  {
    if b == [] {
      assert [k] + b == b + [k];
    } else if c.Some? {
      var l := b[0];
      var first := Step(ps, c.value, l, params[l]);
      Commute(ps, c.value, k, params[k], l, params[l]);
      Bubble(ps, params, first, k, b[1..]);
      assert ([k] + b)[1..] == b && ([k] + b[1..])[1..] == b[1..] && (b + [k])[1..] == b[1..] + [k];
      var second := Step(ps, c.value, k, params[k]);
      assert Run(ps, params, second, b) ==
             Run(ps, params, if second.None? then None else Step(ps, second.value, l, params[l]), b[1..]);
      assert Run(ps, params, first, [k] + b[1..]) ==
             Run(ps, params, if first.None? then None else Step(ps, first.value, k, params[k]), b[1..]);
    }
  }

  /** Any key of an order may be read first. */
  lemma MoveToFront(ps: Parsers, params: Params, c: Option<GenClaims>, b: seq<string>, i: nat)
    requires i < |b| && (forall k :: k in b ==> k in params) && forall j :: 0 <= j < i ==> b[j] != b[i]
    requires !AnyFails(ps, params) && AllCompatible(ps, params)
    ensures Run(ps, params, c, b) == Run(ps, params, Run(ps, params, c, [b[i]]), b[..i] + b[i + 1..])
  {
    var k, x, y := b[i], b[..i], b[i + 1..];
    assert b == x + [k] + y;
    RunConcat(ps, params, c, x + [k], y);
    Bubble(ps, params, c, k, x);
    RunConcat(ps, params, c, [k] + x, y);
    assert [k] + x + y == [k] + (x + y);
    RunConcat(ps, params, c, [k], x + y);
  }

  lemma {:induction false} OrdersAgree(ps: Parsers, params: Params, c: Option<GenClaims>,
                                       keys: set<string>, a: seq<string>, b: seq<string>)
    requires keys <= params.Keys && IsOrder(keys, a) && IsOrder(keys, b)
    requires !AnyFails(ps, params) && AllCompatible(ps, params)
    decreases |a|
    ensures Run(ps, params, c, a) == Run(ps, params, c, b)
  {
    if b != [] {
      assert b[0] in a;
    }
    if a != [] {
      var k := a[0];
      assert k in b;
      var i :| 0 <= i < |b| && b[i] == k;
      MoveToFront(ps, params, c, b, i);
      RunConcat(ps, params, c, [k], a[1..]);
      assert a == [k] + a[1..];
      WithoutKey(keys, a, 0);
      WithoutKey(keys, b, i);
      assert a[..0] + a[1..] == a[1..];
      OrdersAgree(ps, params, Run(ps, params, c, [k]), keys - {k}, a[1..], b[..i] + b[i + 1..]);
    }
  }

  lemma WithoutKey(keys: set<string>, order: seq<string>, i: nat)
    requires IsOrder(keys, order) && i < |order|
    ensures IsOrder(keys - {order[i]}, order[..i] + order[i + 1..])
  {
  }

  lemma {:induction false} FailureSpoilsAll(ps: Parsers, params: Params, c: Option<GenClaims>, order: seq<string>, k: string)
    requires (forall l :: l in order ==> l in params) && k in order && Fails(ps, ParseKey(k), params[k])
    decreases |order|
    ensures Run(ps, params, c, order).None?
  {
    if c.Some? && k != order[0] {
      FailureSpoilsAll(ps, params, Step(ps, c.value, order[0], params[order[0]]), order[1..], k);
    }
  }

  /** Any two iteration orders both fail, or both give the same claims, if one parameter fails
      on its own or all parameters are compatible. */
  lemma OrderIsIrrelevant(ps: Parsers, params: Params, a: seq<string>, b: seq<string>)
    requires IsOrder(params.Keys, a) && IsOrder(params.Keys, b)
    requires AnyFails(ps, params) || AllCompatible(ps, params)
    ensures Run(ps, params, Some(NEW_CLAIMS), a) == Run(ps, params, Some(NEW_CLAIMS), b)
  {
    if AnyFails(ps, params) {
      var k :| k in params && Fails(ps, ParseKey(k), params[k]);
      FailureSpoilsAll(ps, params, Some(NEW_CLAIMS), a, k);
      FailureSpoilsAll(ps, params, Some(NEW_CLAIMS), b, k);
    } else {
      OrdersAgree(ps, params, Some(NEW_CLAIMS), params.Keys, a, b);
    }
  }

  lemma ReadsAnyOrder(ps: Parsers, params: Params, order: seq<string>)
    requires IsOrder(params.Keys, order)
    ensures var r := Run(ps, params, Some(NEW_CLAIMS), order);
            && (AnyFails(ps, params) ==> r.None?)
            && (AllCompatible(ps, params) ==>
                  forall any :: IsOrder(params.Keys, any) ==> r == Run(ps, params, Some(NEW_CLAIMS), any))
  {
    if AnyFails(ps, params) {
      var k :| k in params && Fails(ps, ParseKey(k), params[k]);
      FailureSpoilsAll(ps, params, Some(NEW_CLAIMS), order, k);
    }
    forall any | IsOrder(params.Keys, any) && AllCompatible(ps, params)
      ensures Run(ps, params, Some(NEW_CLAIMS), order) == Run(ps, params, Some(NEW_CLAIMS), any)
    {
      OrderIsIrrelevant(ps, params, order, any);
    }
  }

  /** In particular, parameters that all name different claims are compatible. */
  lemma DifferentPlacesAreCompatible(ps: Parsers, params: Params)
    requires forall k, l :: k in params && l in params && k != l ==> !SamePlace(ParseKey(k), ParseKey(l))
    ensures AllCompatible(ps, params)
  {
  }

  lemma StepNamesNoLid(ps: Parsers, c: GenClaims, k: string, vs: seq<string>)
    requires (forall p :: p in c.products ==> "lid" !in c.products[p].unknown) && Step(ps, c, k, vs).Some?
    ensures forall p :: p in Step(ps, c, k, vs).value.products ==> "lid" !in Step(ps, c, k, vs).value.products[p].unknown
  {
    var t := ParseKey(k);
    assert t.Claim? ==> "lid" !in ProductOf(c, t.product).unknown;
  }

  /** The licence id of a product never lands among its other claims, in whatever order. */
  lemma {:induction false} LidIsNoClaim(ps: Parsers, params: Params, c: GenClaims, order: seq<string>)
    requires forall k :: k in order ==> k in params
    requires forall p :: p in c.products ==> "lid" !in c.products[p].unknown
    decreases |order|
    ensures var r := Run(ps, params, Some(c), order);
            r.Some? ==> forall p :: p in r.value.products ==> "lid" !in r.value.products[p].unknown
  {
    if order != [] {
      var next := Step(ps, c, order[0], params[order[0]]);
      assert Run(ps, params, Some(c), order) == Run(ps, params, next, order[1..]);
      if next.Some? {
        assert forall p :: p in next.value.products ==> "lid" !in next.value.products[p].unknown by {
          StepNamesNoLid(ps, c, order[0], params[order[0]]);
        }
        LidIsNoClaim(ps, params, next.value, order[1..]);
      }
    }
  }
}
