/** What the generated claims hold: everything the parameters say, and nothing else. */
module ClaimsGenMeaning {
  import opened License
  import opened ClaimsGen

  predicate Names(t: Target, product: string, claim: string) {
    t.Claim? && t.product == product && t.claim == claim
  }

  /** One of the keys names the claim. */
  ghost predicate Named(keys: seq<string>, product: string, claim: string) {
    exists i :: 0 <= i < |keys| && Names(ParseKey(keys[i]), product, claim)
  }

  ghost predicate ProductNamed(keys: seq<string>, product: string) {
    exists i :: 0 <= i < |keys| && ParseKey(keys[i]).Claim? && ParseKey(keys[i]).product == product
  }

  /** What a parameter says about a claim: a list as it is, of any other type the first value. */
  function Meant(ps: Parsers, typ: string, vs: seq<string>): Option<Value>
    requires vs != []
  {
    if typ == STRING_LIST then Some(StrList(vs)) else Scalar(ps, typ, vs[0])
  }

  /** The claims hold what the parameter says. */
  ghost predicate Says(ps: Parsers, c: GenClaims, t: Target, vs: seq<string>)
    requires vs != []
  {
    match t
    case FileId => c.fileId == Given(vs[0])
    case DisplayName => c.displayName == vs[0]
    case SupportId => c.supportId == vs[0]
    case BadKey => false
    case Claim(product, claim, typ) =>
      product in c.products &&
      var p := c.products[product];
      if claim == LID_CLAIM then p.licenseId == Given(vs[0])
      else if claim == "" then true
      else claim in p.unknown && Some(p.unknown[claim]) == Meant(ps, typ, vs)
  }

  ghost predicate AllSaid(ps: Parsers, params: Params, keys: seq<string>, c: GenClaims) {
    forall i :: 0 <= i < |keys| ==> keys[i] in params && params[keys[i]] != [] && Says(ps, c, ParseKey(keys[i]), params[keys[i]])
  }

  ghost predicate OnlyNamed(keys: seq<string>, name: string, p: GenProduct) {
    && (p.licenseId != Generated ==> Named(keys, name, LID_CLAIM))
    && (forall q :: q in p.unknown ==> q != "" && q != LID_CLAIM && Named(keys, name, q))
  }

  /** The claims hold nothing that the keys do not name. */
  ghost predicate NothingElse(keys: seq<string>, c: GenClaims) {
    && (c.fileId != Generated ==> "uid" in keys)
    && (c.displayName != "" ==> "dn" in keys)
    && (c.supportId != "" ==> "sin" in keys)
    && (forall name :: name in c.products ==> ProductNamed(keys, name) && OnlyNamed(keys, name, c.products[name]))
  }

  /** A compatible parameter leaves what an earlier one said. */
  lemma SaidStays(ps: Parsers, c: GenClaims, t: Target, vs: seq<string>, u: Target, ws: seq<string>)
    requires vs != [] && Says(ps, c, t, vs) && !Fails(ps, t, vs)
    requires !Fails(ps, u, ws) && !AppendPanics(c, u) && Compatible(ps, t, vs, u, ws)
    ensures Says(ps, Write(ps, c, u, ws), t, vs)
  {
  }

  /** A parameter says what it means, unless it appends to a list that was there before. */
  lemma WriteSays(ps: Parsers, c: GenClaims, t: Target, vs: seq<string>)
    requires !Fails(ps, t, vs) && !AppendPanics(c, t)
    requires ListKey(t) ==> t.claim !in ProductOf(c, t.product).unknown
    ensures Says(ps, Write(ps, c, t, vs), t, vs)
  {
    assert [] + vs == vs;
  }

  lemma NamedGrows(keys: seq<string>, k: string, product: string, claim: string)
    ensures Named(keys + [k], product, claim) <==> Named(keys, product, claim) || Names(ParseKey(k), product, claim)
    ensures ProductNamed(keys + [k], product) <==>
            ProductNamed(keys, product) || (ParseKey(k).Claim? && ParseKey(k).product == product)
  {
    var more := keys + [k];
    assert more[|keys|] == k;
    assert forall i :: 0 <= i < |keys| ==> more[i] == keys[i];
    if i :| 0 <= i < |keys| && Names(ParseKey(keys[i]), product, claim) {
      assert Names(ParseKey(more[i]), product, claim);
    }
    if i :| 0 <= i < |keys| && ParseKey(keys[i]).Claim? && ParseKey(keys[i]).product == product {
      assert ParseKey(more[i]).Claim?;
    }
  }

  lemma OnlyNamedGrows(keys: seq<string>, k: string, name: string, p: GenProduct)
    requires OnlyNamed(keys, name, p)
    ensures OnlyNamed(keys + [k], name, p)
  {
    forall q
      ensures Named(keys, name, q) ==> Named(keys + [k], name, q)
    {
      NamedGrows(keys, k, name, q);
    }
  }

  lemma WrittenIsNamed(ps: Parsers, p: GenProduct, keys: seq<string>, k: string, vs: seq<string>)
    requires ParseKey(k).Claim? && !Fails(ps, ParseKey(k), vs) && !AppendPanicsIn(p, ParseKey(k))
    requires OnlyNamed(keys, ParseKey(k).product, p)
    ensures OnlyNamed(keys + [k], ParseKey(k).product, WriteTo(ps, p, ParseKey(k), vs))
  {
    OnlyNamedGrows(keys, k, ParseKey(k).product, p);
    NamedGrows(keys, k, ParseKey(k).product, ParseKey(k).claim);
  }

  lemma TopLevelKeys(k: string)
    ensures ParseKey(k).FileId? ==> k == "uid"
    ensures ParseKey(k).DisplayName? ==> k == "dn"
    ensures ParseKey(k).SupportId? ==> k == "sin"
  {
  }

  lemma ProductsGrow(ps: Parsers, c: GenClaims, keys: seq<string>, k: string, vs: seq<string>, name: string)
    requires NothingElse(keys, c) && !Fails(ps, ParseKey(k), vs) && !AppendPanics(c, ParseKey(k))
    requires name in Write(ps, c, ParseKey(k), vs).products
    ensures ProductNamed(keys + [k], name) && OnlyNamed(keys + [k], name, Write(ps, c, ParseKey(k), vs).products[name])
  {
    NamedGrows(keys, k, name, LID_CLAIM);
    if ParseKey(k).Claim? && ParseKey(k).product == name {
      WrittenIsNamed(ps, ProductOf(c, name), keys, k, vs);
    } else {
      OnlyNamedGrows(keys, k, name, c.products[name]);
    }
  }

  lemma NothingElseGrows(ps: Parsers, c: GenClaims, keys: seq<string>, k: string, vs: seq<string>)
    requires NothingElse(keys, c) && !Fails(ps, ParseKey(k), vs) && !AppendPanics(c, ParseKey(k))
    ensures NothingElse(keys + [k], Write(ps, c, ParseKey(k), vs))
  {
    TopLevelKeys(k);
    forall name | name in Write(ps, c, ParseKey(k), vs).products
      ensures ProductNamed(keys + [k], name) && OnlyNamed(keys + [k], name, Write(ps, c, ParseKey(k), vs).products[name])
    {
      ProductsGrow(ps, c, keys, k, vs, name);
    }
  }

  /** A list key shares its claim with no other key, so nothing is there before it is read. */
  lemma ListIsNew(ps: Parsers, params: Params, c: GenClaims, keys: seq<string>, k: string)
    requires AllCompatible(ps, params) && NothingElse(keys, c) && k in params && k !in keys
    requires (forall j :: j in keys ==> j in params) && ListKey(ParseKey(k))
    ensures ParseKey(k).claim !in ProductOf(c, ParseKey(k).product).unknown
  {
    var t := ParseKey(k);
    forall i | 0 <= i < |keys|
      ensures !Names(ParseKey(keys[i]), t.product, t.claim)
    {
      assert keys[i] in params && k != keys[i];
      assert Compatible(ps, t, params[k], ParseKey(keys[i]), params[keys[i]]);
    }
  }

  lemma OneMoreParameter(ps: Parsers, params: Params, c: GenClaims, keys: seq<string>, k: string)
    requires !AnyFails(ps, params) && AllCompatible(ps, params) && k in params && k !in keys
    requires AllSaid(ps, params, keys, c) && NothingElse(keys, c)
    ensures Step(ps, c, k, params[k]).Some?
    ensures var d := Step(ps, c, k, params[k]).value; AllSaid(ps, params, keys + [k], d) && NothingElse(keys + [k], d)
  {
    var t, vs := ParseKey(k), params[k];
    if ListKey(t) {
      ListIsNew(ps, params, c, keys, k);
    }
    var d := Write(ps, c, t, vs);
    WriteSays(ps, c, t, vs);
    NothingElseGrows(ps, c, keys, k, vs);
    forall i | 0 <= i < |keys|
      ensures Says(ps, d, ParseKey(keys[i]), params[keys[i]])
    {
      SaidStays(ps, c, ParseKey(keys[i]), params[keys[i]], t, vs);
    }
  }

  lemma {:induction false} MeaningAfter(ps: Parsers, params: Params, keys: seq<string>)
    requires !AnyFails(ps, params) && AllCompatible(ps, params)
    requires forall k :: k in keys ==> k in params
    requires forall i, j :: 0 <= i < j < |keys| ==> keys[i] != keys[j]
    ensures var r := Run(ps, params, Some(NEW_CLAIMS), keys);
            r.Some? && AllSaid(ps, params, keys, r.value) && NothingElse(keys, r.value)
  {
    if keys != [] {
      var n := |keys| - 1;
      assert keys == keys[..n] + [keys[n]];
      MeaningAfter(ps, params, keys[..n]);
      RunSnoc(ps, params, Some(NEW_CLAIMS), keys[..n], keys[n]);
      OneMoreParameter(ps, params, Run(ps, params, Some(NEW_CLAIMS), keys[..n]).value, keys[..n], keys[n]);
    }
  }

  /** If no two parameters get in each other's way, the generator succeeds exactly if no
      parameter fails on its own, and the claims then hold what the parameters say, and nothing
      else. */
  lemma GeneratedMeaning(ps: Parsers, params: Params, order: seq<string>)
    requires IsOrder(params.Keys, order) && AllCompatible(ps, params)
    ensures var r := Run(ps, params, Some(NEW_CLAIMS), order);
            && (r.Some? <==> !AnyFails(ps, params))
            && (r.Some? ==> AllSaid(ps, params, order, r.value) && NothingElse(order, r.value))
  {
    if AnyFails(ps, params) {
      var k :| k in params && Fails(ps, ParseKey(k), params[k]);
      FailureSpoilsAll(ps, params, Some(NEW_CLAIMS), order, k);
    } else {
      MeaningAfter(ps, params, order);
    }
  }
  // ---------- The same in terms of the keys ----------

  /** When a parameter for a claim fails: without a value; an exclusive list of another type; more
      than one value for anything but a list of strings; a value that its type does not parse. */
  lemma ClaimKeyFailsIff(ps: Parsers, product: string, claim: string, typ: string, vs: seq<string>)
    requires '.' !in product && ':' !in claim
    ensures Fails(ps, ParseKey(product + "." + claim + ":" + typ), vs) <==>
            || vs == []
            || (claim == "exclusive" && typ != "[]string")
            || (|vs| > 1 && (typ != "[]string" || claim == "lid" || claim == ""))
            || (claim != "lid" && claim != "" &&
                ((typ == "int" && ps.int_(vs[0]).None?) || (typ == "bool" && ps.bool_(vs[0]).None?) ||
                 (typ == "float" && ps.float_(vs[0]).None?)))
  {
    TypedKey(product, claim, typ);
  }

  /** Any other key fails if it has no dot, and `uid`, `dn` and `sin` without exactly one value. */
  lemma OtherKeyFailsIff(ps: Parsers, k: string, vs: seq<string>)
    requires '.' !in k
    ensures Fails(ps, ParseKey(k), vs) <==> k !in {"uid", "dn", "sin"} || |vs| != 1
  {
    PlainKey(k);
  }

  lemma SaidByKey(ps: Parsers, params: Params, order: seq<string>, k: string)
    requires IsOrder(params.Keys, order) && AllCompatible(ps, params) && k in params
    requires Run(ps, params, Some(NEW_CLAIMS), order).Some?
    ensures params[k] != [] && Says(ps, Run(ps, params, Some(NEW_CLAIMS), order).value, ParseKey(k), params[k])
  {
    GeneratedMeaning(ps, params, order);
    assert k in order;
    var i :| 0 <= i < |order| && order[i] == k;
    assert Says(ps, Run(ps, params, Some(NEW_CLAIMS), order).value, ParseKey(order[i]), params[order[i]]);
  }

  /** What the generated claims hold for a key: the list of strings as it is; of any other type the
      one value, parsed as that type says; the licence id of the product for `lid`. */
  lemma GeneratedClaim(ps: Parsers, params: Params, order: seq<string>, product: string, claim: string, typ: string)
    requires IsOrder(params.Keys, order) && AllCompatible(ps, params)
    requires Run(ps, params, Some(NEW_CLAIMS), order).Some?
    requires '.' !in product && ':' !in claim && claim != ""
    ensures product + "." + claim + ":" + typ in params ==>
              var vs := params[product + "." + claim + ":" + typ];
              var r := Run(ps, params, Some(NEW_CLAIMS), order).value;
              vs != [] && product in r.products &&
              if claim == "lid" then r.products[product].licenseId == Given(vs[0])
              else
                claim in r.products[product].unknown &&
                var v := r.products[product].unknown[claim];
                if typ == "[]string" then v == StrList(vs)
                else if typ == "int" then v.Int64? && ps.int_(vs[0]) == Some(v.i)
                else if typ == "bool" then v.Bool? && ps.bool_(vs[0]) == Some(v.b)
                else if typ == "float" then v.Float64? && ps.float_(vs[0]) == Some(v.f)
                else v == Str(vs[0])
    ensures product + "." + claim in params && claim != "lid" ==>
              var vs := params[product + "." + claim];
              var r := Run(ps, params, Some(NEW_CLAIMS), order).value;
              vs != [] && product in r.products &&
              claim in r.products[product].unknown && r.products[product].unknown[claim] == Str(vs[0])
  {
    var untyped, typed := product + "." + claim, product + "." + claim + ":" + typ;
    TypedKey(product, claim, typ);
    UntypedKey(product, claim);
    if typed in params {
      SaidByKey(ps, params, order, typed);
    }
    if untyped in params {
      SaidByKey(ps, params, order, untyped);
    }
  }

  lemma TopLevelKey(ps: Parsers, params: Params, order: seq<string>, k: string)
    requires IsOrder(params.Keys, order) && AllCompatible(ps, params) && k in params && '.' !in k
    requires Run(ps, params, Some(NEW_CLAIMS), order).Some?
    ensures |params[k]| == 1 && k in {"uid", "dn", "sin"}
    ensures var r, v := Run(ps, params, Some(NEW_CLAIMS), order).value, params[k][0];
            match k case "uid" => r.fileId == Given(v) case "dn" => r.displayName == v case _ => r.supportId == v
  {
    GeneratedMeaning(ps, params, order);
    SaidByKey(ps, params, order, k);
    OtherKeyFailsIff(ps, k, params[k]);
    PlainKey(k);
  }

  /** There is no product or claim that no key names. */
  lemma GeneratedNothingElse(ps: Parsers, params: Params, order: seq<string>, product: string, claim: string)
    requires IsOrder(params.Keys, order) && AllCompatible(ps, params)
    requires Run(ps, params, Some(NEW_CLAIMS), order).Some?
    ensures var r := Run(ps, params, Some(NEW_CLAIMS), order).value;
            product in r.products ==>
              && (exists k, c, t :: k in params && ParseKey(k) == Claim(product, c, t))
              && (claim in r.products[product].unknown ==>
                    claim != "" && claim != "lid" && exists k, t :: k in params && ParseKey(k) == Claim(product, claim, t))
              && (r.products[product].licenseId != Generated ==>
                    exists k, t :: k in params && ParseKey(k) == Claim(product, "lid", t))
  {
    var r := Run(ps, params, Some(NEW_CLAIMS), order).value;
    GeneratedMeaning(ps, params, order);
    if product in r.products {
      var i :| 0 <= i < |order| && ParseKey(order[i]).Claim? && ParseKey(order[i]).product == product;
      var t := ParseKey(order[i]);
      assert order[i] in params && t == Claim(product, t.claim, t.typ);
      if claim in r.products[product].unknown {
        var j :| 0 <= j < |order| && Names(ParseKey(order[j]), product, claim);
        var u := ParseKey(order[j]);
        assert order[j] in params && u == Claim(product, claim, u.typ);
      }
      if r.products[product].licenseId != Generated {
        var j :| 0 <= j < |order| && Names(ParseKey(order[j]), product, "lid");
        var u := ParseKey(order[j]);
        assert order[j] in params && u == Claim(product, "lid", u.typ);
      }
    }
  }

  /** And for the keys that stand for themselves, with what is there if they are missing. */
  lemma GeneratedNames(ps: Parsers, params: Params, order: seq<string>)
    requires IsOrder(params.Keys, order) && AllCompatible(ps, params)
    requires Run(ps, params, Some(NEW_CLAIMS), order).Some?
    ensures var r := Run(ps, params, Some(NEW_CLAIMS), order).value;
            && (if "uid" in params then |params["uid"]| == 1 && r.fileId == Given(params["uid"][0]) else r.fileId == Generated)
            && (if "dn" in params then params["dn"] == [r.displayName] else r.displayName == "")
            && (if "sin" in params then params["sin"] == [r.supportId] else r.supportId == "")
  {
    GeneratedMeaning(ps, params, order);
    NoDots();
    if "uid" in params {
      TopLevelKey(ps, params, order, "uid");
    }
    if "dn" in params {
      TopLevelKey(ps, params, order, "dn");
    }
    if "sin" in params {
      TopLevelKey(ps, params, order, "sin");
    }
  }

  lemma NoDots()
    ensures '.' !in "uid" && '.' !in "dn" && '.' !in "sin"
  {
  }
}
