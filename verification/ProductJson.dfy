/** The JSON form of a product: a flat object with the licence id beside all other claims. */
module ProductJson {
  import opened Numbers
  import opened License
  import opened Aggregation
  import opened AggregationRules

  /** What decoding makes of an encoded value: all numbers become binary64, all lists generic. */
  function Normal(v: Value): Value {
    match v
    case Int64(i) => Float64(Round64(i as real))
    case StrList(ss) => List(seq(|ss|, i requires 0 <= i < |ss| => Str(ss[i])))
    case List(vs) => List(seq(|vs|, i requires 0 <= i < |vs| => Normal(vs[i])))
    case Object(m) => Object(map k | k in m :: Normal(m[k]))
    case _ => v
  }

  function NormalMap(m: map<string, Value>): map<string, Value> {
    map k | k in m :: Normal(m[k])
  }

  /** Decoded values come back from encoding and decoding as they are. */
  lemma {:induction false} DecodedStays(v: Value)
    requires Decoded(v)
    ensures Normal(v) == v
  {
    match v
    case List(vs) =>
      forall i | 0 <= i < |vs|
        ensures Normal(vs[i]) == vs[i]
      {
        DecodedStays(vs[i]);
      }
    case Object(m) =>
      forall k | k in m
        ensures Normal(m[k]) == m[k]
      {
        DecodedStays(m[k]);
      }
    case _ =>
  }

  /** Of the values that only generated claims have, a list of strings comes back as a generic
      list of the same strings, and an integer up to 2^53 as the same number. */
  lemma GeneratedChanges(i: int64, ss: seq<string>, k: nat)
    requires -0x20_0000_0000_0000 <= i <= 0x20_0000_0000_0000 && k < |ss|
    ensures Normal(Int64(i)) == Float64(i as real)
    ensures Normal(StrList(ss)).List? && |Normal(StrList(ss)).elems| == |ss| && Normal(StrList(ss)).elems[k] == Str(ss[k])
  {
    Round64Exact(i);
  }

  /** `Product.UnmarshalJSON`, on the decoded object. Whatever its `lid` is, encoding the product
      gives all other claims back; a string `lid` comes back, and anything else as "". */
  method UnmarshalJSON(data: map<string, Value>) returns (p: Product)
    ensures p == Unmarshalled(data) && "lid" !in p.unknown
    ensures p.unknown["lid" := Str(p.licenseId)] ==
            data["lid" := if "lid" in data && data["lid"].Str? then data["lid"] else Str("")]
  {
    var unknown := data;
    var lid := "";
    if LID_CLAIM in unknown && unknown[LID_CLAIM].Str? {
      lid := unknown[LID_CLAIM].s;
    }
    unknown := unknown - {LID_CLAIM};
    p := Product(lid, unknown);
  }

  function Unmarshalled(data: map<string, Value>): Product {
    Product(if LID_CLAIM in data && data[LID_CLAIM].Str? then data[LID_CLAIM].s else "", data - {LID_CLAIM})
  }

  /** `Product.MarshalJSON`, up to the encoding: copies the claims in any order. */
  method MarshalJSON(p: Product) returns (out: map<string, Value>)
    ensures out == p.unknown["lid" := Str(p.licenseId)]
  {
    out := map[];
    var todo := p.unknown.Keys;
    while todo != {}
      invariant todo <= p.unknown.Keys
      invariant out == map k | k in p.unknown && k !in todo :: p.unknown[k]
    {
      var k :| k in todo;
      todo := todo - {k};
      out := out[k := p.unknown[k]];
    }
    assert out == p.unknown;
    out := out[LID_CLAIM := Str(p.licenseId)];
  }

  /** Encoding and decoding a product gives it back, with its claims normalised, exactly if no
      claim is called `lid`; such a claim would be lost. */
  lemma MarshalThenUnmarshal(p: Product)
    ensures Unmarshalled(NormalMap(p.unknown["lid" := Str(p.licenseId)])) == Product(p.licenseId, NormalMap(p.unknown))
            <==> "lid" !in p.unknown
  {
  }

  /** Decoding and encoding an object gives it back exactly if its `lid` is a string. */
  lemma UnmarshalThenMarshal(data: map<string, Value>)
    ensures var p := Unmarshalled(data);
            p.unknown["lid" := Str(p.licenseId)] == data <==> "lid" in data && data["lid"].Str?
  {
  }

  lemma {:induction false} NormalIsDecoded(v: Value)
    ensures Decoded(Normal(v))
  {
    match v
    case List(vs) =>
      forall i | 0 <= i < |vs|
        ensures Decoded(Normal(vs[i]))
      {
        NormalIsDecoded(vs[i]);
      }
    case Object(m) =>
      forall k | k in m
        ensures Decoded(Normal(m[k]))
      {
        NormalIsDecoded(m[k]);
      }
    case _ =>
  }

  /** A product generated with an exclusive list, once signed, stored and read back, is accepted
      by the aggregation in no company: the list comes back in a format that is skipped. */
  lemma ExclusiveListsDoNotSurvive(p: Product, older: seq<Contribution>, expiry: Option<int>, dn: string, sin: string)
    requires EXCLUSIVE_CLAIM in p.unknown
    ensures var read := Unmarshalled(NormalMap(p.unknown[LID_CLAIM := Str(p.licenseId)]));
            !Accepts(older, Contribution(Some(read), expiry, dn, sin))
  {
  }
}
