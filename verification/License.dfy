/** The data of package `license`: claim values as Go's dynamic types, products, and the
    claims of one licence file. */
module License {
  import opened Numbers

  datatype Option<+T> = None | Some(value: T)

  /** What a piece of the request handler does: it finishes, or it hits a Go run-time panic. */
  datatype Outcome<+T> = Done(value: T) | Panicked

  /** The dynamic types a claim value can have. JSON decoding yields `Float64`, `Bool`, `Str`,
      `List`, `Object` and `Null`; claim generation adds `Int64` and `StrList`. */
  datatype Value =
    | Int64(i: int64)
    | Float64(f: real)
    | Bool(b: bool)
    | Str(s: string)
    | StrList(strs: seq<string>)
    | List(elems: seq<Value>)
    | Object(fields: map<string, Value>)
    | Null

  /** Slices and maps cannot be map keys, and two of the same type cannot be compared. */
  predicate Hashable(v: Value) {
    !v.StrList? && !v.List? && !v.Object?
  }

  /** Go's `a != b` on interface values panics when both have the same uncomparable type. */
  predicate ComparePanics(a: Value, b: Value) {
    (a.StrList? && b.StrList?) || (a.List? && b.List?) || (a.Object? && b.Object?)
  }

  predicate SameKind(a: Value, b: Value) {
    && a.Int64? == b.Int64?
    && a.Float64? == b.Float64?
    && a.Bool? == b.Bool?
    && a.Str? == b.Str?
    && a.StrList? == b.StrList?
    && a.List? == b.List?
    && a.Object? == b.Object?
  }

  /** Two values are of one kind exactly if they have one dynamic type. */
  lemma SameKindIff(a: Value, b: Value)
    ensures SameKind(a, b) <==>
            || (a.Int64? && b.Int64?) || (a.Float64? && b.Float64?) || (a.Bool? && b.Bool?) || (a.Str? && b.Str?)
            || (a.StrList? && b.StrList?) || (a.List? && b.List?) || (a.Object? && b.Object?) || (a.Null? && b.Null?)
  {
  }

  const EXCLUSIVE_CLAIM := "exclusive"
  const LID_CLAIM := "lid"

  datatype Product = Product(licenseId: string, unknown: map<string, Value>)

  /** The claims of one licence. `iat` is the instant that `IssuedAt.Time()` yields; a product
      is `None` where the file holds a JSON null, which decodes to a nil pointer. */
  datatype Claims = Claims(
    id: string,
    fileId: string,
    subject: string,
    iat: int,
    nbf: Option<int>,
    exp: Option<int>,
    displayName: string,
    supportId: string,
    products: map<string, Option<Product>>)
}
