/** Which licence files a folder scan takes: the key selection of safe mode, verification,
    validity in time, and the subject check. */
module Scan {
  import opened License

  type Key = int

  /** The check of a token's certificate chain against the configured roots: an error, or the
      public key of the leaf certificate if the chain has one. */
  datatype Chain = ChainError | ChainKey(key: Option<Key>)

  /** A parsed signed token. `claimsUnder` holds, for every key that verifies the signature,
      the claims that decode under it. */
  datatype Token = Token(headers: nat, alg: string, kid: string, chain: Chain, claimsUnder: map<Key, Claims>)

  datatype Content = Directory | Unopenable | Unreadable | Unparsable | Signed(token: Token)

  datatype File = File(name: string, content: Content)

  /** What the loader may verify with: the online key set by key id, if one was fetched;
      whether the server is offline; and whether there is a pool of root certificates. */
  datatype Keys = Keys(jwks: Option<map<string, Key>>, offline: bool, certPool: bool)

  /** A day, in seconds. */
  const LEEWAY: int := 24 * 60 * 60

  predicate KnownAlgorithm(alg: string) {
    alg == "EdDSA" || alg == "ES256" || alg == "ES384" || alg == "ES512"
  }

  /** The key for a token in safe mode. */
  function SelectKey(keys: Keys, t: Token): Option<Key> {
    if keys.jwks.Some? then
      if t.kid in keys.jwks.value then Some(keys.jwks.value[t.kid]) else None
    else if !keys.offline || !keys.certPool || t.chain.ChainError? then None
    else t.chain.key
  }

  /** `ValidateWithLeeway` at a point in time (sections 4.1.4 to 4.1.6 of RFC 7519). */
  predicate ValidAt(c: Claims, now: int) {
    && (c.nbf.Some? ==> c.nbf.value <= now + LEEWAY)
    && (c.exp.Some? ==> now - LEEWAY <= c.exp.value)
    && c.iat <= now + LEEWAY
  }

  predicate White(c: char) {
    c in ['\t', '\n', '\U{0B}', '\U{0C}', '\r', ' ', '\U{85}', '\U{A0}', '\U{1680}', '\U{2028}', '\U{2029}',
          '\U{202F}', '\U{205F}', '\U{3000}'] ||
    '\U{2000}' <= c <= '\U{200A}'
  }

  /** `TrimSpace` leaves nothing. */
  predicate Blank(s: string) {
    forall i :: 0 <= i < |s| ==> White(s[i])
  }

  /** A licence without an id of its own is known by its file name. */
  function Identified(c: Claims, name: string): Claims {
    if c.id == "" then c.(id := name) else c
  }

  /** The claims a file contributes, if it is taken. */
  function Taken(f: File, keys: Keys, now: int): Option<Claims> {
    if f.content.Signed? then TakenUnder(f, SelectKey(keys, f.content.token), now) else None
  }

  /** The claims a file contributes, if it is taken with this key. */
  function TakenUnder(f: File, key: Option<Key>, now: int): Option<Claims> {
    if !f.content.Signed? then None
    else
      var t := f.content.token;
      if t.headers != 1 || !KnownAlgorithm(t.alg) || key.None? || key.value !in t.claimsUnder then None
      else
        var c := t.claimsUnder[key.value];
        if ValidAt(c, now) && !Blank(c.subject) then Some(Identified(c, f.name)) else None
  }

  /** The claims of a folder, in directory order. */
  function ClaimsIn(files: seq<File>, keys: Keys, now: int): seq<Claims> {
    if files == [] then []
    else
      var f := files[|files| - 1];
      ClaimsIn(files[..|files| - 1], keys, now) +
      if Taken(f, keys, now).Some? then [Taken(f, keys, now).value] else []
  }

  /** The body of the scan loop. */
  method ReadFile(f: File, keys: Keys, now: int) returns (r: Option<Claims>)
    ensures r == Taken(f, keys, now)
  {
    if !f.content.Signed? {
      return None;
    }
    var t := f.content.token;
    if t.headers != 1 {
      return None;
    }
    match t.alg {
      case "EdDSA" =>
      case "ES256" =>
      case "ES384" =>
      case "ES512" =>
      case _ => return None;
    }
    var key: Option<Key> := None;
    if keys.jwks.Some? {
      if t.kid !in keys.jwks.value {
        return None;
      }
      key := Some(keys.jwks.value[t.kid]);
    }
    if key.None? {
      if !keys.offline {
        return None;
      }
      if keys.certPool {
        if t.chain.ChainError? {
          return None;
        }
        key := t.chain.key;
      }
      if key.None? {
        return None;
      }
    }
    if key.value !in t.claimsUnder {
      return None;
    }
    var c := t.claimsUnder[key.value];
    if c.id == "" {
      c := c.(id := f.name);
    }
    if !ValidAt(c, now) {
      return None;
    }
    if Blank(c.subject) {
      return None;
    }
    return Some(c);
  }

  // ---------- What a taken licence is worth ----------

  /** Keys the operator trusts for a token: the online key of its key id; without an online
      key set, and only while offline, the key of a chain that leads to a trusted root. */
  ghost predicate Trusted(keys: Keys, t: Token, k: Key) {
    if keys.jwks.Some? then t.kid in keys.jwks.value && keys.jwks.value[t.kid] == k
    else keys.offline && keys.certPool && t.chain == ChainKey(Some(k))
  }

  /** The decoded claims `d` of a file become the claims `c`: the id is the licence's own, or else
      the name of the file, and nothing else changes. */
  ghost predicate Named(c: Claims, d: Claims, name: string) {
    c == d.(id := c.id) && c.id == if d.id != "" then d.id else name
  }

  /** A signed token, verified under a key that the operator trusts for it. */
  ghost predicate Verified(keys: Keys, t: Token, k: Key) {
    t.headers == 1 && t.alg in {"EdDSA", "ES256", "ES384", "ES512"} && Trusted(keys, t, k) && k in t.claimsUnder
  }

  /** File `f` yields the claims `c`, verified under key `k`: valid now, by a day more than their
      dates say, and with a subject that has a character that is not white space. */
  ghost predicate Yields(f: File, keys: Keys, now: int, k: Key, c: Claims) {
    f.content.Signed? && Verified(keys, f.content.token, k) &&
    var d := f.content.token.claimsUnder[k];
    && Named(c, d, f.name)
    && (d.nbf.Some? ==> d.nbf.value - 86400 <= now) && d.iat - 86400 <= now
    && (d.exp.Some? ==> now <= d.exp.value + 86400)
    && exists i :: 0 <= i < |d.subject| && !Space(d.subject[i] as int)
  }

  /** The code points of white space. */
  predicate Space(n: int) {
    9 <= n <= 13 || n == 32 || n == 0x85 || n == 0xA0 || n == 0x1680 || 0x2000 <= n <= 0x200A ||
    0x2028 <= n <= 0x2029 || n == 0x202F || n == 0x205F || n == 0x3000
  }

  lemma WhiteIsSpace(c: char)
    ensures White(c) <==> Space(c as int)
  {
  }

  lemma BlankIff(s: string)
    ensures Blank(s) <==> forall i :: 0 <= i < |s| ==> Space(s[i] as int)
  {
    forall i | 0 <= i < |s|
      ensures White(s[i]) <==> Space(s[i] as int)
    {
      WhiteIsSpace(s[i]);
    }
  }

  lemma TakenIff(f: File, keys: Keys, now: int, c: Claims)
    ensures Taken(f, keys, now) == Some(c) <==> exists k :: Yields(f, keys, now, k, c)
  {
    if f.content.Signed? {
      var t := f.content.token;
      forall k | k in t.claimsUnder
        ensures Blank(t.claimsUnder[k].subject) <==>
                forall i :: 0 <= i < |t.claimsUnder[k].subject| ==> Space(t.claimsUnder[k].subject[i] as int)
      {
        BlankIff(t.claimsUnder[k].subject);
      }
      if SelectKey(keys, t).Some? {
        var k := SelectKey(keys, t).value;
        assert Taken(f, keys, now) == Some(c) <==> Yields(f, keys, now, k, c);
      }
      assert forall k :: Trusted(keys, t, k) <==> SelectKey(keys, t) == Some(k);
    }
  }

  /** A folder yields exactly the claims of its files that are one signed token with a known
      algorithm, verified under a trusted key, valid now, and naming a customer. */
  lemma {:induction false} TakenOnlyIfVerified(files: seq<File>, keys: Keys, now: int, c: Claims)
    ensures c in ClaimsIn(files, keys, now) <==> exists i, k :: 0 <= i < |files| && Yields(files[i], keys, now, k, c)
  {
    if files != [] {
      var older, f := files[..|files| - 1], files[|files| - 1];
      TakenOnlyIfVerified(older, keys, now, c);
      TakenIff(f, keys, now, c);
      assert forall i :: 0 <= i < |older| ==> older[i] == files[i];
    }
  }

  /** Once a key set was fetched, being offline never helps a file with an unknown key id. */
  lemma UnknownKeyIdRejected(f: File, keys: Keys, now: int)
    requires keys.jwks.Some? && f.content.Signed? && f.content.token.kid !in keys.jwks.value
    ensures Taken(f, keys, now).None?
  {
  }

  /** With fixed files and keys, the times at which one file is taken form an interval. */
  lemma TakenIsInterval(f: File, keys: Keys, t0: int, t1: int, t2: int)
    requires t0 <= t1 <= t2 && Taken(f, keys, t0).Some? && Taken(f, keys, t2).Some?
    ensures Taken(f, keys, t1) == Taken(f, keys, t0) == Taken(f, keys, t2)
  {
  }

  // ---------- The documented dates ----------

  /** From when a licence is valid according to the documentation: `nbf`, or else `iat`. */
  function DocumentedStart(c: Claims): int {
    if c.nbf.Some? then c.nbf.value else c.iat
  }

  predicate DocumentedValidAt(c: Claims, now: int) {
    DocumentedStart(c) <= now && (c.exp.Some? ==> now <= c.exp.value)
  }

  /** From when the code takes a licence to be valid: a day before the later of `nbf` and `iat`. */
  function Start(c: Claims): int {
    (if c.nbf.Some? && c.nbf.value > c.iat then c.nbf.value else c.iat) - LEEWAY
  }

  predicate NotAfter(c: Claims, now: int, leeway: int) {
    c.exp.Some? ==> now <= c.exp.value + leeway
  }

  /** Both validities are intervals: the code's ends a day after `exp`, and starts a day before
      the later of `nbf` and `iat`, which may be before or after the documented start. */
  lemma ValidityIntervals(c: Claims, now: int)
    ensures ValidAt(c, now) <==> Start(c) <= now && NotAfter(c, now, 86400)
    ensures DocumentedValidAt(c, now) <==> DocumentedStart(c) <= now && NotAfter(c, now, 0)
    ensures Start(c) <= DocumentedStart(c) <==> c.nbf.None? || c.iat <= c.nbf.value + LEEWAY
  {
  }

  /** Between the two starts, and not after the end that belongs to the earlier one. */
  predicate BetweenStarts(c: Claims, now: int) {
    if Start(c) <= DocumentedStart(c) then Start(c) <= now < DocumentedStart(c) && NotAfter(c, now, LEEWAY)
    else DocumentedStart(c) <= now < Start(c) && NotAfter(c, now, 0)
  }

  /** Between the two ends. */
  predicate BetweenEnds(c: Claims, now: int) {
    c.exp.Some? && c.exp.value < now <= c.exp.value + LEEWAY && Start(c) <= now
  }

  /** The code disagrees with the documented dates exactly between the two starts of validity
      and between the two ends. */
  lemma DatesAgreeIff(c: Claims, now: int)
    ensures ValidAt(c, now) == DocumentedValidAt(c, now) <==> !BetweenStarts(c, now) && !BetweenEnds(c, now)
  {
    ValidityIntervals(c, now);
  }

  /** A licence that expired at time 99 is still taken at time 100, and one that may be used
      from time 0 on, but was issued two days later, is not yet taken. */
  lemma DatesDiffer(c: Claims, t: Token)
    requires c.subject == "customer" && t.headers == 1 && t.alg == "ES256" && t.kid == "key"
    ensures var keys := Keys(Some(map["key" := 1]), false, false);
            var expired := c.(nbf := Some(0), iat := 0, exp := Some(99));
            var ahead := c.(nbf := Some(0), iat := 2 * LEEWAY, exp := None);
            && Taken(File("f", Signed(t.(claimsUnder := map[1 := expired]))), keys, 100).Some?
            && !DocumentedValidAt(expired, 100)
            && Taken(File("f", Signed(t.(claimsUnder := map[1 := ahead]))), keys, 100).None?
            && DocumentedValidAt(ahead, 100)
  {
    assert !White("customer"[0]);
  }

  // ---------- The commented key selection ----------

  /** The key for a token as the comment on being offline describes it: the online key of its key
      id, and while offline, if there is none, that of a chain to a trusted root. */
  function CommentedKey(keys: Keys, t: Token): Option<Key> {
    if keys.jwks.Some? && t.kid in keys.jwks.value then Some(keys.jwks.value[t.kid])
    else if keys.offline && keys.certPool && t.chain.ChainKey? then t.chain.key
    else None
  }

  function TakenAsCommented(f: File, keys: Keys, now: int): Option<Claims> {
    if f.content.Signed? then TakenUnder(f, CommentedKey(keys, f.content.token), now) else None
  }

  /** Offline, a key set is present without the file's key id, and the file would be taken under
      the key of its certificate chain: one token with a known algorithm that verifies under that
      key, valid now, and naming a customer. */
  predicate Rescued(f: File, keys: Keys, now: int) {
    keys.jwks.Some? && keys.offline && keys.certPool && f.content.Signed? &&
    var t := f.content.token;
    t.kid !in keys.jwks.value && t.headers == 1 && KnownAlgorithm(t.alg) &&
    t.chain.ChainKey? && t.chain.key.Some? && t.chain.key.value in t.claimsUnder &&
    var c := t.claimsUnder[t.chain.key.value];
    ValidAt(c, now) && !Blank(c.subject)
  }

  /** The code takes a file as the comment describes exactly if the file is not one of those. */
  lemma CommentedKeyIff(f: File, keys: Keys, now: int)
    ensures Taken(f, keys, now) == TakenAsCommented(f, keys, now) <==> !Rescued(f, keys, now)
  {
  }

  /** Over a whole folder: the same claims are scanned exactly if no file is one of those. */
  lemma {:induction false} CommentedScanIff(files: seq<File>, keys: Keys, now: int)
    ensures |ClaimsIn(files, keys, now)| <= |ClaimsAsCommented(files, keys, now)|
    ensures ClaimsIn(files, keys, now) == ClaimsAsCommented(files, keys, now) <==>
            forall i :: 0 <= i < |files| ==> !Rescued(files[i], keys, now)
    ensures |ClaimsIn(files, keys, now)| == |ClaimsAsCommented(files, keys, now)| ==>
              ClaimsIn(files, keys, now) == ClaimsAsCommented(files, keys, now)
  {
    if files != [] {
      var n := |files| - 1;
      CommentedScanIff(files[..n], keys, now);
      CommentedKeyIff(files[n], keys, now);
      assert forall i :: 0 <= i < n ==> files[..n][i] == files[i];
      if exists i :: 0 <= i < n && Rescued(files[i], keys, now) {
        var i :| 0 <= i < n && Rescued(files[i], keys, now);
        assert Rescued(files[..n][i], keys, now);
      }
    }
  }

  function ClaimsAsCommented(files: seq<File>, keys: Keys, now: int): seq<Claims> {
    if files == [] then []
    else
      var taken := TakenAsCommented(files[|files| - 1], keys, now);
      ClaimsAsCommented(files[..|files| - 1], keys, now) + if taken.Some? then [taken.value] else []
  }

  /** A key set with another key, while offline: the comment takes a file with a trusted chain,
      the code rejects it. */
  lemma TrustedChainIsRejected(c: Claims)
    requires c.subject == "customer" && c.nbf.None? && c.exp.None? && c.iat == 0
    ensures var keys := Keys(Some(map["other" := 1]), true, true);
            var f := File("f", Signed(Token(1, "ES256", "key", ChainKey(Some(2)), map[2 := c])));
            Taken(f, keys, 0).None? && TakenAsCommented(f, keys, 0) == Some(if c.id == "" then c.(id := "f") else c)
  {
    assert !White("customer"[0]);
  }
}
