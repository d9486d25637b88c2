/** The JWKS fetcher: a bounded retry loop over mirrors, with a key set cached by its ETag
    (sections 2.3, 3.2 and 4.1 of RFC 7232). */
module Fetcher {
  import opened License
  import Protocol

  /** A key set, identified by its content. */
  type KeySet = int

  datatype Response =
    | RequestFailed                            // no request could be made, or no response came
    | NotModified                              // 304
    | Fetched(keys: KeySet, etag: string)      // 200 with a key set
    | Garbled(etag: string)                    // 200 with a body that does not parse
    | OtherStatus(status: int)

  /** What one call of `Update` returns. */
  datatype Result = NewKeys(keys: KeySet) | NoNews | Error

  /** A request of the fetcher: the index of the mirror and the entity tag sent along. */
  datatype Request = Request(uri: nat, etag: string)

  /** The world as one call meets it: the response to its i-th request, and whether the
      context is cancelled during the wait after it. */
  datatype Environment = Environment(responses: nat -> Response, cancelled: nat -> bool)

  predicate Succeeds(r: Response) {
    r.NotModified? || r.Fetched?
  }

  /** The requests of a call: to each mirror in turn, then to the first one, all with one tag. */
  ghost predicate InTurn(requests: seq<Request>, mirrors: nat, etag: string) {
    forall i :: 0 <= i < |requests| ==> requests[i] == Request(if i < mirrors then i else 0, etag)
  }

  /** The number of the last request of a call that has made `attempt - 1` requests so far. */
  function LastAttempt(env: Environment, maxRetries: int, attempt: nat): nat
    requires attempt >= 1
    decreases maxRetries - attempt
  {
    if Succeeds(env.responses(attempt)) || attempt >= maxRetries || env.cancelled(attempt) then attempt
    else LastAttempt(env, maxRetries, attempt + 1)
  }

  /** A call makes at least one and at most max(1, maxRetries) requests; all but the last one
      failed, and the waits between them were not cancelled. */
  lemma {:induction false} LastAttemptBounds(env: Environment, maxRetries: int, attempt: nat)
    requires attempt >= 1
    ensures var last := LastAttempt(env, maxRetries, attempt);
            && attempt <= last && (last == attempt || last <= maxRetries)
            && (forall i :: attempt <= i < last ==>
                  !env.responses(i).NotModified? && !env.responses(i).Fetched? && !env.cancelled(i))
            && (env.responses(last).NotModified? || env.responses(last).Fetched? ||
                last >= maxRetries || env.cancelled(last))
    decreases maxRetries - attempt
  {
    if !(Succeeds(env.responses(attempt)) || attempt >= maxRetries || env.cancelled(attempt)) {
      LastAttemptBounds(env, maxRetries, attempt + 1);
    }
  }

  /** The waits after the first `n` attempts: 5, 10, 15, ... seconds. */
  function Backoff(n: nat): nat {
    if n == 0 then 0 else Backoff(n - 1) + 5 * n
  }

  lemma {:induction false} BackoffClosedForm(n: nat)
    ensures 2 * Backoff(n) == 5 * n * (n + 1)
  {
    if n > 0 {
      BackoffClosedForm(n - 1);
    }
  }

  // ---------- The cache over sequences of calls ----------

  /** The cached pair. */
  datatype Cache = Cache(jwks: Option<KeySet>, etag: string)

  const NO_CACHE := Cache(None, "")

  /** What the answer that ends a call does to the cache. */
  function AfterAnswer(c: Cache, answer: Response): Cache {
    if answer.Fetched? then Cache(Some(answer.keys), answer.etag) else c
  }

  function AfterAnswers(answers: seq<Response>): Cache {
    if answers == [] then NO_CACHE
    else AfterAnswer(AfterAnswers(answers[..|answers| - 1]), answers[|answers| - 1])
  }

  /** Answer `i` is the latest one that brought a key set. */
  ghost predicate LatestFetch(answers: seq<Response>, i: int) {
    0 <= i < |answers| && answers[i].Fetched? && forall j :: i < j < |answers| ==> !answers[j].Fetched?
  }

  /** The stored tag and key set always belong to one response, the latest one that brought a
      key set; errors and 304 change neither. */
  lemma {:induction false} CacheIsLatestFetch(answers: seq<Response>)
    ensures var c := AfterAnswers(answers);
            if c.jwks.None? then c.etag == "" && forall j :: 0 <= j < |answers| ==> !answers[j].Fetched?
            else exists i :: LatestFetch(answers, i) && answers[i] == Fetched(c.jwks.value, c.etag)
  {
    if answers != [] {
      var n := |answers| - 1;
      var older := answers[..n];
      CacheIsLatestFetch(older);
      var c := AfterAnswers(answers);
      if answers[n].Fetched? {
        assert LatestFetch(answers, n);
      } else if c.jwks.Some? {
        var i :| LatestFetch(older, i) && older[i] == Fetched(c.jwks.value, c.etag);
        assert LatestFetch(answers, i);
      }
    }
  }

  /** What the answering mirror holds when it answers. */
  datatype Snapshot = Snapshot(keys: KeySet, etag: string)

  /** A mirror that follows the protocol: 200 carries what it holds, and 304 answers only a
      request whose tag is that of what it holds. */
  ghost predicate Honest(sent: string, answer: Response, held: Snapshot) {
    match answer
    case NotModified => sent != "" && sent == held.etag
    case Fetched(keys, etag) => held == Snapshot(keys, etag)
    case _ => true
  }

  /** Mirrors that follow the protocol and tags that identify content: after every successful
      call the stored key set is the one the answering mirror holds. */
  lemma StoredIsCurrent(answers: seq<Response>, held: seq<Snapshot>)
    requires |answers| == |held| > 0
    requires forall i, j :: 0 <= i < |held| && 0 <= j < |held| && held[i].etag == held[j].etag != "" ==>
               held[i].keys == held[j].keys
    requires forall i :: 0 <= i < |answers| ==> Honest(AfterAnswers(answers[..i]).etag, answers[i], held[i])
    requires answers[|answers| - 1].NotModified? || answers[|answers| - 1].Fetched?
    ensures AfterAnswers(answers).jwks == Some(held[|held| - 1].keys)
  {
    var n := |answers| - 1;
    assert Honest(AfterAnswers(answers[..n]).etag, answers[n], held[n]);
    if answers[n].NotModified? {
      var i := CachedIsHeld(answers, held, n);
    }
  }

  /** The cached pair is what the mirror of the latest fetch held when it answered. */
  lemma CachedIsHeld(answers: seq<Response>, held: seq<Snapshot>, n: nat) returns (i: nat)
    requires n <= |answers| == |held|
    requires forall i :: 0 <= i < |answers| ==> Honest(AfterAnswers(answers[..i]).etag, answers[i], held[i])
    requires AfterAnswers(answers[..n]).etag != ""
    ensures i < n && LatestFetch(answers[..n], i)
    ensures AfterAnswers(answers[..n]) == Cache(Some(held[i].keys), held[i].etag)
  {
    var older := answers[..n];
    var c := AfterAnswers(older);
    CacheIsLatestFetch(older);
    i :| LatestFetch(older, i) && older[i] == Fetched(c.jwks.value, c.etag);
    assert Honest(AfterAnswers(answers[..i]).etag, answers[i], held[i]);
  }

  lemma OneLatestFetch(answers: seq<Response>, i: int, j: int)
    requires LatestFetch(answers, i) && LatestFetch(answers, j)
    ensures i == j
  {
  }

  lemma AfterNextAnswer(answers: seq<Response>, n: nat)
    requires n < |answers|
    ensures AfterAnswers(answers[..n + 1]) == AfterAnswer(AfterAnswers(answers[..n]), answers[n])
  {
    assert answers[..n + 1][..n] == answers[..n];
  }

  /** After call `n` the stored key set is the one that the answering mirror holds. */
  ghost predicate CurrentAfter(answers: seq<Response>, held: seq<Snapshot>, n: nat)
    requires n < |answers| == |held|
  {
    AfterAnswers(answers[..n + 1]).jwks == Some(held[n].keys)
  }

  /** The mirror that answers call `n` with 304 holds the key set of the latest fetch. */
  ghost predicate Confirms(answers: seq<Response>, held: seq<Snapshot>, n: nat)
    requires n < |answers| == |held|
  {
    forall i :: LatestFetch(answers[..n], i) ==> held[i].keys == held[n].keys
  }

  lemma CurrentIff(answers: seq<Response>, held: seq<Snapshot>, n: nat)
    requires n < |answers| == |held| && Succeeds(answers[n])
    requires forall i :: 0 <= i < |answers| ==> Honest(AfterAnswers(answers[..i]).etag, answers[i], held[i])
    ensures CurrentAfter(answers, held, n) <==> answers[n].NotModified? ==> Confirms(answers, held, n)
  {
    AfterNextAnswer(answers, n);
    assert Honest(AfterAnswers(answers[..n]).etag, answers[n], held[n]);
    if answers[n].NotModified? {
      var i := CachedIsHeld(answers, held, n);
      forall j | LatestFetch(answers[..n], j)
        ensures j == i
      {
        OneLatestFetch(answers[..n], i, j);
      }
    }
  }

  /** With mirrors that follow the protocol, and whatever their tags mean: every successful call
      leaves the key set that the answering mirror holds, exactly if every 304 comes from a
      mirror that holds the key set of the latest fetch. */
  lemma CurrentThroughoutIff(answers: seq<Response>, held: seq<Snapshot>)
    requires |answers| == |held|
    requires forall i :: 0 <= i < |answers| ==> Honest(AfterAnswers(answers[..i]).etag, answers[i], held[i])
    ensures (forall n :: 0 <= n < |answers| && (answers[n].NotModified? || answers[n].Fetched?) ==>
               CurrentAfter(answers, held, n)) <==>
            (forall n :: 0 <= n < |answers| && answers[n].NotModified? ==> Confirms(answers, held, n))
  {
    forall n | 0 <= n < |answers| && Succeeds(answers[n])
      ensures CurrentAfter(answers, held, n) <==> answers[n].NotModified? ==> Confirms(answers, held, n)
    {
      CurrentIff(answers, held, n);
    }
  }

  /** Mirrors whose tags do not identify content leave the cache stale: a failure, a key set, and
      a 304 from a mirror that reuses the tag for another key set. */
  lemma SharedTagGoesStale()
    ensures var answers := [RequestFailed, Fetched(1, "a"), NotModified];
            var held := [Snapshot(1, "a"), Snapshot(1, "a"), Snapshot(2, "a")];
            && (forall i :: 0 <= i < 3 ==> Honest(AfterAnswers(answers[..i]).etag, answers[i], held[i]))
            && AfterAnswers(answers) == Cache(Some(1), "a") && held[2].keys == 2
  {
    var answers := [RequestFailed, Fetched(1, "a"), NotModified];
    assert answers[..2][..1] == answers[..1] && answers[..1][..0] == [];
    assert AfterAnswers(answers[..2]) == Cache(Some(1), "a");
  }

  /** How the server's refresher takes what a call returns. */
  function Reported(result: Result, offline: bool): Protocol.Fetched {
    match result
    case NewKeys(_) => Protocol.NewKeys
    case Error => Protocol.FetchError
    case NoNews => if offline then Protocol.Cancelled else Protocol.NotModified
  }

  class JWKSFetcher {
    const mirrors: nat
    const maxRetries: int

    var jwks: Option<KeySet>
    var etag: string
    var offline: bool

    /** The answers that ended the calls so far. */
    ghost var answers: seq<Response>

    /** The cached pair is what the answers so far have made of it. */
    ghost predicate Valid()
      reads this
    {
      Cache(jwks, etag) == AfterAnswers(answers)
    }

    constructor (mirrors: nat, maxRetries: int)
      ensures this.mirrors == mirrors && this.maxRetries == maxRetries
      ensures Valid() && answers == [] && !offline
    {
      this.mirrors, this.maxRetries := mirrors, maxRetries;
      jwks, etag, offline, answers := None, "", false, [];
    }

    /** `Update`. Besides its result it returns the requests it made and the seconds it waited. */
    method Update(env: Environment) returns (result: Result, requests: seq<Request>, waited: nat)
      requires mirrors > 0 && Valid()
      modifies this
      ensures Valid() && answers == old(answers) + [env.responses(|requests|)]
      ensures |requests| == LastAttempt(env, maxRetries, 1) >= 1
      ensures forall i :: 0 <= i < |requests| ==> requests[i] == Request(if i < mirrors then i else 0, old(etag))
      ensures waited == Backoff(|requests| - 1)
      ensures var answer := env.responses(|requests|);
              && (offline <==> !answer.NotModified? && !answer.Fetched?)
              && (answer.Fetched? ==> result == NewKeys(answer.keys) && jwks == Some(answer.keys) && etag == answer.etag)
              && (!answer.Fetched? ==> jwks == old(jwks) && etag == old(etag))
              && (answer.NotModified? ==> result == NoNews)
              && (offline ==> result == if |requests| >= maxRetries then Error else NoNews)
      ensures var answer := env.responses(|requests|);
              Reported(result, offline) ==
              if answer.Fetched? then Protocol.NewKeys
              else if answer.NotModified? then Protocol.NotModified
              else if |requests| >= maxRetries then Protocol.FetchError
              else Protocol.Cancelled
    {
      var attempt := 1;
      requests, waited := [], 0;
      while true
        invariant attempt >= 1 && |requests| == attempt - 1
        invariant LastAttempt(env, maxRetries, 1) == LastAttempt(env, maxRetries, attempt)
        invariant InTurn(requests, mirrors, old(etag))
        invariant waited == Backoff(attempt - 1)
        invariant jwks == old(jwks) && etag == old(etag) && answers == old(answers)
        decreases maxRetries - attempt
      {
        requests := Ask(attempt, requests);
        var response := env.responses(attempt);
        if response.NotModified? {
          offline := false;
          Conclude(response);
          return NoNews, requests, waited;
        }
        if response.Fetched? {
          offline := false;
          jwks, etag := Some(response.keys), response.etag;
          Conclude(response);
          return NewKeys(response.keys), requests, waited;
        }
        offline := true;
        if attempt >= maxRetries {
          Conclude(response);
          return Error, requests, waited;
        }
        if env.cancelled(attempt) {
          Conclude(response);
          return NoNews, requests, waited;
        }
        waited := waited + 5 * attempt;
        attempt := attempt + 1;
      }
    }

    /** Makes one more request. */
    method Ask(attempt: nat, requests: seq<Request>) returns (more: seq<Request>)
      requires mirrors > 0 && attempt == |requests| + 1 && InTurn(requests, mirrors, etag)
      ensures |more| == attempt && InTurn(more, mirrors, etag)
    {
      var uriIndex := attempt - 1;
      if uriIndex >= mirrors {
        uriIndex := 0;
      }
      more := requests + [Request(uriIndex, etag)];
    }

    /** Notes the answer that ends a call. */
    ghost method Conclude(answer: Response)
      requires Cache(jwks, etag) == AfterAnswer(AfterAnswers(answers), answer)
      modifies this`answers
      ensures Valid() && answers == old(answers) + [answer]
    {
      assert (answers + [answer])[..|answers|] == answers;
      answers := answers + [answer];
    }
  }
}
