/** The ChatGPT model catalog: one cache file shared by every account that signs in. */
module Catalog {
  import opened Bytes

  const CATALOG_CACHE_SCHEMA: u32 := 2
  const CATALOG_TTL_MS: nat := 5 * 60 * 1000
  const CODEX_CATALOG_COMPAT_VERSION: string := "0.153.4"

  /** Whose catalog a row came from. The program does not record this; it is what the properties are about. */
  datatype Owner = BuiltIn | FetchedAs(account: Option<string>)

  datatype Model = Model(slug: string, owner: Owner)

  datatype CacheFile = CacheFile(
    schema: u32, accountDigest: string, compatVersion: string, fetchedMs: nat, etag: Option<string>, models: seq<Model>)

  datatype Source = Fresh | Stale | BuiltInFallback
  datatype Catalog = Catalog(models: seq<Model>, source: Source, warned: bool)

  datatype FetchOutcome = Fetched(slugs: seq<string>, etag: Option<string>) | NotModified | AuthFailed | Recoverable

  /** `account_digest`, and the built-in rows. */
  datatype World = World(digest: string -> string, fallback: seq<string>)

  function Rows(slugs: seq<string>, owner: Owner): seq<Model> {
    seq(|slugs|, i requires 0 <= i < |slugs| => Model(slugs[i], owner))
  }

  predicate CacheMatches(c: CacheFile, digest: string) {
    c.schema == CATALOG_CACHE_SCHEMA && c.accountDigest == digest && c.compatVersion == CODEX_CATALOG_COMPAT_VERSION
  }

  predicate CacheIsFresh(c: CacheFile, digest: string, now: nat) {
    CacheMatches(c, digest) && (if now < c.fetchedMs then 0 else now - c.fetchedMs) < CATALOG_TTL_MS
  }

  function DigestOf(w: World, account: Option<string>): Option<string> {
    match account case None => None case Some(a) => Some(w.digest(a))
  }

  /** The cache, if it may be served to this account at all. */
  function Matching(cache: Option<CacheFile>, digest: Option<string>): Option<CacheFile> {
    if cache.Some? && digest.Some? && CacheMatches(cache.value, digest.value) then cache else None
  }

  function Fallback(w: World): Catalog { Catalog(Rows(w.fallback, BuiltIn), BuiltInFallback, true) }

  /** `resolve_catalog`: what to answer, and what to write to the cache. */
  function ResolveCatalog(w: World, outcome: FetchOutcome, cache: Option<CacheFile>, account: Option<string>, now: nat)
    : (r: (Catalog, Option<CacheFile>))
    ensures var mine := cache.Some? && account.Some? && cache.value.accountDigest == w.digest(account.value)
                        && cache.value.schema == 2 && cache.value.compatVersion == "0.153.4";
            r.0.source == match outcome {
              case Fetched(_, _) => Fresh
              case NotModified => if mine then Fresh else BuiltInFallback
              case AuthFailed => BuiltInFallback
              case Recoverable => if mine then Stale else BuiltInFallback
            }
    ensures r.0.source == BuiltInFallback <==> r.0 == Fallback(w)
    ensures r.0.warned <==> r.0.source != Fresh
    ensures outcome.Fetched? ==>
              |r.0.models| == |outcome.slugs| && forall i :: 0 <= i < |r.0.models| ==> r.0.models[i] == Model(outcome.slugs[i], FetchedAs(account))
    ensures r.0.source == BuiltInFallback ==>
              |r.0.models| == |w.fallback| && forall i :: 0 <= i < |r.0.models| ==> r.0.models[i] == Model(w.fallback[i], BuiltIn)
    ensures r.0.source != BuiltInFallback && !outcome.Fetched? ==> r.0.models == cache.value.models
    ensures r.1.Some? <==> r.0.source == Fresh && account.Some?
    ensures r.1.Some? ==>
              && r.1.value.models == r.0.models && r.1.value.fetchedMs == now
              && r.1.value.etag == (if outcome.Fetched? then outcome.etag else cache.value.etag)
              && CacheIsFresh(r.1.value, w.digest(account.value), now)
  {
    var digest := DigestOf(w, account);
    var matching := Matching(cache, digest);
    match outcome
    case Fetched(slugs, etag) =>
      var rows := Rows(slugs, FetchedAs(account));
      (Catalog(rows, Fresh, false),
       if digest.Some? then Some(CacheFile(CATALOG_CACHE_SCHEMA, digest.value, CODEX_CATALOG_COMPAT_VERSION, now, etag, rows)) else None)
    case NotModified =>
      if matching.Some? then
        (Catalog(matching.value.models, Fresh, false), Some(matching.value.(fetchedMs := now, accountDigest := digest.value)))
      else (Fallback(w), None)
    case AuthFailed => (Fallback(w), None)
    case Recoverable =>
      if matching.Some? then (Catalog(matching.value.models, Stale, true), None) else (Fallback(w), None)
  }

  // ---- one call ----

  class CatalogCache {
    var file: Option<CacheFile>

    constructor () ensures file == None { file := None; }

    /** `chatgpt_model_catalog`, with the clock readings and the answer of the network, were it asked.
        `asked` is the request made, if any: the entity tag it carried. */
    method ChatgptModelCatalog(w: World, account: Option<string>, force: bool,
        started: nat, outcome: FetchOutcome, finished: nat, writable: bool)
      returns (r: Catalog, asked: Option<Option<string>>)
      modifies this
      ensures account.None? ==> file == old(file) && asked == Some(None) && r == ResolveCatalog(w, outcome, None, None, finished).0
      ensures asked.None? <==>
                && !force && account.Some? && old(file).Some? && old(file).value.accountDigest == w.digest(account.value)
                && old(file).value.schema == 2 && old(file).value.compatVersion == "0.153.4"
                && started < old(file).value.fetchedMs + 300000
      ensures asked.None? ==> file == old(file) && r == Catalog(old(file).value.models, Fresh, false)
      ensures asked.Some? ==>
                asked.value == if account.Some? && old(file).Some? && old(file).value.accountDigest == w.digest(account.value)
                                  && old(file).value.schema == 2 && old(file).value.compatVersion == "0.153.4"
                               then old(file).value.etag else None
      ensures asked.Some? && account.Some? ==>
                var (answer, persist) := ResolveCatalog(w, outcome, old(file), account, finished);
                r == answer && file == if persist.Some? && writable then persist else old(file)
    {
      var cache := if account.Some? then file else None;
      var digest := DigestOf(w, account);
      if !force && cache.Some? && digest.Some? && CacheIsFresh(cache.value, digest.value, started) {
        return Catalog(cache.value.models, Fresh, false), None;
      }
      var etag := None;
      if cache.Some? && digest.Some? && CacheMatches(cache.value, digest.value) { etag := cache.value.etag; }
      var (answer, persist) := ResolveCatalog(w, outcome, cache, account, finished);
      if persist.Some? && writable { file := persist; }
      r, asked := answer, Some(etag);
    }
  }

  // ---- every interleaving ----

  /** A call in progress: it has loaded the cache, or it has answered and still has an entry to write. */
  datatype Call = Loaded(account: Option<string>, force: bool, cache: Option<CacheFile>)
                | Persisting(account: Option<string>, entry: CacheFile)

  datatype Answer = Answer(account: Option<string>, catalog: Catalog)

  datatype State = State(cache: Option<CacheFile>, calls: map<nat, Call>,
      answers: seq<Answer>, readers: seq<string>, writers: seq<string>)

  datatype Step =
    | Begin(c: nat, account: Option<string>, force: bool)
    | ShortCircuit(c: nat, now: nat)
    | Fetch(c: nat, outcome: FetchOutcome, now: nat)
    | Persist(c: nat, written: bool)
    | Cancel(c: nat)
    | Forget                     // the cache is deleted, or no longer parses

  predicate Enabled(w: World, s: State, step: Step) {
    match step
    case Begin(c, _, _) => c !in s.calls
    case ShortCircuit(c, now) =>
      c in s.calls && s.calls[c].Loaded? && !s.calls[c].force && s.calls[c].cache.Some? && s.calls[c].account.Some?
      && CacheIsFresh(s.calls[c].cache.value, w.digest(s.calls[c].account.value), now)
    case Fetch(c, _, _) => c in s.calls && s.calls[c].Loaded?
    case Persist(c, _) => c in s.calls && s.calls[c].Persisting?
    case Cancel(c) => c in s.calls
    case Forget => true
  }

  function After(w: World, s: State, step: Step): State
    requires Enabled(w, s, step)
  {
    match step
    case Begin(c, account, force) =>
      s.(calls := s.calls[c := Loaded(account, force, if account.Some? then s.cache else None)],
         readers := if account.Some? then s.readers + [account.value] else s.readers)
    case ShortCircuit(c, _) =>
      var j := s.calls[c];
      s.(calls := s.calls - {c}, answers := s.answers + [Answer(j.account, Catalog(j.cache.value.models, Fresh, false))])
    case Fetch(c, outcome, now) =>
      var j := s.calls[c];
      var (answer, persist) := ResolveCatalog(w, outcome, j.cache, j.account, now);
      s.(calls := if persist.Some? then s.calls[c := Persisting(j.account, persist.value)] else s.calls - {c},
         answers := s.answers + [Answer(j.account, answer)])
    case Persist(c, written) =>
      var j := s.calls[c];
      s.(calls := s.calls - {c}, cache := if written then Some(j.entry) else s.cache,
         writers := if j.account.Some? then s.writers + [j.account.value] else s.writers)
    case Cancel(c) => s.(calls := s.calls - {c})
    case Forget => s.(cache := None)
  }

  /** The cache holds rows of the account its digest names. */
  predicate Labelled(w: World, c: CacheFile) {
    forall m :: m in c.models ==> m.owner.FetchedAs? && m.owner.account.Some? && w.digest(m.owner.account.value) == c.accountDigest
  }

  predicate OptLabelled(w: World, c: Option<CacheFile>) { c.Some? ==> Labelled(w, c.value) }

  /** The row was fetched as this account, or as one with the same digest. */
  predicate OwnRow(w: World, account: Option<string>, m: Model) {
    m.owner.FetchedAs? && DigestOf(w, m.owner.account) == DigestOf(w, account)
  }

  predicate Isolated(w: World, a: Answer) {
    a.catalog.source != BuiltInFallback ==> forall m :: m in a.catalog.models ==> OwnRow(w, a.account, m)
  }

  predicate CallFits(w: World, j: Call) {
    match j
    case Loaded(account, _, cache) => (account.None? ==> cache.None?) && OptLabelled(w, cache)
    case Persisting(account, entry) => account.Some? && Labelled(w, entry)
  }

  predicate Inv(w: World, s: State) {
    && OptLabelled(w, s.cache)
    && (forall c :: c in s.calls ==> CallFits(w, s.calls[c]))
    && forall a :: a in s.answers ==> Isolated(w, a)
  }

  /** Resolving answers with the caller's own rows, and labels what it writes. */
  lemma ResolveIsolates(w: World, outcome: FetchOutcome, cache: Option<CacheFile>, account: Option<string>, now: nat)
    requires OptLabelled(w, cache)
    ensures var (answer, persist) := ResolveCatalog(w, outcome, cache, account, now);
            Isolated(w, Answer(account, answer)) && OptLabelled(w, persist)
  {
  }

  lemma StepKeepsInv(w: World, s: State, step: Step)
    requires Inv(w, s) && Enabled(w, s, step)
    ensures Inv(w, After(w, s, step))
  {
    match step {
      case Fetch(c, outcome, now) =>
        assert CallFits(w, s.calls[c]);
        ResolveIsolates(w, outcome, s.calls[c].cache, s.calls[c].account, now);
      case ShortCircuit(c, now) =>
        assert CallFits(w, s.calls[c]);
      case Persist(c, written) =>
        assert CallFits(w, s.calls[c]);
      case _ =>
    }
  }

  predicate Runs(w: World, steps: seq<Step>)
    decreases |steps|, 0
  {
    steps == [] || (Runs(w, steps[..|steps| - 1]) && Enabled(w, Reached(w, steps[..|steps| - 1]), steps[|steps| - 1]))
  }

  function Reached(w: World, steps: seq<Step>): State
    requires Runs(w, steps)
    decreases |steps|, 1
  {
    if steps == [] then State(None, map[], [], [], [])
    else After(w, Reached(w, steps[..|steps| - 1]), steps[|steps| - 1])
  }

  lemma {:induction false} RunKeepsInv(w: World, steps: seq<Step>)
    requires Runs(w, steps)
    ensures Inv(w, Reached(w, steps))
  {
    if steps != [] {
      RunKeepsInv(w, steps[..|steps| - 1]);
      StepKeepsInv(w, Reached(w, steps[..|steps| - 1]), steps[|steps| - 1]);
    }
  }

  /** A call that nothing interrupts can always be made. The network is skipped only where the cache is the
      caller's own, of this schema and client and less than five minutes old; otherwise what is answered and
      what the cache becomes are what resolving the outcome gives. */
  lemma CallAlone(w: World, s: State, c: nat, account: Option<string>, force: bool, started: nat, outcome: FetchOutcome, finished: nat,
                  written: bool)
    requires c !in s.calls
    ensures var begin, fetch := Begin(c, account, force), Fetch(c, outcome, finished);
            var cache := if account.Some? then s.cache else None;
            var (answer, persist) := ResolveCatalog(w, outcome, cache, account, finished);
            && Enabled(w, s, begin)
            && var s1 := After(w, s, begin);
            && (Enabled(w, s1, ShortCircuit(c, started)) <==>
                  && !force && account.Some? && s.cache.Some? && s.cache.value.accountDigest == w.digest(account.value)
                  && s.cache.value.schema == 2 && s.cache.value.compatVersion == "0.153.4" && started < s.cache.value.fetchedMs + 300000)
            && (Enabled(w, s1, ShortCircuit(c, started)) ==>
                  var r := After(w, s1, ShortCircuit(c, started));
                  && r.cache == s.cache && r.calls == s.calls
                  && r.answers == s.answers + [Answer(account, Catalog(s.cache.value.models, Fresh, false))])
            && Enabled(w, s1, fetch)
            && var s2 := After(w, s1, fetch);
            && s2.cache == s.cache && s2.answers == s.answers + [Answer(account, answer)]
            && (Enabled(w, s2, Persist(c, written)) <==> persist.Some?)
            && (persist.None? ==> s2.calls == s.calls)
            && (persist.Some? ==>
                  var r := After(w, s2, Persist(c, written));
                  r.cache == (if written then persist else s.cache) && r.calls == s.calls)
  {
    hide ResolveCatalog;
    var s1 := After(w, s, Begin(c, account, force));
    assert s1.calls - {c} == s.calls;
    var s2 := After(w, s1, Fetch(c, outcome, finished));
    assert s2.calls - {c} == s.calls;
  }

  predicate DistinctDigests(w: World, accounts: set<string>) {
    forall a, b :: a in accounts && b in accounts && w.digest(a) == w.digest(b) ==> a == b
  }

  predicate WithinAccounts(accounts: set<string>, a: Option<string>) { a.None? || a.value in accounts }

  /** Isolation: in every interleaving of calls by any accounts, whatever the network says, rows served as
      fresh or stale were fetched as the caller's own account. */
  lemma AccountsAreIsolated(w: World, steps: seq<Step>, accounts: set<string>, a: Answer, m: Model)
    requires Runs(w, steps) && DistinctDigests(w, accounts)
    requires a in Reached(w, steps).answers && a.catalog.source != BuiltInFallback && m in a.catalog.models
    requires WithinAccounts(accounts, a.account) && (m.owner.FetchedAs? ==> WithinAccounts(accounts, m.owner.account))
    ensures m.owner == FetchedAs(a.account)
  {
    RunKeepsInv(w, steps);
    assert Isolated(w, a);
  }

  /** In every state reached, served or not, the cache and the entries still to be written hold rows of the
      account their digest names, and a call with no account holds no cache. */
  lemma {:induction false} CacheStaysLabelled(w: World, steps: seq<Step>)
    requires Runs(w, steps)
    ensures var s := Reached(w, steps); OptLabelled(w, s.cache) && forall c :: c in s.calls ==> CallFits(w, s.calls[c])
  {
    RunKeepsInv(w, steps);
  }

  /** A call without an account neither reads nor writes the cache: it changes no one's view of it. */
  lemma AccountlessCallsKeepOut(w: World, s: State, step: Step)
    requires Inv(w, s) && Enabled(w, s, step) && !step.Forget?
    requires step.Begin? ==> step.account.None?
    requires !step.Begin? ==> s.calls[step.c].account.None?
    ensures After(w, s, step).cache == s.cache && After(w, s, step).readers == s.readers && After(w, s, step).writers == s.writers
    ensures step.Begin? ==> After(w, s, step).calls[step.c].cache.None?
  {
    if !step.Begin? { assert CallFits(w, s.calls[step.c]); }
  }

  // ---- the body of a response ----

  datatype ReadError<E> = Transport(error: E) | TooLarge

  function Joined<E>(chunks: seq<Result<seq<byte>, E>>): seq<byte> {
    if chunks == [] then []
    else
      var last := chunks[|chunks| - 1];
      Joined(chunks[..|chunks| - 1]) + if last.Ok? then last.value else []
  }

  /** The first `n` chunks all arrive and fit. */
  predicate FitsUpTo<E>(chunks: seq<Result<seq<byte>, E>>, n: nat, cap: nat) {
    n <= |chunks| && (forall i :: 0 <= i < n ==> chunks[i].Ok?) && |Joined(chunks[..n])| <= cap
  }

  lemma JoinedStep<E>(chunks: seq<Result<seq<byte>, E>>, k: nat)
    requires k < |chunks| && chunks[k].Ok?
    ensures Joined(chunks[..k + 1]) == Joined(chunks[..k]) + chunks[k].value
  {
    assert chunks[..k + 1][..k] == chunks[..k];
  }

  /** What fits further on fits here, so reading stops at one place only. */
  lemma {:induction false} FitsEarlier<E>(chunks: seq<Result<seq<byte>, E>>, k: nat, n: nat, cap: nat)
    requires k <= n && FitsUpTo(chunks, n, cap)
    ensures FitsUpTo(chunks, k, cap)
    decreases n
  {
    if k < n {
      JoinedStep(chunks, n - 1);
      FitsEarlier(chunks, k, n - 1, cap);
    }
  }

  /** A chunk that does not arrive, or does not fit, is where every longer reading ends too. */
  lemma StopsHere<E>(chunks: seq<Result<seq<byte>, E>>, i: nat, cap: nat)
    requires i < |chunks| && FitsUpTo(chunks, i, cap)
    requires chunks[i].Ok? ==> |Joined(chunks[..i])| + |chunks[i].value| > cap
    ensures forall k: nat :: FitsUpTo(chunks, k, cap) ==> k <= i
  {
    forall k: nat | FitsUpTo(chunks, k, cap)
      ensures k <= i
    {
      if k > i {
        FitsEarlier(chunks, i + 1, k, cap);
        JoinedStep(chunks, i);
      }
    }
  }

  /** Reading breaks off at chunk `k`: it never arrives, or it would not fit. */
  predicate BreaksAt<E>(chunks: seq<Result<seq<byte>, E>>, k: nat, cap: nat) {
    k < |chunks| && FitsUpTo(chunks, k, cap) && (chunks[k].Ok? ==> |Joined(chunks[..k])| + |chunks[k].value| > cap)
  }

  /** So a stream breaks off at most once, and not at all if it fits. */
  lemma BreaksOnce<E>(chunks: seq<Result<seq<byte>, E>>, k: nat, cap: nat)
    requires BreaksAt(chunks, k, cap)
    ensures !FitsUpTo(chunks, |chunks|, cap)
    ensures forall j: nat :: BreaksAt(chunks, j, cap) ==> j == k
  {
    StopsHere(chunks, k, cap);
    forall j: nat | BreaksAt(chunks, j, cap)
      ensures j == k
    {
      StopsHere(chunks, j, cap);
    }
  }

  /** `read_body_capped`: the whole body if it all arrives and fits; else why it broke off, and `at` where.
      Nothing past the cap is ever held. */
  method ReadBodyCapped<E>(chunks: seq<Result<seq<byte>, E>>, cap: nat)
    returns (r: Result<seq<byte>, ReadError<E>>, peak: nat, at: nat)
    ensures r.Ok? <==> FitsUpTo(chunks, |chunks|, cap)
    ensures r.Ok? ==> r.value == Joined(chunks)
    ensures r.Err? ==> BreaksAt(chunks, at, cap) && r.error == if chunks[at].Err? then Transport(chunks[at].error) else TooLarge
    ensures peak <= cap
  {
    var buf := [];
    peak, at := 0, 0;
    var i := 0;
    while i < |chunks|
      invariant 0 <= i <= |chunks| && FitsUpTo(chunks, i, cap) && buf == Joined(chunks[..i])
      invariant |buf| <= peak <= cap
    {
      match chunks[i] {
        case Err(e) =>
          BreaksOnce(chunks, i, cap);
          return Err(Transport(e)), peak, i;
        case Ok(chunk) =>
          if |buf| + |chunk| > cap {
            BreaksOnce(chunks, i, cap);
            return Err(TooLarge), peak, i;
          }
          JoinedStep(chunks, i);
          buf := buf + chunk;
          peak := if peak < |buf| then |buf| else peak;
      }
      i := i + 1;
    }
    assert chunks[..i] == chunks;
    r := Ok(buf);
  }
}
