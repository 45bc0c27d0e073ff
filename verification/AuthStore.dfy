/** The credential store: locked read-modify-write saves, and the cached reader beside them. */
module AuthStore {
  import opened Bytes

  datatype OAuthCreds = OAuthCreds(access: string, refresh: string, expiresMs: u64, accountId: Option<string>)
  datatype AuthEntry = Key(key: string) | Oauth(creds: OAuthCreds)

  type Entries = map<string, AuthEntry>

  /** What is at the path: nothing, something that cannot be read, something that is not a credential
      map, or one. */
  datatype File = NoFile | Unreadable | Malformed(text: string) | Readable(entries: Entries)

  /** `load_map_at`: a load never fails. */
  function LoadMap(f: File): Entries { if f.Readable? then f.entries else map[] }

  /** What a save starts from, or nothing if it must refuse. */
  function Writable(f: File): Option<Entries> {
    match f
    case NoFile => Some(map[])
    case Readable(entries) => Some(entries)
    case _ => None
  }

  function AsOauth(entries: Entries, provider: string): Option<OAuthCreds> {
    if provider in entries && entries[provider].Oauth? then Some(entries[provider].creds) else None
  }

  // ---- the operations, one caller at a time ----

  class StoreFile {
    var file: File

    constructor (file: File) ensures this.file == file { this.file := file; }

    /** `save_entry_at`. Everything else in the store stays; a store that cannot be read as one is left
        exactly as it is. */
    method SaveEntryAt(key: string, entry: AuthEntry, locked: bool, written: bool) returns (ok: bool)
      modifies this
      ensures ok == (locked && written && (old(file).NoFile? || old(file).Readable?))
      ensures file == if !ok then old(file) else Readable((if old(file).Readable? then old(file).entries else map[])[key := entry])
      ensures forall other :: other != key ==> (other in LoadMap(file) <==> other in LoadMap(old(file)))
      ensures forall other :: other != key && other in LoadMap(file) ==> LoadMap(file)[other] == LoadMap(old(file))[other]
      ensures old(file).Malformed? || old(file).Unreadable? ==> !ok && file == old(file)
    {
      if !locked { return false; }
      var entries: Entries;
      match file {
        case Readable(existing) => entries := existing;
        case NoFile => entries := map[];
        case _ => return false;
      }
      entries := entries[key := entry];
      if !written { return false; }
      file := Readable(entries);
      ok := true;
    }
  }

  /** A cached load: the modification time seen and the map read. */
  datatype Cached = Cached(modified: nat, entries: Entries)

  function Served(cache: Option<Cached>, stat: Option<nat>, read: File): Entries {
    if cache.Some? && stat == Some(cache.value.modified) then cache.value.entries else LoadMap(read)
  }

  function Refreshed(cache: Option<Cached>, stat: Option<nat>, read: File): Option<Cached> {
    if (cache.Some? && stat == Some(cache.value.modified)) || stat.None? then cache
    else Some(Cached(stat.value, LoadMap(read)))
  }

  function CachedAt(cache: map<string, Cached>, path: string): Option<Cached> {
    if path in cache then Some(cache[path]) else None
  }

  class OauthLoadCache {
    var cache: map<string, Cached>

    constructor () ensures cache == map[] { cache := map[]; }

    /** `load_oauth_entry_at`, given what the stat and then the read came upon. */
    method LoadOauthEntryAt(path: string, provider: string, stat: Option<nat>, read: File) returns (r: Option<OAuthCreds>)
      modifies this
      ensures r == AsOauth(Served(old(CachedAt(cache, path)), stat, read), provider)
      ensures CachedAt(cache, path) == Refreshed(old(CachedAt(cache, path)), stat, read)
      ensures forall p :: p != path ==> CachedAt(cache, p) == old(CachedAt(cache, p))
      ensures var hit := path in old(cache) && stat == Some(old(cache)[path].modified);
              && (forall creds :: r == Some(creds) <==>
                    if hit then provider in old(cache)[path].entries && old(cache)[path].entries[provider] == Oauth(creds)
                    else read.Readable? && provider in read.entries && read.entries[provider] == Oauth(creds))
              && cache == if hit || stat.None? then old(cache)
                          else old(cache)[path := Cached(stat.value, if read.Readable? then read.entries else map[])]
    {
      if path in cache && stat == Some(cache[path].modified) {
        return AsOauth(cache[path].entries, provider);
      }
      var entries := LoadMap(read);
      if stat.Some? {
        cache := cache[path := Cached(stat.value, entries)];
      }
      r := AsOauth(entries, provider);
    }
  }

  // ---- everything at once ----

  /** One state of the path, and its modification time if there is a file to stat. */
  datatype Version = Version(file: File, modified: Option<nat>)

  predicate WellStamped(v: Version) { v.modified.Some? <==> !v.file.NoFile? }

  /** A save that has read keeps the entries it read, and the base and inserts they are the fold of. */
  datatype Saver =
    | Locked(key: string, entry: AuthEntry)
    | HasRead(key: string, entry: AuthEntry, entries: Entries, base: File, inserts: seq<(string, AuthEntry)>)

  /** A load under way: which version its stat came upon. */
  datatype Loader = Statted(at: nat)

  /** A finished load: the versions current when it began and ended, and what it answered from. */
  datatype Answer = Answer(began: nat, ended: nat, entries: Entries)

  datatype State = State(
    versions: seq<Version>,
    lock: Option<nat>,
    savers: map<nat, Saver>,
    cache: Option<Cached>,
    loaders: map<nat, Loader>,
    answers: seq<Answer>,
    outside: File,                         // the store as somebody outside last left it
    base: File,                            // the outside state the store has grown from
    inserts: seq<(string, AuthEntry)>)     // and the saves since, in the order they held the lock

  datatype Step =
    | Outside(v: Version)                  // an edit or a delete by hand
    | Acquire(t: nat, key: string, entry: AuthEntry)
    | Read(t: nat)
    | Write(t: nat, modified: nat)
    | Release(t: nat)                      // a save that fails or whose process dies
    | Stat(l: nat)
    | Finish(l: nat)

  function Now(s: State): Version
    requires s.versions != []
  {
    s.versions[|s.versions| - 1]
  }

  predicate Enabled(s: State, step: Step) {
    s.versions != [] &&
    match step
    case Outside(v) => WellStamped(v)
    case Acquire(t, _, _) => s.lock.None? && t !in s.savers
    case Read(t) => t in s.savers && s.savers[t].Locked? && Writable(Now(s).file).Some?
    case Write(t, _) => t in s.savers && s.savers[t].HasRead?
    case Release(t) => t in s.savers
    case Stat(l) => l !in s.loaders
    case Finish(l) => l in s.loaders && s.loaders[l].at < |s.versions|
  }

  function After(s: State, step: Step): State
    requires Enabled(s, step)
  {
    match step
    case Outside(v) => s.(versions := s.versions + [v], outside := v.file, base := v.file, inserts := [])
    case Acquire(t, key, entry) => s.(lock := Some(t), savers := s.savers[t := Locked(key, entry)])
    case Read(t) =>
      var j := s.savers[t];
      s.(savers := s.savers[t := HasRead(j.key, j.entry, Writable(Now(s).file).value, s.base, s.inserts)])
    case Write(t, modified) =>
      var j := s.savers[t];
      s.(versions := s.versions + [Version(Readable(j.entries[j.key := j.entry]), Some(modified))],
         lock := None, savers := s.savers - {t}, base := j.base, inserts := j.inserts + [(j.key, j.entry)])
    case Release(t) => s.(lock := None, savers := s.savers - {t})
    case Stat(l) => s.(loaders := s.loaders[l := Statted(|s.versions| - 1)])
    case Finish(l) =>
      var at, now := s.loaders[l].at, Now(s);
      var stat := s.versions[at].modified;
      s.(cache := Refreshed(s.cache, stat, now.file), loaders := s.loaders - {l},
         answers := s.answers + [Answer(at, |s.versions| - 1, Served(s.cache, stat, now.file))])
  }

  // ---- undisturbed ----

  /** A save that has the lock to itself can be made exactly where the store is absent or one that can be read,
      and inserts its entry there. */
  lemma SaveAlone(s: State, t: nat, key: string, entry: AuthEntry, modified: nat)
    requires s.versions != [] && s.lock.None? && t !in s.savers
    ensures var acquire, file := Acquire(t, key, entry), Now(s).file;
            && Enabled(s, acquire)
            && (Enabled(After(s, acquire), Read(t)) <==> file.NoFile? || file.Readable?)
            && (file.NoFile? || file.Readable? ==>
                  var read := After(After(s, acquire), Read(t));
                  && Enabled(read, Write(t, modified))
                  && var r := After(read, Write(t, modified));
                  && r.versions == s.versions + [Version(Readable((if file.Readable? then file.entries else map[])[key := entry]), Some(modified))]
                  && r.lock == None && r.savers == s.savers && r.cache == s.cache)
  {
    if Now(s).file.NoFile? || Now(s).file.Readable? {
      var read := After(After(s, Acquire(t, key, entry)), Read(t));
      assert read.savers - {t} == s.savers;
    }
  }

  /** A load during which nothing else happens can always be made, and answers and caches as a single call does. */
  lemma LoadAlone(s: State, l: nat)
    requires s.versions != [] && l !in s.loaders
    ensures var now, at := Now(s), |s.versions| - 1;
            var hit := s.cache.Some? && now.modified == Some(s.cache.value.modified);
            var entries := if hit then s.cache.value.entries else if now.file.Readable? then now.file.entries else map[];
            && Enabled(s, Stat(l)) && Enabled(After(s, Stat(l)), Finish(l))
            && var r := After(After(s, Stat(l)), Finish(l));
            && r.answers == s.answers + [Answer(at, at, entries)] && r.versions == s.versions && r.loaders == s.loaders
            && r.cache == if hit || now.modified.None? then s.cache else Some(Cached(now.modified.value, entries))
  {
    assert After(s, Stat(l)).loaders - {l} == s.loaders;
  }

  // ---- loads linearize ----

  /** Versions that carry one time, and whatever came between them, load alike. */
  predicate Coherent(versions: seq<Version>) {
    forall i, c, j :: 0 <= i <= c <= j < |versions| && versions[i].modified.Some? && versions[i].modified == versions[j].modified ==>
      LoadMap(versions[c].file) == LoadMap(versions[j].file)
  }

  /** The answer is what the file held at some moment of the call. */
  predicate Linearized(versions: seq<Version>, a: Answer) {
    exists k :: 0 <= a.began <= k <= a.ended < |versions| && LoadMap(versions[k].file) == a.entries
  }

  /** The cached map was read no earlier than its time was seen. */
  predicate CacheFits(versions: seq<Version>, c: Cached) {
    exists i, j :: 0 <= i <= j < |versions| && versions[i].modified == Some(c.modified) && LoadMap(versions[j].file) == c.entries
  }

  predicate LoadInv(s: State) {
    && s.versions != []
    && (s.cache.Some? ==> CacheFits(s.versions, s.cache.value))
    && (forall l :: l in s.loaders ==> s.loaders[l].at < |s.versions|)
    && forall a :: a in s.answers ==> Linearized(s.versions, a)
  }

  lemma OneMoreVersion(versions: seq<Version>, v: Version)
    ensures forall a: Answer :: Linearized(versions, a) ==> Linearized(versions + [v], a)
    ensures forall c: Cached :: CacheFits(versions, c) ==> CacheFits(versions + [v], c)
  {
    var more := versions + [v];
    forall a: Answer | Linearized(versions, a)
      ensures Linearized(more, a)
    {
      var k :| 0 <= a.began <= k <= a.ended < |versions| && LoadMap(versions[k].file) == a.entries;
      assert more[k] == versions[k];
    }
    forall c: Cached | CacheFits(versions, c)
      ensures CacheFits(more, c)
    {
      var i, j :| 0 <= i <= j < |versions| && versions[i].modified == Some(c.modified) && LoadMap(versions[j].file) == c.entries;
      assert more[i] == versions[i] && more[j] == versions[j];
    }
  }

  /** A hit answers from the version whose map was cached, or from the one its stat saw when that is the
      later: both carry the cached time. */
  lemma HitLinearizes(versions: seq<Version>, c: Cached, at: nat)
    requires Coherent(versions) && CacheFits(versions, c) && at < |versions| && versions[at].modified == Some(c.modified)
    ensures Linearized(versions, Answer(at, |versions| - 1, c.entries))
  {
    hide LoadMap;
    var i, j :| 0 <= i <= j < |versions| && versions[i].modified == Some(c.modified) && LoadMap(versions[j].file) == c.entries;
    var k := if at <= j then j else at;
    assert LoadMap(versions[k].file) == c.entries;
  }

  /** So a load that finishes answers from a version within the call. */
  lemma FinishLinearizes(s: State, l: nat)
    requires LoadInv(s) && Coherent(s.versions) && Enabled(s, Finish(l))
    ensures LoadInv(After(s, Finish(l)))
  {
    var at, n := s.loaders[l].at, |s.versions| - 1;
    var stat := s.versions[at].modified;
    var served := Served(s.cache, stat, Now(s).file);
    if s.cache.Some? && stat == Some(s.cache.value.modified) {
      hide LoadMap;
      HitLinearizes(s.versions, s.cache.value, at);
    } else {
      assert LoadMap(s.versions[n].file) == served;
      assert Linearized(s.versions, Answer(at, n, served));
      if stat.Some? { assert CacheFits(s.versions, Cached(stat.value, LoadMap(s.versions[n].file))); }
    }
  }

  lemma StepKeepsLoads(s: State, step: Step)
    requires LoadInv(s) && Coherent(s.versions) && Enabled(s, step)
    ensures LoadInv(After(s, step))
  {
    match step {
      case Finish(l) => FinishLinearizes(s, l);
      case Outside(v) => OneMoreVersion(s.versions, v);
      case Write(t, modified) =>
        OneMoreVersion(s.versions, Version(Readable(s.savers[t].entries[s.savers[t].key := s.savers[t].entry]), Some(modified)));
      case _ =>
    }
  }

  // ---- saves fold ----

  function Fold(entries: Entries, inserts: seq<(string, AuthEntry)>): Entries {
    if inserts == [] then entries
    else
      var (key, entry) := inserts[|inserts| - 1];
      Fold(entries, inserts[..|inserts| - 1])[key := entry]
  }

  /** The entries are the base's with the inserts folded in. */
  predicate Folds(entries: Entries, base: File, inserts: seq<(string, AuthEntry)>) {
    Writable(base).Some? && entries == Fold(Writable(base).value, inserts)
  }

  predicate SaveInv(s: State) {
    && s.versions != []
    && (forall t :: t in s.savers ==> s.lock == Some(t))
    && (forall t :: t in s.savers && s.savers[t].HasRead? ==> Folds(s.savers[t].entries, s.savers[t].base, s.savers[t].inserts))
    && (if Writable(Now(s).file).Some? then Folds(Writable(Now(s).file).value, s.base, s.inserts)
        else Now(s).file == s.base && s.inserts == [])
  }

  lemma StepKeepsSaves(s: State, step: Step)
    requires SaveInv(s) && Enabled(s, step)
    ensures SaveInv(After(s, step))
  {
    if step.Write? {
      var j := s.savers[step.t];
      assert (j.inserts + [(j.key, j.entry)])[..|j.inserts|] == j.inserts;
    }
  }

  /** Nobody edits or deletes the file by hand while a save is between its read and its write. */
  predicate Undisturbed(s: State, step: Step) {
    step.Outside? ==> forall t :: t in s.savers ==> !s.savers[t].HasRead?
  }

  /** No edit has been lost: what the store has grown from is what was last left there. */
  predicate EditsKept(s: State) {
    s.base == s.outside && forall t :: t in s.savers && s.savers[t].HasRead? ==> s.savers[t].base == s.outside
  }

  lemma StepKeepsEdits(s: State, step: Step)
    requires EditsKept(s) && Enabled(s, step) && Undisturbed(s, step)
    ensures EditsKept(After(s, step))
  {
  }

  // ---- whole runs ----

  function Start(v: Version): State { State([v], None, map[], None, map[], [], v.file, v.file, []) }

  /** The steps can be taken one after another. */
  predicate Runs(s: State, steps: seq<Step>)
    decreases |steps|
  {
    steps == [] || (Enabled(s, steps[0]) && Runs(After(s, steps[0]), steps[1..]))
  }

  function Reached(s: State, steps: seq<Step>): State
    requires Runs(s, steps)
    decreases |steps|
  {
    if steps == [] then s else Reached(After(s, steps[0]), steps[1..])
  }

  lemma {:induction false} Extend(s: State, steps: seq<Step>, step: Step)
    requires Runs(s, steps) && Enabled(Reached(s, steps), step)
    ensures Runs(s, steps + [step]) && Reached(s, steps + [step]) == After(Reached(s, steps), step)
    decreases |steps|
  {
    hide Enabled, After;
    if steps != [] {
      Extend(After(s, steps[0]), steps[1..], step);
      assert (steps + [step])[1..] == steps[1..] + [step];
    } else {
      assert [step][1..] == [];
    }
  }

  lemma VersionsGrow(s: State, step: Step)
    requires Enabled(s, step)
    ensures s.versions <= After(s, step).versions
  {
  }

  lemma {:induction false} VersionsOnlyGrow(s: State, steps: seq<Step>)
    requires Runs(s, steps)
    ensures s.versions <= Reached(s, steps).versions
    decreases |steps|
  {
    hide Enabled, After;
    if steps != [] {
      VersionsGrow(s, steps[0]);
      VersionsOnlyGrow(After(s, steps[0]), steps[1..]);
    }
  }

  lemma CoherentEarlier(versions: seq<Version>, more: seq<Version>)
    requires versions <= more && Coherent(more)
    ensures Coherent(versions)
  {
    assert forall i :: 0 <= i < |versions| ==> versions[i] == more[i];
  }

  lemma {:induction false} LoadInvHolds(s: State, steps: seq<Step>)
    requires LoadInv(s) && Runs(s, steps) && Coherent(Reached(s, steps).versions)
    ensures LoadInv(Reached(s, steps))
    decreases |steps|
  {
    hide Enabled, After, LoadInv, Coherent;
    if steps != [] {
      VersionsOnlyGrow(s, steps);
      CoherentEarlier(s.versions, Reached(s, steps).versions);
      StepKeepsLoads(s, steps[0]);
      LoadInvHolds(After(s, steps[0]), steps[1..]);
    }
  }

  /** In every interleaving of saves, edits, deletes and loads whose versions are coherent, every load
      answers from what the file held at some moment while it ran. */
  lemma LoadsLinearize(v: Version, steps: seq<Step>)
    requires Runs(Start(v), steps) && Coherent(Reached(Start(v), steps).versions)
    ensures LoadInv(Reached(Start(v), steps))
    ensures forall a :: a in Reached(Start(v), steps).answers ==> Linearized(Reached(Start(v), steps).versions, a)
  {
    hide Runs, Reached, Linearized, CacheFits;
    LoadInvHolds(Start(v), steps);
  }

  /** The clock of the filesystem tells versions apart. */
  predicate Ticking(versions: seq<Version>) {
    forall i, j :: 0 <= i < j < |versions| && versions[i].modified.Some? && versions[j].modified.Some? ==>
      versions[i].modified.value < versions[j].modified.value
  }

  /** That is so whenever times strictly increase. */
  lemma TickingLoadsLinearize(v: Version, steps: seq<Step>)
    requires Runs(Start(v), steps) && Ticking(Reached(Start(v), steps).versions)
    ensures forall a :: a in Reached(Start(v), steps).answers ==> Linearized(Reached(Start(v), steps).versions, a)
  {
    hide Runs, Reached, Start;
    LoadsLinearize(v, steps);
  }

  predicate UndisturbedRun(s: State, steps: seq<Step>)
    requires Runs(s, steps)
    decreases |steps|
  {
    steps == [] || (Undisturbed(s, steps[0]) && UndisturbedRun(After(s, steps[0]), steps[1..]))
  }

  lemma {:induction false} SaveInvHolds(s: State, steps: seq<Step>)
    requires SaveInv(s) && Runs(s, steps)
    ensures SaveInv(Reached(s, steps))
    ensures EditsKept(s) && UndisturbedRun(s, steps) ==> EditsKept(Reached(s, steps))
    decreases |steps|
  {
    hide SaveInv, EditsKept, After, Enabled, Undisturbed, Writable;
    if steps != [] {
      StepKeepsSaves(s, steps[0]);
      if EditsKept(s) && UndisturbedRun(s, steps) { StepKeepsEdits(s, steps[0]); }
      SaveInvHolds(After(s, steps[0]), steps[1..]);
    }
  }

  /** Whatever the interleaving, the store is one of its outside states with every save since folded in, in
      lock order, or one that is not a store, exactly as it was left. When nobody edits it between a save's
      read and its write, that outside state is the last. */
  lemma SavesFold(v: Version, steps: seq<Step>)
    requires Runs(Start(v), steps)
    ensures Reached(Start(v), steps).versions != []
    ensures var s := Reached(Start(v), steps);
            && (if Writable(Now(s).file).Some? then Folds(Writable(Now(s).file).value, s.base, s.inserts)
                else Now(s).file == s.base && s.inserts == [])
            && (UndisturbedRun(Start(v), steps) ==> s.base == s.outside)
  {
    assert SaveInv(Start(v)) && EditsKept(Start(v));
    hide Runs, Reached, UndisturbedRun, Start;
    SaveInvHolds(Start(v), steps);
  }

  /** What the fold means key by key: the last save of a key wins, and no other entry is lost. */
  lemma {:induction false} FoldLosesNothing(entries: Entries, inserts: seq<(string, AuthEntry)>, key: string)
    ensures (key in Fold(entries, inserts)) <==> (key in entries || exists i :: 0 <= i < |inserts| && inserts[i].0 == key)
    ensures (forall i :: 0 <= i < |inserts| ==> inserts[i].0 != key) && key in entries ==> Fold(entries, inserts)[key] == entries[key]
    ensures forall i :: 0 <= i < |inserts| && inserts[i].0 == key && (forall j :: i < j < |inserts| ==> inserts[j].0 != key) ==>
              Fold(entries, inserts)[key] == inserts[i].1
  {
    if inserts != [] {
      var n := |inserts| - 1;
      var front := inserts[..n];
      FoldLosesNothing(entries, front, key);
      assert forall i :: 0 <= i < n ==> front[i] == inserts[i];
    }
  }

  // ---- where the conditions are needed ----

  /** A cached map the file no longer holds, under a time the file still has, is served again: an answer
      the file gave at no moment of the load. Nothing has changed afterwards, so the next load is served
      it too, and every one until the file's time changes. */
  lemma StaleHit(s: State, l: nat)
    requires s.versions != [] && l !in s.loaders && s.cache.Some?
    requires Now(s).modified == Some(s.cache.value.modified) && LoadMap(Now(s).file) != s.cache.value.entries
    ensures var s1 := After(s, Stat(l));
            var a := Answer(|s.versions| - 1, |s.versions| - 1, s.cache.value.entries);
            && Enabled(s, Stat(l)) && Enabled(s1, Finish(l))
            && After(s1, Finish(l)).cache == s.cache && After(s1, Finish(l)).versions == s.versions
            && l !in After(s1, Finish(l)).loaders
            && a in After(s1, Finish(l)).answers && !Linearized(After(s1, Finish(l)).versions, a)
  {
    var n := |s.versions| - 1;
    var t := After(After(s, Stat(l)), Finish(l));
    var a := Answer(n, n, s.cache.value.entries);
    assert a in t.answers && !Linearized(t.versions, a);
  }

  /** No load of any run over these versions answers what the file did not hold while it ran. */
  ghost predicate AlwaysLinearizes(versions: seq<Version>)
    requires versions != []
  {
    forall steps, a ::
      Runs(Start(versions[0]), steps) && Reached(Start(versions[0]), steps).versions == versions
      && a in Reached(Start(versions[0]), steps).answers ==>
      Linearized(versions, a)
  }

  predicate Stamped(versions: seq<Version>) { forall k :: 0 <= k < |versions| ==> WellStamped(versions[k]) }

  /** The run edits by hand until the file has been through the first `m` of these versions. */
  lemma EditUntil(s: State, steps: seq<Step>, versions: seq<Version>, m: nat) returns (more: seq<Step>)
    requires Runs(s, steps) && Stamped(versions)
    requires 0 < |Reached(s, steps).versions| <= m <= |versions| && Reached(s, steps).versions == versions[..|Reached(s, steps).versions|]
    ensures Runs(s, more) && Reached(s, more).versions == versions[..m]
    ensures Reached(s, more).cache == Reached(s, steps).cache && Reached(s, more).loaders == Reached(s, steps).loaders
    ensures Reached(s, more).answers == Reached(s, steps).answers
    decreases m - |Reached(s, steps).versions|
  {
    hide Runs, Reached;
    more := steps;
    var k := |Reached(s, steps).versions|;
    if k < m {
      var step := Outside(versions[k]);
      Extend(s, steps, step);
      assert versions[..k] + [versions[k]] == versions[..k + 1];
      more := EditUntil(s, steps + [step], versions, m);
    }
  }

  lemma MissFillsCache(s: State, i: nat)
    requires s.loaders == map[0 := Statted(i)] && s.cache.None? && i < |s.versions| && s.versions[i].modified.Some?
    ensures Enabled(s, Finish(0))
    ensures var t := After(s, Finish(0));
            && t.versions == s.versions && t.loaders == map[]
            && t.cache == Some(Cached(s.versions[i].modified.value, LoadMap(s.versions[|s.versions| - 1].file)))
  {
    assert map[0 := Statted(i)] - {0} == map[];
  }

  lemma RunToVersion(versions: seq<Version>, m: nat) returns (steps: seq<Step>)
    requires 1 <= m <= |versions| && Stamped(versions)
    ensures var v := versions[0];
            && Runs(Start(v), steps) && Reached(Start(v), steps).versions == versions[..m]
            && Reached(Start(v), steps).loaders == map[] && Reached(Start(v), steps).cache.None?
  {
    var v := versions[0];
    assert Runs(Start(v), []) && Reached(Start(v), []) == Start(v);
    assert versions[..1] == [v];
    hide Runs, Reached, Stamped;
    steps := EditUntil(Start(v), [], versions, m);
  }

  lemma StatAt(s: State, i: nat)
    requires |s.versions| == i + 1 && s.loaders == map[]
    ensures Enabled(s, Stat(0)) && After(s, Stat(0)) == s.(loaders := map[0 := Statted(i)])
  {
  }

  /** A load that looks at the time of version `i` and reads version `c` leaves just that in the cache. */
  lemma LoadAcross(versions: seq<Version>, i: nat, c: nat) returns (steps: seq<Step>)
    requires i <= c < |versions| && Stamped(versions) && versions[i].modified.Some?
    ensures var v := versions[0];
            && Runs(Start(v), steps) && Reached(Start(v), steps).versions == versions[..c + 1]
            && Reached(Start(v), steps).loaders == map[]
            && Reached(Start(v), steps).cache == Some(Cached(versions[i].modified.value, LoadMap(versions[c].file)))
  {
    hide *;
    var v := versions[0];
    var r1 := RunToVersion(versions, i + 1);
    StatAt(Reached(Start(v), r1), i);
    Extend(Start(v), r1, Stat(0));
    var r2 := EditUntil(Start(v), r1 + [Stat(0)], versions, c + 1);
    var s2 := Reached(Start(v), r2);
    assert s2.versions[i] == versions[i] && s2.versions[|s2.versions| - 1] == versions[c];
    MissFillsCache(s2, i);
    Extend(Start(v), r2, Finish(0));
    steps := r2 + [Finish(0)];
  }

  /** And a later version with that time, but another map, is then answered from the old one. */
  lemma IncoherenceServesStale(versions: seq<Version>, i: nat, c: nat, j: nat) returns (steps: seq<Step>)
    requires i <= c <= j < |versions| && Stamped(versions)
    requires versions[i].modified.Some? && versions[i].modified == versions[j].modified
             && LoadMap(versions[c].file) != LoadMap(versions[j].file)
    ensures Runs(Start(versions[0]), steps) && Reached(Start(versions[0]), steps).versions == versions
    ensures var a := Answer(j, j, LoadMap(versions[c].file)); a in Reached(Start(versions[0]), steps).answers && !Linearized(versions, a)
  {
    hide Runs, Reached;
    var v := versions[0];
    steps := LoadAcross(versions, i, c);
    steps := EditUntil(Start(v), steps, versions, j + 1);
    StaleHit(Reached(Start(v), steps), 1);
    Extend(Start(v), steps, Stat(1));
    Extend(Start(v), steps + [Stat(1)], Finish(1));
    steps := EditUntil(Start(v), steps + [Stat(1)] + [Finish(1)], versions, |versions|);
    assert versions[..|versions|] == versions;
  }

  /** Every run over a history of versions linearizes its loads exactly when the history is coherent. */
  lemma LoadsLinearizeExactly(versions: seq<Version>)
    requires versions != [] && Stamped(versions)
    ensures AlwaysLinearizes(versions) <==> Coherent(versions)
  {
    hide Runs, Reached, Linearized, LoadInv, Stamped;
    if Coherent(versions) {
      forall steps, a | Runs(Start(versions[0]), steps) && Reached(Start(versions[0]), steps).versions == versions
                        && a in Reached(Start(versions[0]), steps).answers
        ensures Linearized(versions, a)
      {
        LoadsLinearize(versions[0], steps);
      }
    } else {
      var i, c, j :| 0 <= i <= c <= j < |versions| && versions[i].modified.Some? && versions[i].modified == versions[j].modified
                     && LoadMap(versions[c].file) != LoadMap(versions[j].file);
      var steps := IncoherenceServesStale(versions, i, c, j);
    }
  }

  /** Two writes in one tick of the clock, for instance: the second is not seen. */
  lemma CoarseClockServesStale(before: Entries, after: Entries, tick: nat) returns (steps: seq<Step>)
    requires before != after
    ensures var v, v' := Version(Readable(before), Some(tick)), Version(Readable(after), Some(tick));
            && Runs(Start(v), steps) && Reached(Start(v), steps).versions == [v, v']
            && Answer(1, 1, before) in Reached(Start(v), steps).answers && !Linearized([v, v'], Answer(1, 1, before))
  {
    hide Runs, Reached;
    steps := IncoherenceServesStale([Version(Readable(before), Some(tick)), Version(Readable(after), Some(tick))], 0, 0, 1);
  }

  // ---- when an edit survives ----

  function WrittenBy(s: State, step: Step): seq<(string, AuthEntry)>
    requires Enabled(s, step)
  {
    if step.Write? then [(s.savers[step.t].key, s.savers[step.t].entry)] else []
  }

  /** What these steps write, in order. */
  function Written(s: State, steps: seq<Step>): seq<(string, AuthEntry)>
    requires Runs(s, steps)
    decreases |steps|
  {
    if steps == [] then []
    else WrittenBy(s, steps[0]) + Written(After(s, steps[0]), steps[1..])
  }

  predicate NoEdits(steps: seq<Step>) { forall k :: 0 <= k < |steps| ==> !steps[k].Outside? }

  /** Until the next edit, whatever happens, the store is what the edit left with the saves since. */
  ghost predicate EditSurvives(s: State, file: File) {
    forall steps :: Runs(s, steps) && NoEdits(steps) ==>
      Reached(s, steps).base == file && Reached(s, steps).inserts == Written(s, steps)
  }

  /** Every save that has read has read the store as these saves into that file make it. */
  predicate ReadSince(s: State, file: File, inserts: seq<(string, AuthEntry)>) {
    && s.base == file && s.inserts == inserts
    && forall t :: t in s.savers && s.savers[t].HasRead? ==> s.savers[t].base == file && s.savers[t].inserts == inserts
  }

  lemma StepReadsSince(s: State, step: Step, file: File, inserts: seq<(string, AuthEntry)>)
    requires SaveInv(s) && Enabled(s, step) && !step.Outside? && ReadSince(s, file, inserts)
    ensures ReadSince(After(s, step), file, inserts + WrittenBy(s, step))
  {
  }

  lemma SinceIs(s: State, file: File, inserts: seq<(string, AuthEntry)>)
    requires ReadSince(s, file, inserts)
    ensures s.base == file && s.inserts == inserts
  {
  }

  lemma LaterEdits(steps: seq<Step>)
    requires NoEdits(steps) && steps != []
    ensures !steps[0].Outside? && NoEdits(steps[1..])
  {
  }

  lemma {:induction false} RunReadsSince(s: State, steps: seq<Step>, file: File, inserts: seq<(string, AuthEntry)>)
    requires SaveInv(s) && Runs(s, steps) && NoEdits(steps) && ReadSince(s, file, inserts)
    ensures Reached(s, steps).base == file && Reached(s, steps).inserts == inserts + Written(s, steps)
    decreases |steps|
  {
    hide SaveInv, After, Enabled, ReadSince, NoEdits, WrittenBy;
    if steps == [] {
      SinceIs(s, file, inserts);
    } else {
      LaterEdits(steps);
      var first := WrittenBy(s, steps[0]);
      StepReadsSince(s, steps[0], file, inserts);
      StepKeepsSaves(s, steps[0]);
      RunReadsSince(After(s, steps[0]), steps[1..], file, inserts + first);
      assert (inserts + first) + Written(After(s, steps[0]), steps[1..]) == inserts + (first + Written(After(s, steps[0]), steps[1..]));
    }
  }

  /** A save that read before the edit writes its own store over it. */
  lemma StaleWrite(s: State, v: Version, t: nat)
    requires SaveInv(s) && WellStamped(v) && t in s.savers && s.savers[t].HasRead?
    ensures var edited, steps := After(s, Outside(v)), [Write(t, 0)];
            && Enabled(s, Outside(v)) && Runs(edited, steps) && NoEdits(steps)
            && Reached(edited, steps).base == s.savers[t].base
            && |Reached(edited, steps).inserts| == |s.savers[t].inserts| + 1 && |Written(edited, steps)| == 1
  {
    var edited := After(s, Outside(v));
    var steps := [Write(t, 0)];
    assert steps[1..] == [] && Runs(After(edited, steps[0]), []);
  }

  /** An edit or a delete by hand survives until the next exactly when no save has read before it, but one
      that read the very file it leaves. */
  lemma EditSurvivesExactly(s: State, v: Version)
    requires SaveInv(s) && WellStamped(v)
    ensures Enabled(s, Outside(v))
    ensures EditSurvives(After(s, Outside(v)), v.file)
            <==> forall t :: t in s.savers && s.savers[t].HasRead? ==> s.savers[t].base == v.file && s.savers[t].inserts == []
  {
    var edited := After(s, Outside(v));
    StepKeepsSaves(s, Outside(v));
    hide SaveInv, Runs, Reached, Written, NoEdits;
    if forall t :: t in s.savers && s.savers[t].HasRead? ==> s.savers[t].base == v.file && s.savers[t].inserts == [] {
      assert ReadSince(edited, v.file, []);
      forall steps | Runs(edited, steps) && NoEdits(steps)
        ensures Reached(edited, steps).base == v.file && Reached(edited, steps).inserts == Written(edited, steps)
      {
        RunReadsSince(edited, steps, v.file, []);
        assert [] + Written(edited, steps) == Written(edited, steps);
      }
    } else {
      var t :| t in s.savers && s.savers[t].HasRead? && !(s.savers[t].base == v.file && s.savers[t].inserts == []);
      StaleWrite(s, v, t);
    }
  }

  /** A store deleted by hand between a save's read and its write comes back whole: the logout is undone. */
  lemma DeleteDuringSaveIsUndone(before: Entries, key: string, entry: AuthEntry, tick: nat)
    ensures var start, steps := Start(Version(Readable(before), Some(tick))),
                               [Acquire(0, key, entry), Read(0), Outside(Version(NoFile, None)), Write(0, tick + 1)];
            && Runs(start, steps) && Reached(start, steps).versions != []
            && Now(Reached(start, steps)).file == Readable(before[key := entry])
            && Reached(start, steps).outside == NoFile && Reached(start, steps).base == Readable(before)
  {
    var s0 := Start(Version(Readable(before), Some(tick)));
    var s1 := After(s0, Acquire(0, key, entry));
    var s2 := After(s1, Read(0));
    var s3 := After(s2, Outside(Version(NoFile, None)));
    assert Enabled(s3, Write(0, tick + 1)) && Now(After(s3, Write(0, tick + 1))).file == Readable(before[key := entry]);
    var s4 := After(s3, Write(0, tick + 1));
    FourSteps(s0, Acquire(0, key, entry), Read(0), Outside(Version(NoFile, None)), Write(0, tick + 1));
    hide Runs, Reached;
  }

  lemma FourSteps(s: State, a: Step, b: Step, c: Step, d: Step)
    requires Enabled(s, a) && Enabled(After(s, a), b) && Enabled(After(After(s, a), b), c) && Enabled(After(After(After(s, a), b), c), d)
    ensures Runs(s, [a, b, c, d]) && Reached(s, [a, b, c, d]) == After(After(After(After(s, a), b), c), d)
  {
    assert Runs(s, []) && Reached(s, []) == s;
    hide Runs, Reached, After, Enabled;
    Extend(s, [], a);
    Extend(s, [a], b);
    Extend(s, [a, b], c);
    Extend(s, [a, b, c], d);
    assert [] + [a] == [a] && [a] + [b] == [a, b] && [a, b] + [c] == [a, b, c] && [a, b, c] + [d] == [a, b, c, d];
  }
}
