/** `journal_lock`: the process-wide table that hands every journal handle of one path the same append
    lock, holding each lock only weakly. */
module JournalLocks {
  import opened Bytes

  type LockId = nat
  type HandleId = nat

  ghost predicate Consistent(locks: map<string, LockId>, held: map<HandleId, LockId>, unused: nat, path: map<HandleId, string>) {
    && path.Keys == held.Keys
    // a live handle's lock is the one its path leads to
    && (forall h :: h in held ==> path[h] in locks && locks[path[h]] == held[h])
    // no two paths lead to one lock, and no lock id is ahead of the counter
    && (forall p, q :: p in locks && q in locks && p != q ==> locks[p] != locks[q])
    && (forall p :: p in locks ==> locks[p] < unused)
  }

  /** The entries some handle keeps alive. */
  function Pruned(locks: map<string, LockId>, held: map<HandleId, LockId>): map<string, LockId> {
    map q | q in locks && locks[q] in held.Values :: locks[q]
  }

  lemma PruneKeeps(locks: map<string, LockId>, held: map<HandleId, LockId>, unused: nat, path: map<HandleId, string>)
    requires Consistent(locks, held, unused, path)
    ensures Consistent(Pruned(locks, held), held, unused, path)
  {
    forall h | h in held
      ensures path[h] in Pruned(locks, held)
    {
      assert locks[path[h]] in held.Values;
    }
  }

  /** Minting a lock for a path that has none. */
  lemma MintKeeps(locks: map<string, LockId>, held: map<HandleId, LockId>, unused: nat, path: map<HandleId, string>, p: string)
    requires Consistent(locks, held, unused, path) && p !in locks
    ensures Consistent(locks[p := unused], held, unused + 1, path)
  {
  }

  /** Giving a new handle the lock of its path. */
  lemma HoldKeeps(locks: map<string, LockId>, held: map<HandleId, LockId>,
      unused: nat, path: map<HandleId, string>, p: string, h: HandleId)
    requires Consistent(locks, held, unused, path) && p in locks && h !in held
    ensures Consistent(locks, held[h := locks[p]], unused, path[h := p])
    ensures forall k :: k in held ==> (held[k] == locks[p] <==> path[k] == p)
  {
    forall k | k in held
      ensures held[k] == locks[p] <==> path[k] == p
    {
      assert path[k] in locks && locks[path[k]] == held[k];
    }
  }

  class LockTable {
    /** The weak table. */
    var locks: map<string, LockId>
    /** The strong references: which lock each live handle holds. */
    var held: map<HandleId, LockId>
    var unused: LockId
    /** The path each live handle was opened for. */
    ghost var path: map<HandleId, string>

    ghost predicate Valid()
      reads this
    {
      Consistent(locks, held, unused, path)
    }

    constructor ()
      ensures Valid() && held == map[]
    {
      locks, held, unused, path := map[], map[], 0, map[];
    }

    /** Two live handles exclude each other exactly when they are on the same path. */
    lemma SamePathSameLock(h: HandleId, k: HandleId)
      requires Valid() && h in held && k in held
      ensures held[h] == held[k] <==> path[h] == path[k]
    {
      assert path[h] in locks && path[k] in locks;
    }

    /** Drop the entries no handle keeps alive, reuse this path's lock if it survived, else mint one. */
    method JournalLock(p: string, h: HandleId) returns (lock: LockId)
      requires Valid() && h !in held
      modifies this
      ensures Valid()
      ensures held == old(held)[h := lock] && path == old(path)[h := p]
      ensures forall k :: k in old(held) ==> (old(held)[k] == lock <==> old(path)[k] == p)
    {
      hide Consistent;
      PruneKeeps(locks, held, unused, path);
      locks := Pruned(locks, held);
      if p in locks {
        lock := locks[p];
      } else {
        MintKeeps(locks, held, unused, path, p);
        lock := unused;
        unused := unused + 1;
        locks := locks[p := lock];
      }
      HoldKeeps(locks, held, unused, path, p, h);
      held := held[h := lock];
      path := path[h := p];
    }

    /** A handle is dropped; the table forgets its lock only at the next lookup. */
    method Drop(h: HandleId)
      requires Valid() && h in held
      modifies this
      ensures Valid() && held == old(held) - {h} && path == old(path) - {h}
    {
      held := held - {h};
      path := path - {h};
    }
  }
}
