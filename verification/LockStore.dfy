/** Advisory feature locks: a map that forgets expired locks when it happens to see them, against the history of all locks. */
module LockStore {
  // Times are nanoseconds.
  datatype Lock = Lock(table: string, ids: set<string>, expires: int)

  type Locks = map<string, Lock>

  // ---- The verdict, as a question about a set of locks ----

  predicate Live(lock: Lock, now: int) {
    !(lock.expires < now)
  }

  /** A live lock other than `own` on the table holds one of the features. */
  predicate Holds(locks: Locks, id: string, now: int, table: string, target: set<string>, own: string)
    requires id in locks
  {
    id != own && locks[id].table == table && Live(locks[id], now) && exists t | t in target :: t in locks[id].ids
  }

  predicate Held(locks: Locks, now: int, table: string, target: set<string>, own: string) {
    exists id | id in locks :: Holds(locks, id, now, table, target, own)
  }

  // `kept` is what remains of `all` after forgetting some locks that had expired by `clock`.
  predicate Remains(all: Locks, kept: Locks, clock: int) {
    && (forall id | id in kept :: id in all && all[id] == kept[id])
    && (forall id | id in all && id !in kept :: all[id].expires < clock)
  }

  /** Forgetting expired locks changes no later verdict. */
  lemma ForgettingIsSafe(all: Locks, kept: Locks, clock: int, now: int, table: string, target: set<string>, own: string)
    requires Remains(all, kept, clock) && clock <= now
    ensures Held(kept, now, table, target, own) <==> Held(all, now, table, target, own)
  {
    if Held(kept, now, table, target, own) {
      var id :| id in kept && Holds(kept, id, now, table, target, own);
      assert Holds(all, id, now, table, target, own);
    }
    if Held(all, now, table, target, own) {
      var id :| id in all && Holds(all, id, now, table, target, own);
      assert id in kept;
      assert Holds(kept, id, now, table, target, own);
    }
  }

  lemma RemainsLater(all: Locks, kept: Locks, clock: int, now: int)
    requires Remains(all, kept, clock) && clock <= now
    ensures Remains(all, kept, now)
  {
  }

  // ---- Expiry ----

  const MINUTE := 60_000_000_000

  // A signed 64-bit integer.
  function Wrap64(n: int): int {
    (n + 0x8000_0000_0000_0000) % 0x1_0000_0000_0000_0000 - 0x8000_0000_0000_0000
  }

  const LONGEST := 153_722_867

  /** Five minutes unless a positive number is asked for; the product is a 64-bit duration. */
  function LockExpiry(minutes: int): int {
    Wrap64((if minutes <= 0 then 5 else minutes) * MINUTE)
  }

  /** A lock lasts as many minutes as were asked for exactly when their nanoseconds fit 64 bits. */
  lemma ExpiryExactly(minutes: int)
    requires minutes > 0
    ensures LockExpiry(minutes) == minutes * MINUTE <==> minutes <= LONGEST
    ensures minutes <= LONGEST ==> LockExpiry(minutes) > 0
  {
    var n := minutes * MINUTE;
    assert n <= 0x7FFF_FFFF_FFFF_FFFF <==> minutes <= LONGEST;
    if n <= 0x7FFF_FFFF_FFFF_FFFF {
      assert (n + 0x8000_0000_0000_0000) % 0x1_0000_0000_0000_0000 == n + 0x8000_0000_0000_0000;
    }
  }

  /** A lock has expired before it is issued exactly when its nanoseconds are an odd number of times beyond a signed 64-bit duration. */
  lemma BornExpiredExactly(minutes: int)
    requires minutes > 0
    ensures LockExpiry(minutes) < 0 <==> minutes * MINUTE / 0x8000_0000_0000_0000 % 2 == 1
  {
    var n := minutes * MINUTE;
    WrapOfHalves(n / 0x8000_0000_0000_0000, n % 0x8000_0000_0000_0000);
  }

  lemma WrapOfHalves(half: int, rest: int)
    requires 0 <= rest < 0x8000_0000_0000_0000
    ensures Wrap64(half * 0x8000_0000_0000_0000 + rest) < 0 <==> half % 2 == 1
  {
    var q := (half + 1) / 2;
    if half % 2 == 0 {
      Wrapped(q, rest);
    } else {
      Wrapped(q, rest - 0x8000_0000_0000_0000);
    }
  }

  lemma Wrapped(q: int, r: int)
    requires -0x8000_0000_0000_0000 <= r < 0x8000_0000_0000_0000
    ensures Wrap64(q * 0x1_0000_0000_0000_0000 + r) == r
  {
  }

  /** Twice the longest time is such that the lock is live again, for less than a minute. */
  lemma ShortLived()
    ensures 0 < LockExpiry(307_445_735) < MINUTE
  {
  }

  /** One minute more and the lock has expired before it is issued. */
  lemma ExpiryOverflows()
    ensures LockExpiry(LONGEST + 1) < 0
  {
  }

  // ---- The store ----

  class Store {
    var entries: Locks
    // Every lock ever issued, and the latest time seen.
    ghost var issued: Locks
    ghost var clock: int

    ghost predicate Valid()
      reads this
    {
      Remains(issued, entries, clock)
    }

    constructor ()
      ensures Valid() && issued == map[] && entries == map[]
    {
      entries, issued, clock := map[], map[], 0;
    }

    /**
     Whether an edit of the target features may proceed: exactly when no lock ever issued, still live, under another
     id and on the same table holds one of them. Expired locks met on the way are forgotten, in whatever order the
     map yields its entries, up to the lock that refuses the edit.
     */
    method EnforceLocks(now: int, table: string, target: set<string>, own: string) returns (ok: bool)
      requires Valid() && clock <= now
      modifies this
      ensures Valid() && issued == old(issued) && clock == now
      ensures ok <==> !Held(issued, now, table, target, own)
      ensures forall id | id in old(entries) && Live(old(entries)[id], now) :: id in entries
    {
      clock := now;
      RemainsLater(issued, entries, old(clock), now);
      if target == {} {
        return true;
      }
      ghost var before := entries;
      ghost var all := issued;
      var pending := entries.Keys;
      while pending != {}
        invariant issued == all && clock == now
        invariant Remains(all, entries, now)
        invariant forall id | id in pending :: id in entries
        invariant forall id | id in entries :: id in pending || !Holds(entries, id, now, table, target, own)
        invariant forall id | id in before && Live(before[id], now) :: id in entries
        invariant forall id | id in entries :: id in before && before[id] == entries[id]
        decreases |pending|
      {
        var id :| id in pending;
        pending := pending - {id};
        var e := entries[id];
        if e.expires < now {
          entries := entries - {id};
        } else if id != own && e.table == table {
          var hit := AnyLocked(target, e.ids);
          if hit {
            assert Holds(entries, id, now, table, target, own);
            ForgettingIsSafe(issued, entries, now, now, table, target, own);
            return false;
          }
        }
      }
      ForgettingIsSafe(issued, entries, now, now, table, target, own);
      return true;
    }

    /** LockFeature: a new lock under a fresh id, live from now for its expiry. */
    method LockFeature(now: int, id: string, table: string, ids: set<string>, minutes: int)
      requires Valid() && clock <= now && id !in issued
      modifies this
      ensures Valid() && clock == now
      ensures issued == old(issued)[id := Lock(table, ids, now + LockExpiry(minutes))]
      ensures entries == old(entries)[id := Lock(table, ids, now + LockExpiry(minutes))]
    {
      RemainsLater(issued, entries, clock, now);
      var lock := Lock(table, ids, now + LockExpiry(minutes));
      entries := entries[id := lock];
      issued := issued[id := lock];
      clock := now;
    }
  }

  method AnyLocked(target: set<string>, ids: set<string>) returns (hit: bool)
    ensures hit <==> exists t | t in target :: t in ids
  {
    var pending := target;
    while pending != {}
      invariant pending <= target
      invariant forall t | t in target && t in ids :: t in pending
      decreases |pending|
    {
      var t :| t in pending;
      if t in ids {
        return true;
      }
      pending := pending - {t};
    }
    return false;
  }

  /** A lock refuses every other request for its features until it expires, and none afterwards or of its owner. */
  lemma NewLockHolds(locks: Locks, id: string, lock: Lock, now: int, target: set<string>, own: string)
    requires id !in locks && !Held(locks, now, lock.table, target, own)
    ensures Held(locks[id := lock], now, lock.table, target, own) <==>
            id != own && Live(lock, now) && exists t | t in target :: t in lock.ids
  {
    var more := locks[id := lock];
    if Held(more, now, lock.table, target, own) {
      var i :| i in more && Holds(more, i, now, lock.table, target, own);
      assert i != id ==> Holds(locks, i, now, lock.table, target, own);
    }
    if id != own && Live(lock, now) && exists t | t in target :: t in lock.ids {
      assert Holds(more, id, now, lock.table, target, own);
    }
  }
}
