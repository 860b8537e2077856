/**
 * The projectile pool: a queue of idle projectiles and a list of the ones in
 * flight.  Projectiles are opaque ids; instantiating one hands out the next
 * unused id.  The singleton bookkeeping and the pool's parent object are not
 * part of this model.
 */
module Projectiles {
  import opened Optional
  import opened Lists

  /** A pooled projectile object. */
  type Projectile = nat

  function Max(a: int, b: int): int { if a >= b then a else b }

  /**
   * Every projectile is idle or in use, not both and not twice, every one
   * was instantiated (its id is below `created`), and together they number
   * at most `capacity`.
   */
  ghost predicate PoolInvariant(available: seq<Projectile>, active: seq<Projectile>, created: nat, capacity: nat)
  {
    && Distinct(available) && Distinct(active)
    && (forall p :: p in available ==> p !in active)
    && (forall p :: p in available ==> p < created)
    && (forall p :: p in active ==> p < created)
    && |available| + |active| <= capacity
  }

  /**
   * The ids 0 .. n - 1 handed out by n instantiations from the start: as an
   * idle queue with nothing in use they satisfy the pool invariant for any
   * capacity of at least n.
   */
  function FirstIds(n: nat): (ids: seq<Projectile>)
    ensures |ids| == n && forall i :: 0 <= i < n ==> ids[i] == i
    ensures forall capacity: nat :: capacity >= n ==> PoolInvariant(ids, [], n, capacity)
  {
    seq(n, i => i)
  }

  /** A list without repeats stays so when an entry it lacks is appended. */
  lemma AppendDistinct(s: seq<Projectile>, x: Projectile)
    requires Distinct(s) && x !in s
    ensures Distinct(s + [x])
  {
    var t := s + [x];
    forall i, j | 0 <= i < j < |t| ensures t[i] != t[j] {
      if j < |s| {
        assert t[i] == s[i] && t[j] == s[j];
      } else {
        assert t[i] == s[i] && t[j] == x;
      }
    }
  }

  /** The tail of a list without repeats has no repeats and lacks the head. */
  lemma TailDistinct(s: seq<Projectile>)
    requires Distinct(s) && |s| > 0
    ensures Distinct(s[1..]) && s[0] !in s[1..]
  {
    forall i, j | 0 <= i < j < |s| - 1 ensures s[1..][i] != s[1..][j] {
      assert s[1..][i] == s[i + 1] && s[1..][j] == s[j + 1];
    }
    forall k | 0 <= k < |s| - 1 ensures s[1..][k] != s[0] {
      assert s[1..][k] == s[k + 1];
    }
  }

  /** Taking the front of the queue into use keeps the invariant. */
  lemma TakeIdleKeeps(available: seq<Projectile>, active: seq<Projectile>, created: nat, capacity: nat)
    requires PoolInvariant(available, active, created, capacity) && |available| > 0
    ensures PoolInvariant(available[1..], active + [available[0]], created, capacity)
  {
    TailDistinct(available);
    AppendDistinct(active, available[0]);
    assert forall q :: q in available[1..] ==> q in available;
  }

  /** Putting a new projectile into use keeps the invariant while fewer than the capacity are in use. */
  lemma CreateKeeps(active: seq<Projectile>, created: nat, capacity: nat)
    requires PoolInvariant([], active, created, capacity) && |active| < capacity
    ensures PoolInvariant([], active + [created], created + 1, capacity)
  {
    AppendDistinct(active, created);
  }

  /** Moving the oldest projectile in use to the back keeps the invariant. */
  lemma RecycleKeeps(active: seq<Projectile>, created: nat, capacity: nat)
    requires PoolInvariant([], active, created, capacity) && |active| > 0
    ensures PoolInvariant([], active[1..] + [active[0]], created, capacity)
  {
    TailDistinct(active);
    AppendDistinct(active[1..], active[0]);
    assert forall q :: q in active[1..] ==> q in active;
  }

  /** Returning a projectile that is in use keeps the invariant. */
  lemma ReturnKeeps(available: seq<Projectile>, active: seq<Projectile>, created: nat, capacity: nat, p: Projectile)
    requires PoolInvariant(available, active, created, capacity) && p in active
    ensures PoolInvariant(available + [p], RemoveFirst(active, p), created, capacity)
  {
    RemoveFirstGone(active, p);
  }

  class SimpleProjectilePool {
    /** Whether a projectile prefab is assigned. */
    const hasPrefab: bool
    const initialPoolSize: int
    const maxPoolSize: int
    /** The idle projectiles, the front of the queue first. */
    var availableProjectiles: seq<Projectile>
    /** The projectiles in use, the oldest first. */
    var activeProjectiles: seq<Projectile>
    /** How many projectiles were instantiated; their ids are 0 .. created - 1. */
    var created: nat

    /** The most projectiles the pool holds: the initial size, or the cap when that is larger. */
    function Capacity(): (c: nat)
      reads this
      ensures c >= initialPoolSize && c >= maxPoolSize
    {
      Max(Max(initialPoolSize, maxPoolSize), 0)
    }

    ghost predicate Valid()
      reads this
    {
      PoolInvariant(availableProjectiles, activeProjectiles, created, Capacity())
    }

    /** Awake of the first pool: InitializePool fills the queue with initialPoolSize new projectiles. */
    constructor (hasPrefab: bool, initialPoolSize: int, maxPoolSize: int)
      ensures this.hasPrefab == hasPrefab && this.initialPoolSize == initialPoolSize
      ensures this.maxPoolSize == maxPoolSize
      ensures var n := if hasPrefab then Max(initialPoolSize, 0) else 0;
              created == n && availableProjectiles == FirstIds(n) && activeProjectiles == []
      ensures Valid()
    {
      this.hasPrefab := hasPrefab;
      this.initialPoolSize := initialPoolSize;
      this.maxPoolSize := maxPoolSize;
      availableProjectiles := [];
      activeProjectiles := [];
      created := 0;
      new;
      InitializePool();
      assert availableProjectiles == FirstIds(created);
    }

    /**
     * InitializePool: without a prefab nothing happens; otherwise
     * initialPoolSize new projectiles join the back of the queue.
     */
    method InitializePool()
      modifies this`availableProjectiles, this`created
      ensures var n := if hasPrefab then Max(initialPoolSize, 0) else 0;
              && created == old(created) + n
              && availableProjectiles == old(availableProjectiles) + seq(n, i => old(created) + i)
    {
      if !hasPrefab {
        return;
      }
      for i := 0 to Max(initialPoolSize, 0)
        invariant created == old(created) + i
        invariant availableProjectiles == old(availableProjectiles) + seq(i, j => old(created) + j)
      {
        var _ := CreateNewProjectile();
      }
    }

    /** CreateNewProjectile: a new, idle projectile at the back of the queue. */
    method CreateNewProjectile() returns (projectile: Projectile)
      modifies this`availableProjectiles, this`created
      ensures projectile == old(created) && created == old(created) + 1
      ensures availableProjectiles == old(availableProjectiles) + [projectile]
    {
      projectile := created;
      created := created + 1;
      availableProjectiles := availableProjectiles + [projectile];
    }

    /**
     * GetProjectile: the front of the queue when there is one; otherwise a
     * new projectile while fewer than maxPoolSize are in use; otherwise the
     * oldest projectile in use is recycled.  The projectile handed out goes
     * to the back of the list in use.  With nothing idle, nothing in use and
     * a cap of zero or less there is no oldest projectile: that case, where
     * the list access fails, yields None and changes nothing.
     */
    method GetProjectile() returns (projectile: Option<Projectile>)
      modifies this`availableProjectiles, this`activeProjectiles, this`created
      ensures |old(availableProjectiles)| > 0 ==>
                && projectile == Some(old(availableProjectiles)[0])
                && availableProjectiles == old(availableProjectiles)[1..]
                && activeProjectiles == old(activeProjectiles) + [projectile.value]
                && created == old(created)
      ensures |old(availableProjectiles)| == 0 && |old(activeProjectiles)| < maxPoolSize ==>
                && projectile == Some(old(created))
                && availableProjectiles == []
                && activeProjectiles == old(activeProjectiles) + [projectile.value]
                && created == old(created) + 1
      ensures |old(availableProjectiles)| == 0 && |old(activeProjectiles)| >= maxPoolSize && |old(activeProjectiles)| > 0 ==>
                && projectile == Some(old(activeProjectiles)[0])
                && availableProjectiles == []
                && activeProjectiles == old(activeProjectiles)[1..] + [projectile.value]
                && created == old(created)
      ensures |availableProjectiles| + |activeProjectiles|
              == old(|availableProjectiles| + |activeProjectiles|) + (created - old(created))
      ensures projectile.None? <==> |old(availableProjectiles)| == 0 && |old(activeProjectiles)| == 0 && maxPoolSize <= 0
      ensures projectile.None? ==> unchanged(this)
      ensures old(Valid()) ==> Valid()
    {
      ghost var valid := Valid();
      var p;
      if |availableProjectiles| > 0 {
        if valid {
          TakeIdleKeeps(availableProjectiles, activeProjectiles, created, Capacity());
        }
        p := availableProjectiles[0];
        availableProjectiles := availableProjectiles[1..];
      } else if |activeProjectiles| < maxPoolSize {
        if valid {
          CreateKeeps(activeProjectiles, created, Capacity());
        }
        p := CreateNewProjectile();
        availableProjectiles := availableProjectiles[1..];
      } else if |activeProjectiles| > 0 {
        if valid {
          RecycleKeeps(activeProjectiles, created, Capacity());
        }
        p := activeProjectiles[0];
        ghost var rest := activeProjectiles[1..];
        assert RemoveFirst(activeProjectiles, p) == rest;
        ReturnProjectile(Some(p));
        p := availableProjectiles[0];
        availableProjectiles := availableProjectiles[1..];
        assert activeProjectiles == rest && availableProjectiles == [];
      } else {
        return None;
      }
      activeProjectiles := activeProjectiles + [p];
      projectile := Some(p);
    }

    /**
     * ReturnProjectile: null is ignored; otherwise the projectile leaves the
     * list in use (its first occurrence) and joins the back of the queue,
     * whether or not it was in use, so returning one twice queues it twice.
     */
    method ReturnProjectile(projectile: Option<Projectile>)
      modifies this`availableProjectiles, this`activeProjectiles
      ensures projectile.None? ==> unchanged(this)
      ensures projectile.Some? ==>
                && activeProjectiles == RemoveFirst(old(activeProjectiles), projectile.value)
                && availableProjectiles == old(availableProjectiles) + [projectile.value]
      ensures projectile.Some? && projectile.value !in old(activeProjectiles) ==>
                |availableProjectiles| + |activeProjectiles| == old(|availableProjectiles| + |activeProjectiles|) + 1
      ensures old(Valid()) && projectile.Some? && projectile.value in old(activeProjectiles) ==> Valid()
    {
      if projectile == None {
        return;
      }
      var p := projectile.value;
      if Valid() && p in activeProjectiles {
        ReturnKeeps(availableProjectiles, activeProjectiles, created, Capacity(), p);
      }
      activeProjectiles := RemoveFirst(activeProjectiles, p);
      availableProjectiles := availableProjectiles + [p];
    }
  }
}
