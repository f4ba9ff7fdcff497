/** sync.Pool as the packet pools use it: the objects of one Go type,
    named by their identity, and the bag of identities the pool holds.

    sync.Pool promises no particular object from Get, so Get takes a
    `pick` that selects one; when the bag is empty Get calls the pool's
    New function, which allocates an object under the next identity.
    Put adds an identity to the bag. The garbage collector dropping
    pooled objects is not modelled (it only makes New run more often). */
module SyncPool {
  /** The identity of a heap object: its index in its Store. */
  type Ref = nat

  /** All objects of one type ever allocated, and the pool's bag. */
  datatype Store<T> = Store(objs: seq<T>, pool: seq<Ref>)

  /** Every pooled identity names an allocated object. */
  ghost predicate StoreOk<T>(s: Store<T>)
  {
    forall x | x in s.pool :: x < |s.objs|
  }

  /** Every object occurs in the bag at most once. */
  ghost predicate NoDup(pool: seq<Ref>)
  {
    forall i, j | 0 <= i < j < |pool| :: pool[i] != pool[j]
  }

  /** The object at index pick mod len leaves a non-empty bag; every
      other object stays. */
  function Take(pool: seq<Ref>, pick: nat): (r: (Ref, seq<Ref>))
    requires pool != []
    ensures r.0 in pool && |r.1| == |pool| - 1
    ensures forall x | x in r.1 :: x in pool
    ensures forall x | x in pool && x != r.0 :: x in r.1
    ensures NoDup(pool) ==> NoDup(r.1) && r.0 !in r.1
  {
    var i := pick % |pool|;
    var rest := pool[..i] + pool[i + 1..];
    assert forall k | 0 <= k < |rest| :: rest[k] == (if k < i then pool[k] else pool[k + 1]);
    assert forall x | x in pool && x != pool[i] :: x in rest by {
      forall x | x in pool && x != pool[i]
        ensures x in rest
      {
        var k :| 0 <= k < |pool| && pool[k] == x;
        if k < i { assert rest[k] == x; } else { assert rest[k - 1] == x; }
      }
    }
    (pool[i], rest)
  }

  /** Pool.Get: a pooled object, or New's value `created` under a new
      identity when the bag is empty. Either way the object handed out
      is no longer in the bag and nothing else is added to or changed in
      the store. */
  function Get<T>(s: Store<T>, created: T, pick: nat): (r: (Store<T>, Ref))
    requires StoreOk(s)
    ensures StoreOk(r.0) && r.1 < |r.0.objs|
    ensures s.pool == [] ==> r.1 == |s.objs| && r.0 == Store(s.objs + [created], [])
    ensures s.pool != [] ==> r.1 in s.pool && r.0.objs == s.objs
    ensures forall x | x in r.0.pool :: x in s.pool
    ensures forall x | x in s.pool && x != r.1 :: x in r.0.pool
    ensures NoDup(s.pool) ==> NoDup(r.0.pool) && r.1 !in r.0.pool
  {
    if s.pool == [] then
      (Store(s.objs + [created], []), |s.objs|)
    else
      var (x, rest) := Take(s.pool, pick);
      (s.(pool := rest), x)
  }

  /** Pool.Put: the object joins the bag. */
  function Put<T>(s: Store<T>, x: Ref): (r: Store<T>)
    requires StoreOk(s) && x < |s.objs|
    ensures StoreOk(r) && r.objs == s.objs
    ensures forall y :: y in r.pool <==> y in s.pool || y == x
    ensures NoDup(s.pool) && x !in s.pool ==> NoDup(r.pool)
  {
    s.(pool := s.pool + [x])
  }
}
