/** How the lists of the timer handler change: by id, by due time, and the free list. */
module TimerLists {
  import opened Sequences
  import opened TimerEngine

  lemma InsertIs(q: seq<Block>, k: nat, b: Block)
    requires Distinct(q) && k <= |q| && b !in q
    ensures Distinct(InsertAt(q, k, b)) && forall x :: x in InsertAt(q, k, b) <==> x in q || x == b
  {
    var r := InsertAt(q, k, b);
    forall x ensures x in r <==> x in q || x == b {
      assert r == q[..k] + [b] + q[k..];
      assert q == q[..k] + q[k..];
    }
  }

  lemma PopListed(roles: map<Block, Role>, byId: seq<Block>, queue: seq<Block>, pool: seq<Block>, t: Thread)
    requires Listed(roles, byId, queue, pool) && pool != []
    ensures Listed(roles[pool[0] := Adding(t)], byId, queue, pool[1..])
  {
    assert pool == [pool[0]] + pool[1..];
  }

  lemma NewListed(roles: map<Block, Role>, byId: seq<Block>, queue: seq<Block>, pool: seq<Block>, b: Block, t: Thread)
    requires Listed(roles, byId, queue, pool) && b !in roles
    ensures Listed(roles[b := Adding(t)], byId, queue, pool)
  {
  }

  /** A block that is in no list may be pooled, or forgotten. */
  lemma FreeListed(roles: map<Block, Role>, byId: seq<Block>, queue: seq<Block>, pool: seq<Block>, b: Block)
    requires Listed(roles, byId, queue, pool) && b in roles && roles[b] != Pooled && roles[b] != Queued
    ensures |pool| < MAX_TIMERS_IN_FREE_LIST ==> Listed(roles[b := Pooled], byId, queue, [b] + pool)
    ensures Listed(roles - {b}, byId, queue, pool)
  {
  }

  lemma DequeueListed(roles: map<Block, Role>, byId: seq<Block>, queue: seq<Block>, pool: seq<Block>, b: Block,
                      role: Role)
    requires Listed(roles, byId, queue, pool) && b in roles && roles[b] == Queued && role != Queued && role != Pooled
    ensures Listed(roles[b := role], Without(byId, b), Without(queue, b), pool)
  {
    WithoutIs(byId, b);
    WithoutIs(queue, b);
  }

  lemma EnqueueListed(roles: map<Block, Role>, byId: seq<Block>, queue: seq<Block>, pool: seq<Block>, b: Block, i: nat,
                      k: nat)
    requires Listed(roles, byId, queue, pool) && b in roles && roles[b] != Pooled && roles[b] != Queued
    requires i <= |byId| && k <= |queue|
    ensures Listed(roles[b := Queued], InsertAt(byId, i, b), InsertAt(queue, k, b), pool)
  {
    InsertIs(byId, i, b);
    InsertIs(queue, k, b);
  }

  /** Taking a timer out and putting it in again elsewhere keeps the lists. */
  lemma RequeueListed(roles: map<Block, Role>, byId: seq<Block>, queue: seq<Block>, pool: seq<Block>, b: Block, k: nat)
    requires Listed(roles, byId, queue, pool) && b in roles && roles[b] == Queued && k <= |Without(queue, b)|
    ensures Listed(roles, byId, InsertAt(Without(queue, b), k, b), pool)
  {
    WithoutIs(queue, b);
    InsertIs(Without(queue, b), k, b);
  }

  lemma WithoutSorted(timers: map<Block, Timer>, q: seq<Block>, b: Block)
    ensures SortedByDue(timers, q) ==> SortedByDue(timers, Without(q, b))
    ensures SortedById(timers, q) ==> SortedById(timers, Without(q, b))
  {
  }

  /** The order of the lists depends on ids, due times and stamps alone. */
  lemma SameOrder(timers: map<Block, Timer>, timers': map<Block, Timer>, q: seq<Block>)
    requires forall b :: b in q && b in timers ==>
               (b in timers' && timers'[b].id == timers[b].id && timers'[b].due == timers[b].due
                 && timers'[b].stamp == timers[b].stamp)
    ensures SortedByDue(timers, q) ==> SortedByDue(timers', q)
    ensures SortedById(timers, q) ==> SortedById(timers', q)
  {
    forall i, j | 0 <= i < j < |q|
      ensures Earlier(timers, q[i], q[j]) ==> Earlier(timers', q[i], q[j])
      ensures LowerId(timers, q[i], q[j]) ==> LowerId(timers', q[i], q[j])
    {
      assert q[i] in q && q[j] in q;
    }
  }

  lemma WithoutOrdered(timers: map<Block, Timer>, timers': map<Block, Timer>, byId: seq<Block>, queue: seq<Block>,
                       b: Block)
    requires SortedById(timers, byId) && SortedByDue(timers, queue)
    requires forall x :: x in timers ==>
               x in timers' && timers'[x].id == timers[x].id && timers'[x].due == timers[x].due
                 && timers'[x].stamp == timers[x].stamp
    ensures SortedById(timers', Without(byId, b)) && SortedByDue(timers', Without(queue, b))
  {
    WithoutSorted(timers, byId, b);
    WithoutSorted(timers, queue, b);
    SameOrder(timers, timers', Without(byId, b));
    SameOrder(timers, timers', Without(queue, b));
  }

  lemma SameIds(timers: map<Block, Timer>, timers': map<Block, Timer>, q: seq<Block>)
    requires SortedById(timers, q) && forall b :: b in timers ==> b in timers' && timers'[b].id == timers[b].id
    ensures SortedById(timers', q)
  {
    forall i, j | 0 <= i < j < |q| ensures LowerId(timers', q[i], q[j]) {
      assert LowerId(timers, q[i], q[j]);
    }
  }

  lemma DueBetween(timers: map<Block, Timer>, q: seq<Block>, b: Block, k: nat)
    requires SortedByDue(timers, q) && b in timers && k <= |q|
    requires (forall i :: 0 <= i < k ==> Earlier(timers, q[i], b)) && forall i :: k <= i < |q| ==>
             Earlier(timers, b, q[i])
    ensures SortedByDue(timers, InsertAt(q, k, b))
  {
    var r := InsertAt(q, k, b);
    forall i, j | 0 <= i < j < |r| ensures Earlier(timers, r[i], r[j]) {
      assert r[i] == if i < k then q[i] else if i == k then b else q[i - 1];
      assert r[j] == if j < k then q[j] else if j == k then b else q[j - 1];
    }
  }

  /** Inserted behind all that are due no later, with a new stamp, a timer is in order. */
  lemma InsertSortedByDue(timers: map<Block, Timer>, timers': map<Block, Timer>, stamp: nat, q: seq<Block>, b: Block)
    requires SortedByDue(timers, q) && b in timers && b !in q
    requires forall x :: x in q ==> x in timers && timers[x].stamp < stamp
    requires timers' == timers[b := timers[b].(stamp := stamp)]
    ensures SortedByDue(timers', InsertAt(q, UpperBound(q, ByDue(timers, timers[b].due)), b))
  {
    var probe := ByDue(timers, timers[b].due);
    var k := UpperBound(q, probe);
    forall i | 0 <= i < k ensures Earlier(timers', q[i], b) {
      assert probe(q[i]) >= 0 && q[i] in q;
    }
    forall i | k <= i < |q| ensures Earlier(timers', b, q[i]) {
      assert probe(q[k]) < 0 && q[i] in q && q[k] in q;
      assert k < i ==> Earlier(timers, q[k], q[i]);
    }
    forall i, j | 0 <= i < j < |q| ensures Earlier(timers', q[i], q[j]) {
      assert Earlier(timers, q[i], q[j]) && q[i] in q && q[j] in q;
    }
    DueBetween(timers', q, b, k);
  }

  lemma IdBetween(timers: map<Block, Timer>, q: seq<Block>, b: Block, k: nat)
    requires SortedById(timers, q) && b in timers && k <= |q|
    requires (forall i :: 0 <= i < k ==> LowerId(timers, q[i], b)) && forall i :: k <= i < |q| ==>
             LowerId(timers, b, q[i])
    ensures SortedById(timers, InsertAt(q, k, b))
  {
    var r := InsertAt(q, k, b);
    forall i, j | 0 <= i < j < |r| ensures LowerId(timers, r[i], r[j]) {
      assert r[i] == if i < k then q[i] else if i == k then b else q[i - 1];
      assert r[j] == if j < k then q[j] else if j == k then b else q[j - 1];
    }
  }

  /** The list by id takes a new id in order. */
  lemma InsertSortedById(timers: map<Block, Timer>, q: seq<Block>, b: Block)
    requires SortedById(timers, q) && b in timers && b !in q
    requires forall x :: x in q ==> x in timers && timers[x].id != timers[b].id
    ensures SortedById(timers, InsertAt(q, LowerBound(q, ById(timers, timers[b].id)), b))
  {
    var probe := ById(timers, timers[b].id);
    var k := LowerBound(q, probe);
    forall i | 0 <= i < k ensures LowerId(timers, q[i], b) {
      assert probe(q[i]) > 0 && q[i] in q;
    }
    forall i | k <= i < |q| ensures LowerId(timers, b, q[i]) {
      assert probe(q[k]) <= 0 && q[i] in q && q[k] in q;
      assert k < i ==> LowerId(timers, q[k], q[i]);
    }
    IdBetween(timers, q, b, k);
  }

  /** A new timer goes into both lists. */
  lemma InsertOrdered(timers: map<Block, Timer>, timers': map<Block, Timer>, roles: map<Block, Role>,
                      byId: seq<Block>, queue: seq<Block>, pool: seq<Block>, b: Block, stamp: nat)
    requires Listed(roles, byId, queue, pool) && SortedById(timers, byId) && SortedByDue(timers, queue)
    requires b in timers && b in roles && roles[b] != Queued && roles[b] != Pooled
    requires forall x :: x in queue ==> x in timers && timers[x].stamp < stamp && timers[x].id != timers[b].id
    requires timers' == timers[b := timers[b].(stamp := stamp)]
    ensures var byId' := InsertAt(byId, LowerBound(byId, ById(timers, timers[b].id)), b);
            var queue' := InsertAt(queue, UpperBound(queue, ByDue(timers, timers[b].due)), b);
            Listed(roles[b := Queued], byId', queue', pool) && SortedById(timers', byId')
              && SortedByDue(timers', queue')
  {
    var i, k := LowerBound(byId, ById(timers, timers[b].id)), UpperBound(queue, ByDue(timers, timers[b].due));
    forall x | x in byId ensures x in timers && timers[x].id != timers[b].id {
      assert x in queue;
    }
    EnqueueListed(roles, byId, queue, pool, b, i, k);
    InsertSortedByDue(timers, timers', stamp, queue, b);
    InsertSortedById(timers, byId, b);
    SameIds(timers, timers', InsertAt(byId, i, b));
  }

  /** A timer leaves both lists and is pooled, or forgotten. */
  lemma ReleaseListed(roles: map<Block, Role>, byId: seq<Block>, queue: seq<Block>, pool: seq<Block>, b: Block)
    requires Listed(roles, byId, queue, pool) && b in roles && roles[b] == Queued
    ensures |pool| < MAX_TIMERS_IN_FREE_LIST ==>
            Listed(roles[b := Pooled], Without(byId, b), Without(queue, b), [b] + pool)
    ensures Listed(roles - {b}, Without(byId, b), Without(queue, b), pool)
    ensures b !in Without(byId, b) && b !in Without(queue, b)
  {
    WithoutIs(byId, b);
    WithoutIs(queue, b);
  }

  /** A timer with a new due time and stamp moves in the queue. */
  lemma RequeueSortedByDue(timers: map<Block, Timer>, timers': map<Block, Timer>, queue: seq<Block>, b: Block,
                           again: Timer)
    requires Distinct(queue) && SortedByDue(timers, queue)
    requires b in timers && again.id == timers[b].id && timers' == timers[b := again]
    requires forall x :: x in queue ==> x in timers && timers[x].stamp < again.stamp
    ensures var rest := Without(queue, b);
            var k := UpperBound(rest, ByDue(timers[b := timers[b].(due := again.due)], again.due));
            SortedByDue(timers', InsertAt(rest, k, b))
  {
    var rest := Without(queue, b);
    var timers1 := timers[b := timers[b].(due := again.due)];
    var timers2 := timers1[b := timers1[b].(stamp := again.stamp)];
    var k := UpperBound(rest, ByDue(timers1, again.due));
    WithoutIs(queue, b);
    WithoutSorted(timers, queue, b);
    SameOrder(timers, timers1, rest);
    InsertSortedByDue(timers1, timers2, again.stamp, rest, b);
    SameOrder(timers2, timers', InsertAt(rest, k, b));
  }

  /** It stays in the list by id. */
  lemma RequeueOrdered(timers: map<Block, Timer>, timers': map<Block, Timer>, roles: map<Block, Role>,
                       byId: seq<Block>, queue: seq<Block>, pool: seq<Block>, b: Block, again: Timer)
    requires Listed(roles, byId, queue, pool) && SortedById(timers, byId) && SortedByDue(timers, queue)
    requires b in timers && b in roles && roles[b] == Queued && again.id == timers[b].id
             && timers' == timers[b := again]
    requires forall x :: x in queue ==> x in timers && timers[x].stamp < again.stamp
    ensures var rest := Without(queue, b);
            var k := UpperBound(rest, ByDue(timers[b := timers[b].(due := again.due)], again.due));
            Listed(roles, byId, InsertAt(rest, k, b), pool) && SortedByDue(timers', InsertAt(rest, k, b))
    ensures SortedById(timers', byId)
  {
    var rest := Without(queue, b);
    var k := UpperBound(rest, ByDue(timers[b := timers[b].(due := again.due)], again.due));
    RequeueListed(roles, byId, queue, pool, b, k);
    RequeueSortedByDue(timers, timers', queue, b, again);
    SameIds(timers, timers', byId);
  }
}
