/** The delegation cache: stakes kept by node and by delegator, with a running total for each. */
module Delegation {
  import opened Basics
  import opened Model

  type Stakes = map<Addr, int>
  type Nested = map<Addr, Stakes>

  // ---------- Sums ----------

  ghost function StakeSum(m: Stakes): int {
    if m == map[] then 0 else
      var k :| k in m;
      m[k] + StakeSum(m - {k})
  }

  /** A sum can be taken in any order. */
  lemma {:induction false} SumWithout(m: Stakes, k: Addr)
    requires k in m
    ensures StakeSum(m) == m[k] + StakeSum(m - {k})
    decreases |m|
  {
    var j :| j in m && StakeSum(m) == m[j] + StakeSum(m - {j});
    if j != k {
      SumWithout(m - {j}, k);
      SumWithout(m - {k}, j);
      assert m - {j} - {k} == m - {k} - {j};
    }
  }

  lemma SumPut(m: Stakes, k: Addr, v: int)
    ensures StakeSum(m[k := v]) == StakeSum(m) - (if k in m then m[k] else 0) + v
  {
    SumWithout(m[k := v], k);
    assert m[k := v] - {k} == m - {k};
    if k in m {
      SumWithout(m, k);
    } else {
      assert m - {k} == m;
    }
  }

  // ---------- Nested maps ----------

  function Inner(m: Nested, a: Addr): Stakes {
    if a in m then m[a] else map[]
  }

  function Get(m: Nested, a: Addr, b: Addr): Option<int> {
    if a in m && b in m[a] then Some(m[a][b]) else None
  }

  function Amount(m: Nested, a: Addr, b: Addr): int {
    if a in m && b in m[a] then m[a][b] else 0
  }

  function Put(m: Nested, a: Addr, b: Addr, v: int): Nested {
    m[a := Inner(m, a)[b := v]]
  }

  // Removes an entry, and its inner map once that is empty.
  function Drop(m: Nested, a: Addr, b: Addr): Nested {
    if a !in m then m
    else if m[a] - {b} == map[] then m - {a}
    else m[a := m[a] - {b}]
  }

  ghost predicate Transposed(m: Nested, n: Nested) {
    forall a, b :: Get(m, a, b) == Get(n, b, a)
  }

  predicate NoEmpty(m: Nested) {
    forall a | a in m :: m[a] != map[]
  }

  ghost predicate Totals(m: Nested, t: Stakes) {
    && (forall a | a in m :: a in t)
    && (forall a | a in t :: t[a] == StakeSum(Inner(m, a)))
  }

  lemma PutIs(m: Nested, a: Addr, b: Addr, v: int)
    ensures forall c, d :: Get(Put(m, a, b, v), c, d) == if c == a && d == b then Some(v) else Get(m, c, d)
    ensures NoEmpty(m) ==> NoEmpty(Put(m, a, b, v))
  {
    assert b in Inner(m, a)[b := v];
  }

  lemma DropIs(m: Nested, a: Addr, b: Addr)
    ensures forall c, d :: Get(Drop(m, a, b), c, d) == if c == a && d == b then None else Get(m, c, d)
    ensures NoEmpty(m) ==> NoEmpty(Drop(m, a, b))
  {
    if a in m {
      var rest := m[a] - {b};
      assert forall d | d in m[a] && d != b :: d in rest;
    }
  }

  lemma TotalsPut(m: Nested, t: Stakes, a: Addr, b: Addr, v: int)
    requires Totals(m, t)
    ensures Totals(Put(m, a, b, v), t[a := (if a in t then t[a] else 0) - Amount(m, a, b) + v])
  {
    SumPut(Inner(m, a), b, v);
    forall c | c != a ensures Inner(Put(m, a, b, v), c) == Inner(m, c) {}
  }

  lemma InnerDrop(m: Nested, a: Addr, b: Addr)
    ensures Inner(Drop(m, a, b), a) == Inner(m, a) - {b}
    ensures forall c | c != a :: Inner(Drop(m, a, b), c) == Inner(m, c)
  {}

  lemma TotalsDrop(m: Nested, t: Stakes, a: Addr, b: Addr)
    requires Totals(m, t) && a in t
    ensures Totals(Drop(m, a, b), t[a := t[a] - Amount(m, a, b)])
  {
    InnerDrop(m, a, b);
    if b in Inner(m, a) {
      SumWithout(Inner(m, a), b);
    } else {
      assert Inner(m, a) - {b} == Inner(m, a);
    }
  }

  // ---------- The cache ----------

  datatype Cache = Cache(byNode: Nested, byUser: Nested, userTotal: Stakes, nodeTotal: Stakes)

  /** The two maps are transposes without empty inner maps, and each total is the sum of its entries. */
  ghost predicate Consistent(c: Cache) {
    && Transposed(c.byNode, c.byUser)
    && NoEmpty(c.byNode) && NoEmpty(c.byUser)
    && Totals(c.byNode, c.nodeTotal) && Totals(c.byUser, c.userTotal)
  }

  function Total(t: Stakes, a: Addr): int {
    if a in t then t[a] else 0
  }

  function Staked(c: Cache, user: Addr, node: Addr, amount: int): Cache {
    var was := Amount(c.byNode, node, user);
    Cache(Put(c.byNode, node, user, amount), Put(c.byUser, user, node, amount),
          c.userTotal[user := Total(c.userTotal, user) - was + amount],
          c.nodeTotal[node := Total(c.nodeTotal, node) - was + amount])
  }

  function Unstaked(c: Cache, user: Addr, node: Addr): Cache {
    var was := Amount(c.byNode, node, user);
    Cache(Drop(c.byNode, node, user), Drop(c.byUser, user, node),
          c.userTotal[user := Total(c.userTotal, user) - was],
          c.nodeTotal[node := Total(c.nodeTotal, node) - was])
  }

  lemma StakedKeeps(c: Cache, user: Addr, node: Addr, amount: int)
    requires Consistent(c)
    ensures var c' := Staked(c, user, node, amount);
            && Consistent(c')
            && forall u, n ::
                 Get(c'.byNode, n, u) == if u == user && n == node then Some(amount) else Get(c.byNode, n, u)
  {
    hide Put, Get, Transposed, Totals, NoEmpty, Amount;
    SameAmount(c.byNode, c.byUser, node, user);
    TotalsPut(c.byNode, c.nodeTotal, node, user, amount);
    TotalsPut(c.byUser, c.userTotal, user, node, amount);
    PutIs(c.byNode, node, user, amount);
    PutIs(c.byUser, user, node, amount);
    TransposedPut(c.byNode, c.byUser, node, user, amount);
  }

  lemma UnstakedKeeps(c: Cache, user: Addr, node: Addr)
    requires Consistent(c) && user in c.userTotal && node in c.nodeTotal
    ensures var c' := Unstaked(c, user, node);
            && Consistent(c')
            && forall u, n :: Get(c'.byNode, n, u) == if u == user && n == node then None else Get(c.byNode, n, u)
  {
    hide Drop, Get, Transposed, Totals, NoEmpty, Amount;
    SameAmount(c.byNode, c.byUser, node, user);
    TotalsDrop(c.byNode, c.nodeTotal, node, user);
    TotalsDrop(c.byUser, c.userTotal, user, node);
    DropIs(c.byNode, node, user);
    DropIs(c.byUser, user, node);
    TransposedDrop(c.byNode, c.byUser, node, user);
  }

  lemma SameAmount(m: Nested, n: Nested, a: Addr, b: Addr)
    requires Transposed(m, n)
    ensures Amount(m, a, b) == Amount(n, b, a)
  {
    assert Get(m, a, b) == Get(n, b, a);
  }

  lemma TransposedPut(m: Nested, n: Nested, a: Addr, b: Addr, v: int)
    requires Transposed(m, n)
    ensures Transposed(Put(m, a, b, v), Put(n, b, a, v))
  {
    hide Put, Get;
    PutIs(m, a, b, v);
    PutIs(n, b, a, v);
  }

  lemma TransposedDrop(m: Nested, n: Nested, a: Addr, b: Addr)
    requires Transposed(m, n)
    ensures Transposed(Drop(m, a, b), Drop(n, b, a))
  {
    hide Drop, Get;
    DropIs(m, a, b);
    DropIs(n, b, a);
  }

  // ---------- Single entries, step by step ----------

  method PutEntry(m: Nested, a: Addr, b: Addr, v: int) returns (r: Nested)
    ensures r == Put(m, a, b, v)
  {
    r := m;
    if a !in r {
      r := r[a := map[]];
    }
    r := r[a := r[a][b := v]];
  }

  method DropEntry(m: Nested, a: Addr, b: Addr) returns (r: Nested)
    ensures r == Drop(m, a, b)
  {
    r := m;
    if a in r {
      if b in r[a] {
        r := r[a := r[a] - {b}];
      } else {
        assert r[a] - {b} == r[a] && r[a := r[a]] == r;
      }
      if r[a] == map[] {
        r := r - {a};
      }
    }
  }

  method MoveTotal(t: Stakes, a: Addr, was: int, amount: int) returns (r: Stakes)
    ensures r == t[a := Total(t, a) - was + amount]
  {
    r := t;
    if a !in r {
      r := r[a := 0];
    }
    r := r[a := r[a] - was];
    r := r[a := r[a] + amount];
  }

  // ---------- Removing a node ----------

  // The delegators' side with a node's entries removed for every user not listed.
  ghost predicate UsersCleared(byUser: Nested, byUser': Nested, node: Addr, left: set<Addr>) {
    forall u, n :: Get(byUser', u, n) == if n == node && u !in left then None else Get(byUser, u, n)
  }

  lemma UserCleared(byUser: Nested, byUser': Nested, totals: Stakes, node: Addr, left: set<Addr>, u: Addr)
    requires UsersCleared(byUser, byUser', node, left) && u in left
    requires NoEmpty(byUser') && Totals(byUser', totals) && u in totals
    ensures UsersCleared(byUser, Drop(byUser', u, node), node, left - {u})
    ensures NoEmpty(Drop(byUser', u, node))
    ensures Totals(Drop(byUser', u, node), totals[u := totals[u] - Amount(byUser', u, node)])
    ensures Amount(byUser', u, node) == Amount(byUser, u, node)
  {
    hide Drop, Totals, NoEmpty;
    assert Get(byUser', u, node) == Get(byUser, u, node);
    DropIs(byUser', u, node);
    TotalsDrop(byUser', totals, u, node);
  }

  lemma NodeCleared(c: Cache, byUser: Nested, userTotal: Stakes, node: Addr)
    requires Consistent(c) && node in c.byNode
    requires UsersCleared(c.byUser, byUser, node, {}) && NoEmpty(byUser) && Totals(byUser, userTotal)
    ensures var c' := Cache(c.byNode - {node}, byUser, userTotal, c.nodeTotal[node := 0]);
            && Consistent(c')
            && forall u, n :: Get(c'.byNode, n, u) == if n == node then None else Get(c.byNode, n, u)
  {
    hide StakeSum;
    var byNode := c.byNode - {node};
    forall n, u ensures Get(byNode, n, u) == (if n == node then None else Get(c.byNode, n, u)) == Get(byUser, u, n) {
      assert Get(c.byNode, n, u) == Get(c.byUser, u, n);
    }
    assert Inner(byNode, node) == map[];
    assert StakeSum(map[]) == 0 by {
      EmptySum();
    }
    forall a | a != node ensures Inner(byNode, a) == Inner(c.byNode, a) {}
  }

  // Takes a node's stakes back from its delegators, in whatever order the map yields them.
  method ClearUsers(ghost c: Cache, node: Addr, stakes: Stakes, byUser0: Nested, userTotal0: Stakes)
    returns (byUser: Nested, userTotal: Stakes)
    requires Consistent(c) && node in c.byNode && stakes == c.byNode[node] && byUser0 == c.byUser &&
               userTotal0 == c.userTotal
    ensures UsersCleared(c.byUser, byUser, node, {}) && NoEmpty(byUser) && Totals(byUser, userTotal)
  {
    hide Transposed, NoEmpty, Totals, UsersCleared, Drop, Get, Amount;
    byUser, userTotal := byUser0, userTotal0;
    var todo := stakes.Keys;
    NoneCleared(c, node);
    while todo != {}
      invariant todo <= stakes.Keys
      invariant UsersCleared(c.byUser, byUser, node, todo) && NoEmpty(byUser) && Totals(byUser, userTotal)
      decreases |todo|
    {
      var u :| u in todo;
      EntryIs(c, byUser, userTotal, node, todo, u);
      UserCleared(c.byUser, byUser, userTotal, node, todo, u);
      userTotal := userTotal[u := userTotal[u] - stakes[u]];
      byUser := DropEntry(byUser, u, node);
      todo := todo - {u};
    }
  }

  lemma EmptySum()
    ensures StakeSum(map[]) == 0
  {}

  class DelegationCache {
    var nodeDelegations: Nested
    var userDelegations: Nested
    var userStakeAmount: Stakes
    var nodeStakeAmount: Stakes

    ghost function View(): Cache
      reads this
    {
      Cache(nodeDelegations, userDelegations, userStakeAmount, nodeStakeAmount)
    }

    ghost predicate Valid()
      reads this
    {
      Consistent(View())
    }

    ghost function Stake(user: Addr, node: Addr): Option<int>
      reads this
    {
      Get(nodeDelegations, node, user)
    }

    constructor ()
      ensures Valid() && forall u, n :: Stake(u, n).None?
    {
      nodeDelegations, userDelegations, userStakeAmount, nodeStakeAmount := map[], map[], map[], map[];
    }

    method Update(user: Addr, node: Addr, amount: int)
      requires Valid()
      modifies this
      ensures Valid()
      ensures forall u, n :: Stake(u, n) == if u == user && n == node then Some(amount) else old(Stake(u, n))
    {
      hide Consistent, Get, Put, Total;
      StakedKeeps(View(), user, node, amount);
      var oldAmount := 0;
      if node in nodeDelegations && user in nodeDelegations[node] {
        oldAmount := nodeDelegations[node][user];
      }
      userStakeAmount := MoveTotal(userStakeAmount, user, oldAmount, amount);
      nodeStakeAmount := MoveTotal(nodeStakeAmount, node, oldAmount, amount);
      nodeDelegations := PutEntry(nodeDelegations, node, user, amount);
      userDelegations := PutEntry(userDelegations, user, node, amount);
    }

    /** Unstaking needs both totals to exist, as they do after any stake of the pair. */
    method Unstake(user: Addr, node: Addr)
      requires Valid() && user in userStakeAmount && node in nodeStakeAmount
      modifies this
      ensures Valid()
      ensures forall u, n :: Stake(u, n) == if u == user && n == node then None else old(Stake(u, n))
    {
      hide Consistent, Get, Drop;
      UnstakedKeeps(View(), user, node);
      var oldAmount := 0;
      if node in nodeDelegations && user in nodeDelegations[node] {
        oldAmount := nodeDelegations[node][user];
      }
      nodeDelegations := DropEntry(nodeDelegations, node, user);
      userDelegations := DropEntry(userDelegations, user, node);
      userStakeAmount := userStakeAmount[user := userStakeAmount[user] - oldAmount];
      nodeStakeAmount := nodeStakeAmount[node := nodeStakeAmount[node] - oldAmount];
    }

    method RemoveNode(node: Addr)
      requires Valid()
      modifies this
      ensures Valid()
      ensures forall u, n :: Stake(u, n) == if n == node then None else old(Stake(u, n))
    {
      hide Consistent, NoEmpty, Totals, UsersCleared, Drop, Get, Amount;
      ghost var before := View();
      if node !in nodeDelegations {
        NoStakes(nodeDelegations, node);
        return;
      }
      userDelegations, userStakeAmount :=
        ClearUsers(before, node, nodeDelegations[node], userDelegations, userStakeAmount);
      NodeCleared(before, userDelegations, userStakeAmount, node);
      nodeDelegations := nodeDelegations - {node};
      nodeStakeAmount := nodeStakeAmount[node := 0];
    }

    method DelegatorTotal(user: Addr) returns (r: int)
      requires Valid()
      ensures r == StakeSum(Inner(userDelegations, user))
    {
      EmptySum();
      r := if user in userStakeAmount then userStakeAmount[user] else 0;
    }

    method NodeTotal(node: Addr) returns (r: int)
      requires Valid()
      ensures r == StakeSum(Inner(nodeDelegations, node))
    {
      EmptySum();
      r := if node in nodeStakeAmount then nodeStakeAmount[node] else 0;
    }
  }

  lemma NoStakes(m: Nested, a: Addr)
    requires a !in m
    ensures forall b :: Get(m, a, b).None?
  {}

  lemma NoneCleared(c: Cache, node: Addr)
    requires Consistent(c) && node in c.byNode
    ensures UsersCleared(c.byUser, c.byUser, node, c.byNode[node].Keys)
  {
    forall u | u !in c.byNode[node] ensures Get(c.byUser, u, node).None? {
      assert Get(c.byNode, node, u) == Get(c.byUser, u, node);
    }
  }

  // A delegator not yet visited still has its entry, its total, and the amount the node side shows.
  lemma EntryIs(c: Cache, byUser: Nested, userTotal: Stakes, node: Addr, left: set<Addr>, u: Addr)
    requires Consistent(c) && node in c.byNode && u in c.byNode[node] && u in left
    requires UsersCleared(c.byUser, byUser, node, left) && Totals(byUser, userTotal)
    ensures u in userTotal && Amount(c.byUser, u, node) == c.byNode[node][u]
  {
    assert Get(c.byNode, node, u) == Get(c.byUser, u, node);
    assert Get(byUser, u, node) == Get(c.byUser, u, node);
  }
}
