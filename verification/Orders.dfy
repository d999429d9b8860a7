/** The orders tables (migrations/002_orders_shards_table.sql) and the two repositories over
    them: one table (internal/repo/order_repo.go) and N shards routed by user id
    (internal/repo/sharded_order_repo.go). A table lists its rows in insertion order. */
module Orders {
  import opened Domain
  import opened ShardKey

  type Table = seq<Order>

  predicate SameKey(a: Order, b: Order) {
    a.activityId == b.activityId && a.userId == b.userId && a.token == b.token
  }

  predicate HasId(t: Table, id: int) {
    exists i :: 0 <= i < |t| && t[i].id == id
  }

  predicate HasKey(t: Table, o: Order) {
    exists i :: 0 <= i < |t| && SameKey(t[i], o)
  }

  /** INSERT under PRIMARY KEY (id) and UNIQUE KEY (activity_id, user_id, idempotency_token).
      Either clash surfaces as a duplicate-key error, which both repositories report as
      ErrOrderDuplicate. */
  predicate Clashes(t: Table, o: Order) {
    HasId(t, o.id) || HasKey(t, o)
  }

  function Insert(t: Table, o: Order): Table {
    if Clashes(t, o) then t else t + [o]
  }

  /** SELECT ... WHERE user_id = ? AND id = ?. */
  function Find(t: Table, user: int, id: int): (r: Option<Order>)
    ensures r.Some? ==> r.value in t && r.value.userId == user && r.value.id == id
    ensures r.None? ==> forall o :: o in t ==> !(o.userId == user && o.id == id)
  {
    if t == [] then None
    else if t[0].userId == user && t[0].id == id then Some(t[0])
    else Find(t[1..], user, id)
  }

  ghost predicate Unique(t: Table) {
    forall i, j :: 0 <= i < j < |t| ==> t[i].id != t[j].id && !SameKey(t[i], t[j])
  }

  lemma InsertKeepsUnique(t: Table, o: Order)
    requires Unique(t)
    ensures Unique(Insert(t, o))
  {
  }

  // ---------- Shards ----------

  predicate ShardCount(n: int) {
    0 < n <= MAX_INT64
  }

  ghost predicate Routed(dbs: seq<Table>) {
    && ShardCount(|dbs|)
    && forall d, i :: 0 <= d < |dbs| && 0 <= i < |dbs[d]| ==> DBIndex(dbs[d][i].userId, |dbs|) == d
  }

  function Home(dbs: seq<Table>, user: int): (t: Table)
    requires ShardCount(|dbs|)
  {
    dbs[DBIndex(user, |dbs|)]
  }

  function Create(dbs: seq<Table>, o: Order): (dbs': seq<Table>)
    requires ShardCount(|dbs|)
    ensures |dbs'| == |dbs|
  {
    dbs[DBIndex(o.userId, |dbs|) := Insert(Home(dbs, o.userId), o)]
  }

  lemma CreateKeepsRouted(dbs: seq<Table>, o: Order)
    requires Routed(dbs)
    ensures Routed(Create(dbs, o))
  {
  }

  /** Per-shard unique keys give global ones, because equal keys have equal users. */
  lemma KeysAreGlobal(dbs: seq<Table>, d: nat, i: nat, e: nat, j: nat)
    requires Routed(dbs) && forall k :: 0 <= k < |dbs| ==> Unique(dbs[k])
    requires d < |dbs| && e < |dbs| && i < |dbs[d]| && j < |dbs[e]|
    requires SameKey(dbs[d][i], dbs[e][j])
    ensures d == e && i == j
  {
    assert DBIndex(dbs[d][i].userId, |dbs|) == d && DBIndex(dbs[e][j].userId, |dbs|) == e;
    assert Unique(dbs[d]);
  }

  // ---------- Counting ----------

  /** What a COUNT ranges over: an activity, or one user's orders in an activity. */
  datatype Scope = OfActivity(act: int) | OfUser(act: int, user: int)

  predicate In(sc: Scope, act: int, user: int) {
    act == sc.act && (sc.OfUser? ==> user == sc.user)
  }

  function Count(t: Table, sc: Scope): nat {
    if t == [] then 0
    else Count(t[..|t| - 1], sc) + (if In(sc, t[|t| - 1].activityId, t[|t| - 1].userId) then 1 else 0)
  }

  function CountAll(dbs: seq<Table>, sc: Scope): nat {
    if dbs == [] then 0 else CountAll(dbs[..|dbs| - 1], sc) + Count(dbs[|dbs| - 1], sc)
  }

  lemma CountAppend(t: Table, o: Order, sc: Scope)
    ensures Count(t + [o], sc) == Count(t, sc) + (if In(sc, o.activityId, o.userId) then 1 else 0)
  {
    assert (t + [o])[..|t|] == t;
  }

  lemma {:induction false} CountAllUpdate(dbs: seq<Table>, d: nat, t: Table, sc: Scope)
    requires d < |dbs|
    ensures CountAll(dbs[d := t], sc) == CountAll(dbs, sc) - Count(dbs[d], sc) + Count(t, sc)
  {
    var n := |dbs| - 1;
    if d < n {
      CountAllUpdate(dbs[..n], d, t, sc);
      assert dbs[d := t][..n] == dbs[..n][d := t];
    } else {
      assert dbs[d := t][..n] == dbs[..n];
    }
  }

  lemma CountAllCreate(dbs: seq<Table>, o: Order, sc: Scope)
    requires ShardCount(|dbs|)
    ensures CountAll(Create(dbs, o), sc) == CountAll(dbs, sc)
            + (if !Clashes(Home(dbs, o.userId), o) && In(sc, o.activityId, o.userId) then 1 else 0)
  {
    var t := Home(dbs, o.userId);
    CountAllUpdate(dbs, DBIndex(o.userId, |dbs|), Insert(t, o), sc);
    CountAppend(t, o, sc);
  }

  lemma {:induction false} CountMonotone(dbs: seq<Table>, dbs': seq<Table>, sc: Scope)
    requires |dbs| == |dbs'| && forall d :: 0 <= d < |dbs| ==> dbs[d] <= dbs'[d]
    ensures CountAll(dbs, sc) <= CountAll(dbs', sc)
  {
    if dbs != [] {
      var n := |dbs| - 1;
      CountMonotone(dbs[..n], dbs'[..n], sc);
      CountPrefix(dbs[n], dbs'[n], sc);
    }
  }

  lemma {:induction false} CountPrefix(t: Table, t': Table, sc: Scope)
    requires t <= t'
    ensures Count(t, sc) <= Count(t', sc)
    decreases |t'|
  {
    if t != t' {
      var n := |t'| - 1;
      assert t <= t'[..n];
      CountPrefix(t, t'[..n], sc);
    }
  }

  function EmptyShards(n: nat): (dbs: seq<Table>)
    ensures |dbs| == n && forall d :: 0 <= d < n ==> dbs[d] == []
  {
    seq(n, i => [])
  }

  lemma {:induction false} CountEmpty(n: nat, sc: Scope)
    ensures CountAll(EmptyShards(n), sc) == 0
  {
    if n > 0 {
      assert EmptyShards(n)[..n - 1] == EmptyShards(n - 1);
      CountEmpty(n - 1, sc);
    }
  }

  // ---------- The repository object ----------

  datatype RepoError = OrderDuplicate | OrderNotFound | DbDown

  class ShardedOrderRepo {
    var shards: seq<Table>

    constructor (n: nat)
      requires ShardCount(n)
      ensures |shards| == n && Routed(shards) && forall d :: 0 <= d < n ==> shards[d] == []
    {
      shards := EmptyShards(n);
    }

    method CreateOrder(o: Order, link: Link) returns (r: Result<(), RepoError>)
      requires ShardCount(|shards|)
      modifies this
      ensures shards == if link == Unreached then old(shards) else Create(old(shards), o)
      ensures r == if link != Fine then Err(DbDown)
                   else if Clashes(Home(old(shards), o.userId), o) then Err(OrderDuplicate)
                   else Ok(())
    {
      var idx := DBIndex(o.userId, |shards|);
      if link == Unreached {
        return Err(DbDown);
      }
      var dup := Clashes(shards[idx], o);
      if !dup {
        shards := shards[idx := shards[idx] + [o]];
      } else {
        assert shards == shards[idx := shards[idx]];
      }
      if link == LostReply {
        return Err(DbDown);
      }
      return if dup then Err(OrderDuplicate) else Ok(());
    }

    method GetByID(user: int, id: int, up: bool) returns (r: Result<Order, RepoError>)
      requires ShardCount(|shards|)
      ensures r == if !up then Err(DbDown)
                   else match Find(Home(shards, user), user, id)
                        case Some(o) => Ok(o)
                        case None => Err(OrderNotFound)
    {
      var idx := DBIndex(user, |shards|);
      if !up {
        return Err(DbDown);
      }
      match Find(shards[idx], user, id)
      case Some(o) => return Ok(o);
      case None => return Err(OrderNotFound);
    }
  }

  // ---------- Shards refine one table ----------

  /** The shards hold exactly the rows of one table. */
  ghost predicate Refines(dbs: seq<Table>, one: Table) {
    && Routed(dbs)
    && Unique(one)
    && (forall d, i :: 0 <= d < |dbs| && 0 <= i < |dbs[d]| ==> dbs[d][i] in one)
    && (forall o :: o in one ==> o in Home(dbs, o.userId))
    && (forall sc :: CountAll(dbs, sc) == Count(one, sc))
  }

  lemma KeyIsLocal(dbs: seq<Table>, one: Table, o: Order)
    requires Refines(dbs, one)
    ensures HasKey(Home(dbs, o.userId), o) <==> HasKey(one, o)
    ensures HasId(Home(dbs, o.userId), o.id) ==> HasId(one, o.id)
  {
    var t := Home(dbs, o.userId);
    if i :| 0 <= i < |t| && SameKey(t[i], o) {
      assert t[i] in one;
    }
    if j :| 0 <= j < |one| && SameKey(one[j], o) {
      assert one[j] in one;
      assert one[j] in t;
    }
    if i :| 0 <= i < |t| && t[i].id == o.id {
      assert t[i] in one;
    }
  }

  /** One Create answers alike on shards and on one table exactly when it is not the case
      that the id lives only in a foreign shard while the key is free. */
  lemma CreateAgreesIff(dbs: seq<Table>, one: Table, o: Order)
    requires Refines(dbs, one)
    ensures (Clashes(Home(dbs, o.userId), o) <==> Clashes(one, o))
            <==> !(HasId(one, o.id) && !HasId(Home(dbs, o.userId), o.id) && !HasKey(one, o))
  {
    KeyIsLocal(dbs, one, o);
  }

  lemma CreateRefines(dbs: seq<Table>, one: Table, o: Order)
    requires Refines(dbs, one)
    requires Clashes(Home(dbs, o.userId), o) <==> Clashes(one, o)
    ensures Refines(Create(dbs, o), Insert(one, o))
  {
    var dbs', one' := Create(dbs, o), Insert(one, o);
    CreateKeepsRouted(dbs, o);
    InsertKeepsUnique(one, o);
    forall sc ensures CountAll(dbs', sc) == Count(one', sc) {
      CountAllCreate(dbs, o, sc);
      CountAppend(one, o, sc);
    }
    forall p | p in one' ensures p in Home(dbs', p.userId) {
      if p in one {
        assert p in Home(dbs, p.userId);
      }
    }
  }

  lemma FindAgrees(dbs: seq<Table>, one: Table, user: int, id: int)
    requires Refines(dbs, one)
    ensures Find(Home(dbs, user), user, id) == Find(one, user, id)
  {
    var a, b := Find(Home(dbs, user), user, id), Find(one, user, id);
    if a.Some? {
      assert a.value in one;
    }
    if b.Some? {
      assert b.value in Home(dbs, b.value.userId);
    }
    if a.Some? && b.Some? {
      var i :| 0 <= i < |one| && one[i] == a.value;
      var j :| 0 <= j < |one| && one[j] == b.value;
    }
  }

  datatype Op = CreateOp(o: Order) | GetOp(user: int, id: int)

  datatype Reply = Created | Refused | Row(o: Order) | Missing

  function Fetch(r: Option<Order>): Reply {
    match r case Some(o) => Row(o) case None => Missing
  }

  function RunSharded(n: nat, ops: seq<Op>): (out: (seq<Table>, seq<Reply>))
    requires ShardCount(n)
    ensures |out.0| == n && |out.1| == |ops|
  {
    if ops == [] then (EmptyShards(n), [])
    else
      var (dbs, replies) := RunSharded(n, ops[..|ops| - 1]);
      match ops[|ops| - 1]
      case CreateOp(o) =>
        (Create(dbs, o), replies + [if Clashes(Home(dbs, o.userId), o) then Refused else Created])
      case GetOp(user, id) => (dbs, replies + [Fetch(Find(Home(dbs, user), user, id))])
  }

  function RunSingle(ops: seq<Op>): (out: (Table, seq<Reply>))
    ensures |out.1| == |ops|
  {
    if ops == [] then ([], [])
    else
      var (one, replies) := RunSingle(ops[..|ops| - 1]);
      match ops[|ops| - 1]
      case CreateOp(o) => (Insert(one, o), replies + [if Clashes(one, o) then Refused else Created])
      case GetOp(user, id) => (one, replies + [Fetch(Find(one, user, id))])
  }

  /** The id hypothesis: an id is only ever presented for one user. Fresh ids satisfy it, and
      so does any number of redeliveries of the same order. */
  ghost predicate IdsFollowUsers(ops: seq<Op>) {
    forall i, j ::
      (0 <= i < |ops| && 0 <= j < |ops| && ops[i].CreateOp? && ops[j].CreateOp? && ops[i].o.id == ops[j].o.id)
      ==> ops[i].o.userId == ops[j].o.userId
  }

  lemma {:induction false} RowsComeFromOps(ops: seq<Op>, o: Order)
    requires o in RunSingle(ops).0
    ensures exists i :: 0 <= i < |ops| && ops[i] == CreateOp(o)
  {
    var init := ops[..|ops| - 1];
    if o in RunSingle(init).0 {
      RowsComeFromOps(init, o);
      var i :| 0 <= i < |init| && init[i] == CreateOp(o);
      assert ops[i] == CreateOp(o);
    } else {
      assert ops[|ops| - 1] == CreateOp(o);
    }
  }

  /** Any shard count and any list of operations: same replies, same rows, same counts. */
  lemma {:induction false} ShardsRefineOneTable(n: nat, ops: seq<Op>)
    requires ShardCount(n) && IdsFollowUsers(ops)
    ensures RunSharded(n, ops).1 == RunSingle(ops).1
    ensures Refines(RunSharded(n, ops).0, RunSingle(ops).0)
  {
    if ops == [] {
      forall sc ensures CountAll(EmptyShards(n), sc) == Count([], sc) {
        CountEmpty(n, sc);
      }
    } else {
      var init, last := ops[..|ops| - 1], ops[|ops| - 1];
      ShardsRefineOneTable(n, init);
      var (dbs, one) := (RunSharded(n, init).0, RunSingle(init).0);
      match last {
        case CreateOp(o) =>
          if HasId(one, o.id) {
            var i :| 0 <= i < |one| && one[i].id == o.id;
            RowsComeFromOps(init, one[i]);
            var k :| 0 <= k < |init| && init[k] == CreateOp(one[i]);
            assert ops[k] == CreateOp(one[i]);
            assert one[i] in Home(dbs, o.userId);
          }
          CreateAgreesIff(dbs, one, o);
          CreateRefines(dbs, one, o);
        case GetOp(user, id) =>
          FindAgrees(dbs, one, user, id);
      }
    }
  }

  /** Without the id hypothesis the two differ: the same id for two users in two shards. */
  lemma SharedIdDiffers()
    ensures var a := Order(7, 0, 1, 1, StatusQueued, "x", 0);
            var b := Order(7, 1, 1, 1, StatusQueued, "x", 0);
            RunSharded(2, [CreateOp(a), CreateOp(b)]).1 != RunSingle([CreateOp(a), CreateOp(b)]).1
  {
    var a := Order(7, 0, 1, 1, StatusQueued, "x", 0);
    var b := Order(7, 1, 1, 1, StatusQueued, "x", 0);
    var ops := [CreateOp(a), CreateOp(b)];
    assert ops[..1] == [CreateOp(a)] && ops[..1][..0] == [];
    var none: seq<Op> := [];
    assert RunSharded(2, none) == (EmptyShards(2), []) && RunSingle(none) == ([], []);
    assert RunSharded(2, ops[..1]).0 == Create(EmptyShards(2), a);
    assert RunSingle(ops[..1]).0 == [a];
    var dbs := Create(EmptyShards(2), a);
    assert Home(dbs, 1) == [] && [a][0].id == 7;
    assert RunSharded(2, ops).1[1] == Created && RunSingle(ops).1[1] == Refused;
  }
}
