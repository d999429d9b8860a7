/** Stock reservation in Redis: stock_deduct.lua and the repository around it. */
module Stock {
  import opened Domain

  /** stock:{activity} and user_buy:{activity}:{user}. */
  datatype Redis = Redis(stock: map<int, int>, bought: map<(int, int), int>)

  function Bought(r: Redis, act: int, user: int): int {
    if (act, user) in r.bought then r.bought[(act, user)] else 0
  }

  /** The script as one atomic step; the codes are those of its header comment. */
  function Script(r: Redis, act: int, user: int, n: int, limit: int): (out: (Redis, int)) {
    if act !in r.stock then (r, -3)
    else if r.stock[act] < n then (r, -1)
    else if Bought(r, act, user) + n > limit then (r, -2)
    else
      var left := r.stock[act] - n;
      (Redis(r.stock[act := left], r.bought[(act, user) := Bought(r, act, user) + n]), left)
  }

  datatype StockError = StockNotEnough | UserLimitExceeded | StockNotWarmed | UnknownReturn | StoreDown

  function Decode(v: int): Result<int, StockError> {
    if v == -1 then Err(StockNotEnough)
    else if v == -2 then Err(UserLimitExceeded)
    else if v == -3 then Err(StockNotWarmed)
    else if v < 0 then Err(UnknownReturn)
    else Ok(v)
  }

  /** For a positive amount every refusal leaves both keys alone, every grant moves exactly
      that amount between them, and the repository never sees an unknown code. */
  lemma ScriptContract(r: Redis, act: int, user: int, n: int, limit: int)
    requires n > 0
    ensures var (r', v) := Script(r, act, user, n, limit);
            && (v >= 0 <==> act in r.stock && r.stock[act] >= n && Bought(r, act, user) + n <= limit)
            && (v < 0 ==> r' == r)
            && (v == -3 <==> act !in r.stock)
            && (v == -1 <==> act in r.stock && r.stock[act] < n)
            && (v == -2 <==> act in r.stock && r.stock[act] >= n && Bought(r, act, user) + n > limit)
            && (v >= 0 ==> && r'.stock.Keys == r.stock.Keys
                           && v == r'.stock[act] == r.stock[act] - n
                           && Bought(r', act, user) == Bought(r, act, user) + n <= limit
                           && (forall a :: a in r.stock && a != act ==> r'.stock[a] == r.stock[a])
                           && (forall a, u :: (a, u) != (act, user) ==> Bought(r', a, u) == Bought(r, a, u)))
            && Decode(v) != Err(UnknownReturn)
  {
  }

  class StockRedisRepo {
    var stock: map<int, int>
    var bought: map<(int, int), int>

    constructor ()
      ensures Abs() == Redis(map[], map[])
    {
      stock, bought := map[], map[];
    }

    function Abs(): Redis
      reads this
    {
      Redis(stock, bought)
    }

    /** The script, command by command. */
    method RunScript(act: int, user: int, n: int, limit: int) returns (v: int)
      modifies this
      ensures (Abs(), v) == Script(old(Abs()), act, user, n, limit)
    {
      if act !in stock {
        return -3;
      }
      if stock[act] < n {
        return -1;
      }
      var userBought := if (act, user) in bought then bought[(act, user)] else 0;
      if userBought + n > limit {
        return -2;
      }
      stock := stock[act := stock[act] - n];
      bought := bought[(act, user) := userBought + n];
      v := stock[act];
    }

    method DeductForUser(act: int, user: int, n: int, limit: int, link: Link) returns (r: Result<int, StockError>)
      modifies this
      ensures link == Unreached ==> Abs() == old(Abs())
      ensures link != Unreached ==> Abs() == Script(old(Abs()), act, user, n, limit).0
      ensures r == if link != Fine then Err(StoreDown)
                   else Decode(Script(old(Abs()), act, user, n, limit).1)
    {
      if link == Unreached {
        return Err(StoreDown);
      }
      var v := RunScript(act, user, n, limit);
      if link == LostReply {
        return Err(StoreDown);
      }
      if v == -1 {
        return Err(StockNotEnough);
      } else if v == -2 {
        return Err(UserLimitExceeded);
      } else if v == -3 {
        return Err(StockNotWarmed);
      }
      if v < 0 {
        return Err(UnknownReturn);
      }
      return Ok(v);
    }
  }

  // ---------- Counting: no oversell, no undersell ----------

  /** Unit deducts by the listed users, in order; the codes returned to each. */
  function Serve(r: Redis, act: int, limit: int, users: seq<int>): (out: (Redis, seq<int>))
    ensures |out.1| == |users|
  {
    if users == [] then (r, [])
    else
      var (r', codes) := Serve(r, act, limit, users[..|users| - 1]);
      var (r'', v) := Script(r', act, users[|users| - 1], 1, limit);
      (r'', codes + [v])
  }

  function Wins(codes: seq<int>): nat {
    if codes == [] then 0
    else Wins(codes[..|codes| - 1]) + (if codes[|codes| - 1] >= 0 then 1 else 0)
  }

  /** What one user may still get at most: the rest of the limit, or the number of attempts when
      that is less. */
  function Cap(r: Redis, act: int, users: seq<int>, u: int, limit: int): nat {
    Max0(Min(limit - Bought(r, act, u), multiset(users)[u]))
  }

  ghost function SumCap(us: set<int>, r: Redis, act: int, users: seq<int>, limit: int): nat
    decreases us
  {
    if us == {} then 0
    else
      Inhabited(us);
      var u :| u in us;
      Cap(r, act, users, u, limit) + SumCap(us - {u}, r, act, users, limit)
  }

  /** The sum over all users of min(rest of the limit, attempts). */
  ghost function Demand(r: Redis, act: int, users: seq<int>, limit: int): nat {
    SumCap((set u | u in users), r, act, users, limit)
  }

  lemma {:induction false} SumCapSplit(us: set<int>, u: int, r: Redis, act: int, users: seq<int>, limit: int)
    requires u in us
    ensures SumCap(us, r, act, users, limit) == Cap(r, act, users, u, limit) + SumCap(us - {u}, r, act, users, limit)
    decreases us
  {
    var w :| w in us
             && SumCap(us, r, act, users, limit)
                == Cap(r, act, users, w, limit) + SumCap(us - {w}, r, act, users, limit);
    if w != u {
      SumCapSplit(us - {w}, u, r, act, users, limit);
      assert us - {w} - {u} == us - {u} - {w};
      SumCapSplit(us - {u}, w, r, act, users, limit);
    }
  }

  lemma {:induction false} SumCapFrame(us: set<int>, r: Redis, act: int, users: seq<int>, users': seq<int>, limit: int)
    requires forall u :: u in us ==> multiset(users)[u] == multiset(users')[u]
    ensures SumCap(us, r, act, users, limit) == SumCap(us, r, act, users', limit)
    decreases us
  {
    if us != {} {
      Inhabited(us);
      var u :| u in us;
      SumCapSplit(us, u, r, act, users, limit);
      SumCapSplit(us, u, r, act, users', limit);
      SumCapFrame(us - {u}, r, act, users, users', limit);
    }
  }

  /** One more attempt by u raises the demand exactly when u is still under the limit. */
  lemma DemandStep(r: Redis, act: int, users: seq<int>, u: int, limit: int)
    ensures Demand(r, act, users + [u], limit)
            == Demand(r, act, users, limit) + (if Bought(r, act, u) + multiset(users)[u] < limit then 1 else 0)
  {
    var users' := users + [u];
    var us, us' := (set x | x in users), (set x | x in users');
    assert us' == us + {u};
    SumCapSplit(us', u, r, act, users', limit);
    if u in us {
      SumCapSplit(us, u, r, act, users, limit);
    } else {
      assert us - {u} == us;
    }
    assert us' - {u} == us - {u};
    SumCapFrame(us - {u}, r, act, users, users', limit);
  }

  /** What the store looks like after serving `users` from `start`: while stock lasts nobody was
      refused for want of stock, so everybody got what they could. */
  ghost predicate Served(start: Redis, limit: int, users: seq<int>, act: int, r: Redis, wins: nat)
    requires act in start.stock
  {
    && act in r.stock
    && r.stock[act] == start.stock[act] - wins
    && wins == Min(Max0(start.stock[act]), Demand(start, act, users, limit))
    && (forall u :: Bought(r, act, u) <= Bought(start, act, u) + Cap(start, act, users, u, limit))
    && (r.stock[act] > 0 ==> forall u :: Bought(r, act, u) == Bought(start, act, u) + Cap(start, act, users, u, limit))
  }

  lemma CapStep(r: Redis, act: int, users: seq<int>, u: int, w: int, limit: int)
    ensures Cap(r, act, users + [u], w, limit)
            == Cap(r, act, users, w, limit)
               + (if w == u && Bought(r, act, u) + multiset(users)[u] < limit then 1 else 0)
  {
  }

  lemma ServedStep(start: Redis, limit: int, users: seq<int>, act: int, r: Redis, wins: nat, u: int)
    requires act in start.stock && Served(start, limit, users, act, r, wins)
    ensures var (r', v) := Script(r, act, u, 1, limit);
            Served(start, limit, users + [u], act, r', wins + (if v >= 0 then 1 else 0))
  {
    var (r', v) := Script(r, act, u, 1, limit);
    DemandStep(start, act, users, u, limit);
    CapStep(start, act, users, u, u, limit);
    ScriptContract(r, act, u, 1, limit);
    forall w
      ensures Bought(r', act, w) <= Bought(start, act, w) + Cap(start, act, users + [u], w, limit)
      ensures r'.stock[act] > 0 ==>
                Bought(r', act, w) == Bought(start, act, w) + Cap(start, act, users + [u], w, limit)
    {
      CapStep(start, act, users, u, w, limit);
    }
  }

  lemma {:induction false} ServeExact(r: Redis, act: int, limit: int, users: seq<int>)
    requires act in r.stock
    ensures var (r', codes) := Serve(r, act, limit, users);
            Served(r, limit, users, act, r', Wins(codes))
  {
    if users == [] {
    } else {
      var init, u := users[..|users| - 1], users[|users| - 1];
      assert users == init + [u];
      ServeExact(r, act, limit, init);
      var (r1, codes) := Serve(r, act, limit, init);
      ServedStep(r, limit, init, act, r1, Wins(codes), u);
      var (r2, v) := Script(r1, act, u, 1, limit);
      assert (codes + [v])[..|codes|] == codes;
    }
  }

  /** No oversell and no undersell: from any stock S and any user counters, any list of attempts
      under limit L succeeds exactly min(S, sum over users of min(L - bought, attempts)) times
      (a negative number counting as none), which for fresh counters is the sum of
      min(L, attempts). Stock does not fall below zero, and no counter rises above the limit. */
  lemma NoOversellNoUndersell(r: Redis, act: int, limit: int, users: seq<int>)
    requires act in r.stock
    ensures var (r', codes) := Serve(r, act, limit, users);
            && Wins(codes) == Min(Max0(r.stock[act]), Demand(r, act, users, limit))
            && act in r'.stock && r'.stock[act] == r.stock[act] - Wins(codes) >= Min(0, r.stock[act])
            && forall u :: Bought(r', act, u) <= limit || Bought(r', act, u) <= Bought(r, act, u)
  {
    ServeExact(r, act, limit, users);
  }

  /** The number of successes does not depend on the order of the attempts. */
  lemma OrderFree(r: Redis, act: int, limit: int, users: seq<int>, users': seq<int>)
    requires act in r.stock && multiset(users) == multiset(users')
    ensures Wins(Serve(r, act, limit, users).1) == Wins(Serve(r, act, limit, users').1)
  {
    ServeExact(r, act, limit, users);
    ServeExact(r, act, limit, users');
    var us, us' := (set u | u in users), (set u | u in users');
    forall u ensures u in us <==> u in us'
    {
      assert u in users <==> u in multiset(users);
      assert u in users' <==> u in multiset(users');
    }
    assert us == us';
    SumCapFrame(us, r, act, users, users', limit);
  }

  /** Tickets: the k-th success returns the initial stock minus k. */
  lemma {:induction false} KthTicket(r: Redis, act: int, limit: int, users: seq<int>, i: nat)
    requires act in r.stock && i < |users| && Serve(r, act, limit, users).1[i] >= 0
    ensures var codes := Serve(r, act, limit, users).1;
            codes[i] == r.stock[act] - Wins(codes[..i + 1])
  {
    var init := users[..|users| - 1];
    var (r1, codes1) := Serve(r, act, limit, init);
    var codes := Serve(r, act, limit, users).1;
    assert codes[..|codes1|] == codes1;
    if i < |init| {
      KthTicket(r, act, limit, init, i);
      assert codes[..i + 1] == codes1[..i + 1];
    } else {
      ServeExact(r, act, limit, init);
      ScriptContract(r1, act, users[i], 1, limit);
      assert codes[..i + 1] == codes;
    }
  }
}
