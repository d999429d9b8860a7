/** Stock reservation in MySQL: a conditional UPDATE, then a separate SELECT
    (internal/repo/stock_repo.go), and its relation to the Redis script. */
module StockSql {
  import opened Domain
  import opened Stock

  /** UPDATE ... SET total_stock = total_stock - n WHERE total_stock >= n. */
  function Update(total: int, n: int): (out: (int, bool)) {
    if total >= n then (total - n, true) else (total, false)
  }

  /** The column after a list of updates. */
  function After(total: int, amounts: seq<int>): int {
    if amounts == [] then total else Update(After(total, amounts[..|amounts| - 1]), amounts[|amounts| - 1]).0
  }

  /** Updates by non-negative amounts never lead below zero and never back up. */
  lemma {:induction false} AfterFalls(total: int, amounts: seq<int>)
    requires total >= 0 && forall i :: 0 <= i < |amounts| ==> amounts[i] >= 0
    ensures 0 <= After(total, amounts) <= total
  {
    if amounts != [] {
      AfterFalls(total, amounts[..|amounts| - 1]);
    }
  }

  class StockSqlRepo {
    var total: map<int, int>

    constructor (rows: map<int, int>)
      ensures total == rows
    {
      total := rows;
    }

    method ExecUpdate(act: int, n: int) returns (affected: int)
      modifies this
      ensures act !in old(total) ==> affected == 0 && total == old(total)
      ensures act in old(total) ==>
                && total == old(total)[act := Update(old(total)[act], n).0]
                && affected == if Update(old(total)[act], n).1 && n != 0 then 1 else 0
    {
      if act in total && total[act] >= n {
        total := total[act := total[act] - n];
        // The driver counts changed rows, not matched ones.
        affected := if n != 0 then 1 else 0;
      } else {
        affected := 0;
        assert act in total ==> total == total[act := total[act]];
      }
    }

    /** Other callers' statements that run between this caller's UPDATE and SELECT. */
    method Others(act: int, amounts: seq<int>)
      requires act in total
      modifies this
      ensures total == old(total)[act := After(old(total)[act], amounts)]
    {
      for i := 0 to |amounts|
        invariant total == old(total)[act := After(old(total)[act], amounts[..i])]
      {
        var _ := ExecUpdate(act, amounts[i]);
        assert amounts[..i + 1][..i] == amounts[..i];
      }
      assert amounts[..|amounts|] == amounts;
    }

    /** `own` is the value this caller's UPDATE leaves behind. A failure after it took effect
        leaves the column decremented; success reads the column later, after the others. */
    method DeductForUser(act: int, n: int, update: Link, select_: Link, between: seq<int>)
      returns (r: Result<int, StockError>, ghost own: int)
      requires n >= 0
      modifies this
      ensures own == if act in old(total) then Update(old(total)[act], n).0 else 0
      ensures act !in old(total) || update == Unreached ==> total == old(total)
      ensures act in old(total) && update != Unreached ==>
                total == old(total)[act := if update == Fine && r != Err(StockNotEnough) then After(own, between)
                                           else own]
      ensures update == Fine ==> (r == Err(StockNotEnough) <==> act !in old(total) || old(total)[act] < n || n == 0)
      ensures r.Ok? <==> update == Fine && select_ == Fine && act in old(total) && old(total)[act] >= n > 0
      ensures r.Ok? ==> r.value == After(own, between)
      ensures r.Ok? && (forall k :: 0 <= k < |between| ==> between[k] >= 0) ==> 0 <= r.value <= own
    {
      own := if act in total then Update(total[act], n).0 else 0;
      if update == Unreached {
        return Err(StoreDown), own;
      }
      var affected := ExecUpdate(act, n);
      if update == LostReply {
        return Err(StoreDown), own;
      }
      if affected == 0 {
        return Err(StockNotEnough), own;
      }
      Others(act, between);
      if forall k :: 0 <= k < |between| ==> between[k] >= 0 {
        AfterFalls(own, between);
      }
      if select_ != Fine {
        return Err(StoreDown), own;
      }
      return Ok(total[act]), own;
    }
  }

  // ---------- Serial equivalence with the script ----------

  /** Serial requests (user, amount); -1 stands for ErrStockNotEnough. */
  function SqlServe(total: int, reqs: seq<(int, int)>): (out: (int, seq<int>))
    ensures |out.1| == |reqs|
  {
    if reqs == [] then (total, [])
    else
      var (t, codes) := SqlServe(total, reqs[..|reqs| - 1]);
      var (t', ok) := Update(t, reqs[|reqs| - 1].1);
      (t', codes + [if ok then t' else -1])
  }

  function LuaServe(r: Redis, act: int, limit: int, reqs: seq<(int, int)>): (out: (Redis, seq<int>))
    ensures |out.1| == |reqs|
  {
    if reqs == [] then (r, [])
    else
      var (r1, codes) := LuaServe(r, act, limit, reqs[..|reqs| - 1]);
      var (r2, v) := Script(r1, act, reqs[|reqs| - 1].0, reqs[|reqs| - 1].1, limit);
      (r2, codes + [v])
  }

  /** What one user asks for in all. */
  function AskedBy(reqs: seq<(int, int)>, u: int): int {
    if reqs == [] then 0
    else AskedBy(reqs[..|reqs| - 1], u) + (if reqs[|reqs| - 1].0 == u then reqs[|reqs| - 1].1 else 0)
  }

  /** From equal stock the two versions answer one request alike exactly when the limit does
      not bind it. */
  lemma SameAnswerIff(r: Redis, act: int, user: int, n: int, limit: int)
    requires act in r.stock && n > 0
    ensures var (t, ok) := Update(r.stock[act], n);
            var (r', v) := Script(r, act, user, n, limit);
            (v == if ok then t else -1) <==> !(r.stock[act] >= n && Bought(r, act, user) + n > limit)
  {
  }

  /** With the key warmed to total_stock and a limit that no user's own requests exceed, both
      versions accept and reject at the same positions, with equal remaining, and end with
      equal stock. */
  lemma {:induction false} LuaRefinesSql(r: Redis, act: int, limit: int, reqs: seq<(int, int)>)
    requires act in r.stock
    requires forall q :: q in reqs ==> q.1 > 0
    requires forall u :: Bought(r, act, u) + AskedBy(reqs, u) <= limit
    ensures var (r', codes) := LuaServe(r, act, limit, reqs);
            && SqlServe(r.stock[act], reqs).1 == codes
            && act in r'.stock && r'.stock[act] == SqlServe(r.stock[act], reqs).0
            && forall u :: Bought(r', act, u) <= Bought(r, act, u) + AskedBy(reqs, u)
  {
    if reqs == [] {
    } else {
      var init := reqs[..|reqs| - 1];
      var q := reqs[|reqs| - 1];
      assert q in reqs;
      forall u ensures Bought(r, act, u) + AskedBy(init, u) <= limit {
        assert Bought(r, act, u) + AskedBy(reqs, u) <= limit;
      }
      LuaRefinesSql(r, act, limit, init);
      var (r1, codes) := LuaServe(r, act, limit, init);
      assert AskedBy(reqs, q.0) == AskedBy(init, q.0) + q.1;
      assert Bought(r, act, q.0) + AskedBy(reqs, q.0) <= limit;
      SameAnswerIff(r1, act, q.0, q.1, limit);
      ScriptContract(r1, act, q.0, q.1, limit);
    }
  }

  /** For any limit and any history: the two versions answer a whole list alike exactly when the
      script never answers that the limit was exceeded, and then end with equal stock. */
  lemma {:induction false} SameAnswersIff(r: Redis, act: int, limit: int, reqs: seq<(int, int)>)
    requires act in r.stock && forall q :: q in reqs ==> q.1 > 0
    ensures var (r', codes) := LuaServe(r, act, limit, reqs);
            && (codes == SqlServe(r.stock[act], reqs).1 <==> -2 !in codes)
            && act in r'.stock
            && (-2 !in codes ==> r'.stock[act] == SqlServe(r.stock[act], reqs).0)
            && -2 !in SqlServe(r.stock[act], reqs).1
            && SqlServe(r.stock[act], reqs).0 >= Min(0, r.stock[act])
  {
    if reqs == [] {
    } else {
      var init, q := reqs[..|reqs| - 1], reqs[|reqs| - 1];
      assert q in reqs;
      SameAnswersIff(r, act, limit, init);
      var (r1, codes) := LuaServe(r, act, limit, init);
      SameAnswerIff(r1, act, q.0, q.1, limit);
      ScriptContract(r1, act, q.0, q.1, limit);
      var (t, answers) := SqlServe(r.stock[act], init);
      var all, both := LuaServe(r, act, limit, reqs).1, SqlServe(r.stock[act], reqs).1;
      assert all[..|codes|] == codes && both[..|answers|] == answers;
      assert -2 in all <==> -2 in codes || all[|codes|] == -2;
    }
  }

  // ---------- Interleaved callers ----------

  /** A caller between its two statements remembers (in the proof only) the value its own
      UPDATE left behind. */
  datatype Caller = Fresh | Updated(own: int) | Answered(own: int, remaining: int) | Refused

  datatype Tick = DoUpdate(i: nat) | DoSelect(i: nat)

  function TickStep(amounts: seq<nat>, s: (int, seq<Caller>), k: Tick): (out: (int, seq<Caller>))
    requires |s.1| == |amounts|
    ensures |out.1| == |amounts|
  {
    var (total, cs) := s;
    match k
    case DoUpdate(i) =>
      if i < |cs| && cs[i] == Fresh then
        var (t, ok) := Update(total, amounts[i]);
        (t, cs[i := if ok then Updated(t) else Refused])
      else s
    case DoSelect(i) =>
      if i < |cs| && cs[i].Updated? then (total, cs[i := Answered(cs[i].own, total)])
      else s
  }

  function Interleave(total: int, amounts: seq<nat>, ks: seq<Tick>): (out: (int, seq<Caller>))
    ensures |out.1| == |amounts|
  {
    if ks == [] then (total, seq(|amounts|, i => Fresh))
    else TickStep(amounts, Interleave(total, amounts, ks[..|ks| - 1]), ks[|ks| - 1])
  }

  /** The amounts of the callers whose UPDATE matched. */
  function Taken(amounts: seq<nat>, cs: seq<Caller>): nat
    requires |cs| == |amounts|
  {
    if cs == [] then 0
    else Taken(amounts[..|cs| - 1], cs[..|cs| - 1])
         + (if cs[|cs| - 1].Updated? || cs[|cs| - 1].Answered? then amounts[|cs| - 1] else 0)
  }

  lemma {:induction false} TakenUpdate(amounts: seq<nat>, cs: seq<Caller>, i: nat, c: Caller)
    requires |cs| == |amounts| && i < |cs|
    ensures Taken(amounts, cs[i := c]) == Taken(amounts, cs)
            - (if cs[i].Updated? || cs[i].Answered? then amounts[i] else 0)
            + (if c.Updated? || c.Answered? then amounts[i] else 0)
  {
    var n := |cs| - 1;
    if i < n {
      TakenUpdate(amounts[..n], cs[..n], i, c);
      assert cs[i := c][..n] == cs[..n][i := c];
    } else {
      assert cs[i := c][..n] == cs[..n];
    }
  }

  lemma {:induction false} TakenNone(amounts: seq<nat>, n: nat)
    requires n == |amounts|
    ensures Taken(amounts, seq(n, i => Fresh)) == 0
  {
    if n > 0 {
      TakenNone(amounts[..n - 1], n - 1);
      assert seq(n, i => Fresh)[..n - 1] == seq(n - 1, i => Fresh);
    }
  }

  /** Under any interleaving the column never goes negative, exactly the matched amounts have
      left it, and every returned value lies between the current column and that caller's own
      post-update value. */
  lemma {:induction false} InterleavedSql(total: nat, amounts: seq<nat>, ks: seq<Tick>)
    ensures var (t, cs) := Interleave(total, amounts, ks);
            && 0 <= t == total - Taken(amounts, cs)
            && (forall i :: 0 <= i < |cs| && cs[i].Updated? ==> t <= cs[i].own)
            && (forall i :: 0 <= i < |cs| && cs[i].Answered? ==> t <= cs[i].remaining <= cs[i].own)
  {
    if ks == [] {
      TakenNone(amounts, |amounts|);
    } else {
      InterleavedSql(total, amounts, ks[..|ks| - 1]);
      var (t, cs) := Interleave(total, amounts, ks[..|ks| - 1]);
      match ks[|ks| - 1] {
        case DoUpdate(i) =>
          if i < |cs| && cs[i] == Fresh {
            var (t', ok) := Update(t, amounts[i]);
            TakenUpdate(amounts, cs, i, if ok then Updated(t') else Refused);
          }
        case DoSelect(i) =>
          if i < |cs| && cs[i].Updated? {
            TakenUpdate(amounts, cs, i, Answered(cs[i].own, t));
          }
      }
    }
  }

  /** The column after the first k statements. */
  function ColumnAfter(total: int, amounts: seq<nat>, ks: seq<Tick>, k: nat): int
    requires k <= |ks|
  {
    Interleave(total, amounts, ks[..k]).0
  }

  /** A caller past its UPDATE has the column as that left it; one that was answered was given
      the column at the moment of its own SELECT, which came later. */
  lemma {:induction false} AnswerIsColumn(total: int, amounts: seq<nat>, ks: seq<Tick>, i: nat)
    returns (j: nat, k: nat)
    requires i < |amounts|
    requires var c := Interleave(total, amounts, ks).1[i]; c.Updated? || c.Answered?
    ensures var c := Interleave(total, amounts, ks).1[i];
            && j < |ks| && ks[j] == DoUpdate(i)
            && c.own == ColumnAfter(total, amounts, ks, j + 1) == ColumnAfter(total, amounts, ks, j) - amounts[i]
            && (c.Answered? ==>
                  && j < k < |ks| && ks[k] == DoSelect(i)
                  && c.remaining == ColumnAfter(total, amounts, ks, k) == ColumnAfter(total, amounts, ks, k + 1))
  {
    var n := |ks| - 1;
    var init := ks[..n];
    var c := Interleave(total, amounts, init).1[i];
    assert ks[..n + 1] == ks;
    if c.Updated? || c.Answered? {
      j, k := AnswerIsColumn(total, amounts, init, i);
      assert init[..j] == ks[..j] && init[..j + 1] == ks[..j + 1];
      if c.Answered? {
        assert init[..k] == ks[..k] && init[..k + 1] == ks[..k + 1];
      } else {
        k := n;
      }
    } else {
      j, k := n, n;
    }
  }
}
