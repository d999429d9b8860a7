/** Stock, reservations and rows over every schedule: conservation, exact drift, the
    two-layer bound, tickets, and what a refused request leaves alone. */
module Accounting {
  import opened Domain
  import opened Stock
  import opened Orders
  import opened Protocol
  import opened ApiInvariants
  import opened RowInvariants
  import opened ConsumerInvariants
  import opened Invariants

  /** Finding.Drift of internal/service/reconcile.go:90-96. */
  ghost function Drift(s: Sys, act: int): int
    requires act in s.acts && act in s.redis.stock
  {
    s.acts[act].totalStock - (s.redis.stock[act] + CountAll(s.dbs, OfActivity(act)))
  }

  /** Reservations with no row under their own order id. */
  ghost function Unmatched(s: Sys, sc: Scope): set<int>
    requires ShardCount(|s.dbs|)
  {
    Reserved(s.reqs, sc) - Own(s.reqs, s.dbs, sc)
  }

  lemma SubsetSize(a: set<int>, b: set<int>)
    requires a <= b
    ensures |b - a| == |b| - |a|
  {
    assert b == a + (b - a);
  }

  lemma OwnIsReserved(cfg: Config, s: Sys, sc: Scope)
    requires Shape(cfg, s) && ReqsOk(cfg, s.acts, s.reqs) && OwnCount(s.reqs, s.dbs)
    ensures Own(s.reqs, s.dbs, sc) <= Reserved(s.reqs, sc)
    ensures |Unmatched(s, sc)| == |Reserved(s.reqs, sc)| - CountAll(s.dbs, sc)
  {
    forall i | i in Own(s.reqs, s.dbs, sc) ensures i in Reserved(s.reqs, sc) {
      assert ReqOk(cfg, s.acts, s.reqs[i]);
    }
    SubsetSize(Own(s.reqs, s.dbs, sc), Reserved(s.reqs, sc));
  }

  /** Exact drift: in every reachable state the Redis stock and the reservations add up to
      the initial stock, and the drift is the number of reservations with no row of their
      own. It is never negative: rows never outrun reservations. */
  lemma ExactDrift(cfg: Config, tr: seq<Step>, act: int)
    requires ValidConfig(cfg) && act in Reach(cfg, tr).redis.stock
    ensures var s := Reach(cfg, tr);
            && act in s.acts
            && s.redis.stock[act] + |Reserved(s.reqs, OfActivity(act))| == s.acts[act].totalStock
            && Drift(s, act) == |Unmatched(s, OfActivity(act))| >= 0
  {
    Always(cfg, tr);
    OwnIsReserved(cfg, Reach(cfg, tr), OfActivity(act));
  }

  // ---------- Why a reservation has no row ----------

  /** The call has not returned yet. */
  predicate InFlight(r: Req) {
    r.pc.Deducted? || r.pc.Minted?
  }

  ghost predicate InLog(cfg: Config, s: Sys, r: Req)
    requires Shape(cfg, s)
  {
    r.msg.Some? && Message(r.msg.value) in s.log[cfg.part(r.msg.value.userId)]
  }

  /** The call failed after the decrement and nothing was published for it (nothing ever is by
      the synchronous order creator). */
  ghost predicate Leaked(cfg: Config, s: Sys, r: Req)
    requires Shape(cfg, s)
  {
    r.pc.Done? && r.pc.out.outcome == Internal && !InLog(cfg, s, r)
  }

  /** Its message waits at or beyond the consumer's position. */
  ghost predicate Pending(cfg: Config, s: Sys, r: Req)
    requires Shape(cfg, s)
  {
    r.msg.Some? &&
    var p := cfg.part(r.msg.value.userId);
    exists off :: s.pos[p] <= off < |s.log[p]| && s.log[p][off] == Message(r.msg.value)
  }

  /** Its message was consumed and handed to the DLQ callback. */
  ghost predicate DeadLettered(cfg: Config, s: Sys, r: Req)
    requires Shape(cfg, s)
  {
    r.msg.Some? &&
    var p := cfg.part(r.msg.value.userId);
    exists off :: 0 <= off < s.pos[p] && off < |s.log[p]| && s.log[p][off] == Message(r.msg.value)
        && Handed(s.dead, p, off)
  }

  /** Another request's row holds its idempotency key. */
  predicate Duplicated(s: Sys, r: Req)
    requires ShardCount(|s.dbs|)
  {
    r.order.Some? && HasKey(Home(s.dbs, r.user), r.order.value)
  }

  ghost predicate Explained(cfg: Config, s: Sys, r: Req)
    requires Shape(cfg, s)
  {
    InFlight(r) || Leaked(cfg, s, r) || Pending(cfg, s, r) || DeadLettered(cfg, s, r) || Duplicated(s, r)
  }

  /** Every reservation has a row of its own or one of the five reasons not to. */
  lemma EveryReservationExplained(cfg: Config, tr: seq<Step>, i: nat)
    requires ValidConfig(cfg)
    requires i < |Reach(cfg, tr).reqs| && Reach(cfg, tr).reqs[i].left.Some?
    ensures var s := Reach(cfg, tr); Owns(s.reqs[i], s.dbs) || Explained(cfg, s, s.reqs[i])
  {
    Always(cfg, tr);
    var s := Reach(cfg, tr);
    var r := s.reqs[i];
    assert ReqOk(cfg, s.acts, r) && AnswerOk(cfg, r, s.log, s.dbs);
    if InLog(cfg, s, r) && !Pending(cfg, s, r) {
      ConsumedExplained(cfg, s, i);
    } else if r.pc.Done? && r.pc.out.outcome == Queued && !cfg.kafka {
      var t := Home(s.dbs, r.user);
      var k :| 0 <= k < |t| && t[k] == r.order.value;
      assert t[k].id == r.order.value.id;
    }
  }

  lemma ConsumedExplained(cfg: Config, s: Sys, i: nat)
    requires Inv(cfg, s) && i < |s.reqs| && InLog(cfg, s, s.reqs[i]) && !Pending(cfg, s, s.reqs[i])
    ensures DeadLettered(cfg, s, s.reqs[i]) || Duplicated(s, s.reqs[i])
  {
    var r := s.reqs[i];
    assert ReqOk(cfg, s.acts, r);
    var p := cfg.part(r.msg.value.userId);
    var off :| 0 <= off < |s.log[p]| && s.log[p][off] == Message(r.msg.value);
    assert off < s.pos[p];
    assert PartOk(cfg, s.log, s.dbs, s.dead, p, s.committed[p], s.pos[p], s.stage[p]);
    assert Settled(s.log, s.dbs, s.dead, p, off);
    if !Handed(s.dead, p, off) {
      KeyOfOrder(s.dbs, r.msg.value, r.order.value);
    }
  }

  /** Drift is zero exactly when no reservation without a row is in flight, leaked, pending,
      dead-lettered or duplicated. */
  lemma DriftZeroIff(cfg: Config, tr: seq<Step>, act: int)
    requires ValidConfig(cfg) && act in Reach(cfg, tr).redis.stock
    ensures var s := Reach(cfg, tr);
            && act in s.acts
            && (Drift(s, act) == 0 <==>
                forall i :: i in Reserved(s.reqs, OfActivity(act)) ==>
                  !(Explained(cfg, s, s.reqs[i]) && !Owns(s.reqs[i], s.dbs)))
  {
    ExactDrift(cfg, tr, act);
    var s := Reach(cfg, tr);
    var sc := OfActivity(act);
    forall i ensures i in Unmatched(s, sc) <==>
      i in Reserved(s.reqs, sc) && Explained(cfg, s, s.reqs[i]) && !Owns(s.reqs[i], s.dbs)
    {
      if i in Reserved(s.reqs, sc) {
        EveryReservationExplained(cfg, tr, i);
      }
    }
    if Drift(s, act) != 0 {
      Inhabited(Unmatched(s, sc));
    }
  }

  // ---------- Warming twice ----------

  /** What AdminService.Warm does without the model's guard. */
  function WarmAnyway(s: Sys, act: int): Sys
    requires act in s.acts
  {
    s.(redis := s.redis.(stock := s.redis.stock[act := s.acts[act].totalStock]))
  }

  /** Warming keeps the stock equation exactly when nothing of the activity is reserved. */
  lemma WarmKeepsEquationIff(cfg: Config, tr: seq<Step>, act: int)
    requires ValidConfig(cfg) && act in Reach(cfg, tr).acts
    ensures var s := Reach(cfg, tr);
            var s' := WarmAnyway(s, act);
            s'.redis.stock[act] + |Reserved(s'.reqs, OfActivity(act))| == s'.acts[act].totalStock
            <==> Reserved(s.reqs, OfActivity(act)) == {}
  {
    var s := Reach(cfg, tr);
    if Reserved(s.reqs, OfActivity(act)) != {} {
      assert |Reserved(s.reqs, OfActivity(act))| > 0;
    }
  }

  // ---------- A script sent twice ----------

  /** When the client library sends the script of one call twice, the first execution leaves the
      system as another request with the same body would that lost its answer. So every
      statement about schedules covers such calls. */
  lemma ResendIsAnotherRequest(cfg: Config, s: Sys, i: nat, a: Activity, now: int)
    requires Shape(cfg, s) && ReqsOk(cfg, s.acts, s.reqs) && i < |s.reqs| && s.reqs[i].pc == Checked(a, now)
    ensures var r, n := s.reqs[i], |s.reqs|;
            var (redis', v) := Script(s.redis, r.act, r.user, 1, a.perUserLimit);
            Next(cfg, Next(cfg, Next(cfg, s, Arrive(r.act, r.user, r.token)), LookUp(n, now, true)),
                 Deduct(n, LostReply))
            == s.(redis := redis',
                  reqs := s.reqs + [Req(r.act, r.user, r.token, Refuse(Internal),
                                        if v >= 0 then Some(v) else None, None, None, None)])
  {
    var r, n := s.reqs[i], |s.reqs|;
    assert ReqOk(cfg, s.acts, r);
    var s1 := Next(cfg, s, Arrive(r.act, r.user, r.token));
    var s2 := Next(cfg, s1, LookUp(n, now, true));
    assert s2 == s.(reqs := s.reqs + [Req(r.act, r.user, r.token, Checked(a, now), None, None, None, None)]);
  }

  // ---------- Two layers ----------

  /** However often the middleware fails open, a message is redelivered or a consumer crashes:
      one row per (activity, user, token) across all shards, and a user's rows are bounded by
      the user counter, which is bounded by the limit. */
  lemma TwoLayerBound(cfg: Config, tr: seq<Step>, act: int, user: int)
    requires ValidConfig(cfg)
    ensures var s := Reach(cfg, tr);
            && (forall d, i, e, j ::
                  (0 <= d < |s.dbs| && 0 <= e < |s.dbs| && 0 <= i < |s.dbs[d]| && 0 <= j < |s.dbs[e]|
                   && SameKey(s.dbs[d][i], s.dbs[e][j])) ==> d == e && i == j)
            && CountAll(s.dbs, OfUser(act, user)) <= Bought(s.redis, act, user)
            && Bought(s.redis, act, user) == |Reserved(s.reqs, OfUser(act, user))|
            && (Bought(s.redis, act, user) > 0 ==>
                  act in s.acts && Bought(s.redis, act, user) <= s.acts[act].perUserLimit)
  {
    Always(cfg, tr);
    var s := Reach(cfg, tr);
    OwnIsReserved(cfg, s, OfUser(act, user));
    forall d, i, e, j | 0 <= d < |s.dbs| && 0 <= e < |s.dbs| && 0 <= i < |s.dbs[d]| && 0 <= j < |s.dbs[e]|
      && SameKey(s.dbs[d][i], s.dbs[e][j])
      ensures d == e && i == j
    {
      KeysAreGlobal(s.dbs, d, i, e, j);
    }
  }

  /** No oversell end to end: rows never exceed reservations and reservations never exceed
      the stock the activity started with. */
  lemma NoOversoldRows(cfg: Config, tr: seq<Step>, act: int)
    requires ValidConfig(cfg) && act in Reach(cfg, tr).acts
    ensures var s := Reach(cfg, tr);
            CountAll(s.dbs, OfActivity(act)) <= |Reserved(s.reqs, OfActivity(act))| <= Max0(s.acts[act].totalStock)
  {
    Always(cfg, tr);
    var s := Reach(cfg, tr);
    OwnIsReserved(cfg, s, OfActivity(act));
    ReservedAtMost(s, act);
  }

  lemma ReservedAtMost(s: Sys, act: int)
    requires Accounts(s.acts, s.redis, s.reqs) && act in s.acts
    ensures |Reserved(s.reqs, OfActivity(act))| <= Max0(s.acts[act].totalStock)
  {
  }

  // ---------- Tickets ----------

  predicate SoldTo(r: Req, act: int) {
    r.act == act && r.pc.Done? && r.pc.out.outcome == Queued
  }

  /** Queued answers for one activity show pairwise distinct remaining values in
      [0, totalStock) and distinct tokens and orders; each has its own entry in the log, or
      with the synchronous creator its own row. */
  lemma QueuedAnswers(cfg: Config, tr: seq<Step>, act: int, i: nat)
    requires ValidConfig(cfg)
    requires i < |Reach(cfg, tr).reqs| && SoldTo(Reach(cfg, tr).reqs[i], act)
    ensures var s := Reach(cfg, tr);
            var r := s.reqs[i];
            && act in s.acts && 0 <= r.pc.out.remaining < s.acts[act].totalStock
            && r.left == Some(r.pc.out.remaining) && r.order.Some?
            && (if cfg.kafka then InLog(cfg, s, r) else r.order.value in Home(s.dbs, r.user))
            && (forall j :: 0 <= j < |s.reqs| && j != i && SoldTo(s.reqs[j], act) ==>
                  && s.reqs[j].pc.out.remaining != r.pc.out.remaining
                  && s.reqs[j].pc.out.token != r.pc.out.token
                  && s.reqs[j].order != r.order
                  && (cfg.kafka ==> s.reqs[j].msg != r.msg))
  {
    Always(cfg, tr);
    var s := Reach(cfg, tr);
    assert ReqOk(cfg, s.acts, s.reqs[i]) && AnswerOk(cfg, s.reqs[i], s.log, s.dbs);
    forall j | 0 <= j < |s.reqs| && j != i && SoldTo(s.reqs[j], act)
      ensures s.reqs[j].pc.out.remaining != s.reqs[i].pc.out.remaining
              && s.reqs[j].pc.out.token != s.reqs[i].pc.out.token && s.reqs[j].order != s.reqs[i].order
              && (cfg.kafka ==> s.reqs[j].msg != s.reqs[i].msg)
    {
      assert ReqOk(cfg, s.acts, s.reqs[j]) && !SameTicket(s.reqs[i], s.reqs[j]) && Apart(s.reqs[i], s.reqs[j]);
    }
  }

  /** Nothing is sold outside the window: every row belongs to a reservation whose request
      read the clock inside it, and carries the activity's product. */
  lemma RowsSoldInWindow(cfg: Config, tr: seq<Step>, d: nat, k: nat)
    requires ValidConfig(cfg) && d < cfg.shards && k < |Reach(cfg, tr).dbs[d]|
    ensures var s := Reach(cfg, tr);
            var row := s.dbs[d][k];
            && row.activityId in s.acts && row.productId == s.acts[row.activityId].productId
            && exists i :: 0 <= i < |s.reqs| && s.reqs[i].left.Some? && s.reqs[i].order.Some?
                 && s.reqs[i].order.value.id == row.id && s.reqs[i].user == row.userId
                 && Open(s.acts[row.activityId], s.reqs[i].order.value.createdAt)
  {
    Always(cfg, tr);
    var s := Reach(cfg, tr);
    assert Backed(s.reqs, s.dbs[d][k]);
    var i :| 0 <= i < |s.reqs| && Backs(s.reqs[i], s.dbs[d][k]);
    assert ReqOk(cfg, s.acts, s.reqs[i]);
  }

  /** Field by field: every row is stored as queued, and repeats the entry it was made from, with
      the time that was produced at; with the synchronous creator it repeats its request's
      fields, with the time its clock read inside the window. */
  lemma RowsRepeatTheirSource(cfg: Config, tr: seq<Step>, d: nat, k: nat)
    requires ValidConfig(cfg) && d < cfg.shards && k < |Reach(cfg, tr).dbs[d]|
    ensures var s := Reach(cfg, tr);
            var row := s.dbs[d][k];
            && row.status == StatusQueued
            && (cfg.kafka ==>
                  exists e :: e in s.log[cfg.part(row.userId)] && e.Message?
                              && e.m.orderId == row.id && e.m.userId == row.userId && e.m.activityId == row.activityId
                              && e.m.productId == row.productId && e.m.token == row.token
                              && e.m.producedAt == row.createdAt)
            && (!cfg.kafka ==>
                  exists r :: r in s.reqs && r.order.Some? && r.order.value.id == row.id
                              && r.user == row.userId && r.act == row.activityId && r.token == row.token
                              && r.order.value.createdAt == row.createdAt
                              && row.activityId in s.acts && Open(s.acts[row.activityId], row.createdAt))
  {
    Always(cfg, tr);
    var s := Reach(cfg, tr);
    if cfg.kafka {
      assert TableSrcOk(cfg, s.log, s.committed, s.dead, s.dbs[d], s.src[d]);
      assert RowSrcOk(cfg, s.log, s.committed, s.dead, s.dbs[d][k], s.src[d][k]);
      var e := s.log[cfg.part(s.dbs[d][k].userId)][s.src[d][k]];
      assert e in s.log[cfg.part(s.dbs[d][k].userId)];
    } else {
      assert Backed(s.reqs, s.dbs[d][k]);
      var i :| 0 <= i < |s.reqs| && Backs(s.reqs[i], s.dbs[d][k]);
      assert ReqOk(cfg, s.acts, s.reqs[i]);
      assert s.reqs[i] in s.reqs;
    }
  }

  /** Field by field: every decodable entry repeats the request, the order and the token it was
      published for, in the partition of its user. */
  lemma EntriesRepeatTheirOrder(cfg: Config, tr: seq<Step>, p: nat, off: nat)
    requires ValidConfig(cfg) && p < cfg.parts && off < |Reach(cfg, tr).log[p]| && Reach(cfg, tr).log[p][off].Message?
    ensures var s := Reach(cfg, tr);
            var m := s.log[p][off].m;
            && p == cfg.part(m.userId)
            && exists r :: r in s.reqs && r.order.Some? && r.left.Some?
                 && m.userId == r.user && m.activityId == r.act && m.token == r.token && m.orderId == r.order.value.id
                 && m.activityId in s.acts && m.productId == s.acts[m.activityId].productId
                 && r.qtok == Some(m.queueToken) && (m.queueToken.Uuid? || m.queueToken == OrderNo(m.orderId))
  {
    Always(cfg, tr);
    var s := Reach(cfg, tr);
    var i :| 0 <= i < |s.reqs| && Published(cfg, s.reqs[i], p, s.log[p][off].m);
    assert ReqOk(cfg, s.acts, s.reqs[i]);
    assert s.reqs[i] in s.reqs;
  }

  /** The k-th decrement since the warming leaves totalStock - k. */
  lemma KthReservation(cfg: Config, tr: seq<Step>, i: nat, link: Link)
    requires ValidConfig(cfg)
    requires Enabled(cfg, Reach(cfg, tr), Deduct(i, link))
    ensures var s := Reach(cfg, tr);
            var r := Next(cfg, s, Deduct(i, link)).reqs[i];
            r.left.Some? ==>
              r.act in s.acts && r.left.value == s.acts[r.act].totalStock - (|Reserved(s.reqs, OfActivity(r.act))| + 1)
  {
    Always(cfg, tr);
    var s := Reach(cfg, tr);
    assert ReqOk(cfg, s.acts, s.reqs[i]);
    ScriptContract(s.redis, s.reqs[i].act, s.reqs[i].user, 1, s.reqs[i].pc.a.perUserLimit);
  }

  // ---------- Refused requests ----------

  predicate Refusal(o: Outcome) {
    o != Queued && o != Duplicate && o != Internal
  }

  /** A refused request decremented nothing and has no order id, token or message. */
  lemma RefusedDidNothing(cfg: Config, tr: seq<Step>, i: nat)
    requires ValidConfig(cfg) && i < |Reach(cfg, tr).reqs|
    requires Reach(cfg, tr).reqs[i].pc.Done? && Refusal(Reach(cfg, tr).reqs[i].pc.out.outcome)
    ensures NothingYet(Reach(cfg, tr).reqs[i])
  {
    Always(cfg, tr);
    assert ReqOk(cfg, Reach(cfg, tr).acts, Reach(cfg, tr).reqs[i]);
  }

  /** The very step that refuses changes nothing but the answer, and so did every earlier step
      of that request (only LookUp can precede it). */
  lemma RefusingStepIsSilent(cfg: Config, s: Sys, st: Step)
    requires Inv(cfg, s) && (st.LookUp? || st.Deduct?) && Enabled(cfg, s, st)
    requires st.LookUp? || (Apply(cfg, s, st).reqs[st.i].pc.Done?
        && Refusal(Apply(cfg, s, st).reqs[st.i].pc.out.outcome))
    ensures Apply(cfg, s, st) == s.(reqs := s.reqs[st.i := s.reqs[st.i].(pc := Apply(cfg, s, st).reqs[st.i].pc)])
  {
    assert ReqOk(cfg, s.acts, s.reqs[st.i]);
    if st.Deduct? {
      ScriptContract(s.redis, s.reqs[st.i].act, s.reqs[st.i].user, 1, s.reqs[st.i].pc.a.perUserLimit);
    }
  }
}
