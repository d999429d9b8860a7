/** What every step keeps about the requests, the Redis counters and the minted tokens. */
module ApiInvariants {
  import opened Domain
  import opened Stock
  import opened Orders
  import opened Protocol

  // ---------- One request ----------

  predicate NothingYet(r: Req) {
    r.left.None? && r.order.None? && r.qtok.None? && r.msg.None?
  }

  /** The sale runs from startAt up to but not including endAt. */
  predicate Open(a: Activity, now: int) {
    a.startAt <= now < a.endAt
  }

  /** The order, the queue token and the message of a request belong together. */
  predicate Linked(cfg: Config, acts: map<int, Activity>, r: Req) {
    && (r.left.Some? ==> r.act in acts)
    && (r.order.Some? <==> r.qtok.Some?)
    && (r.msg.Some? <==> cfg.kafka && r.order.Some?)
    && (r.order.Some? ==>
          && r.left.Some?
          && r.order.value.userId == r.user && r.order.value.activityId == r.act && r.order.value.token == r.token
          && r.order.value.productId == acts[r.act].productId && Open(acts[r.act], r.order.value.createdAt)
          && r.order.value.status == StatusQueued
          && (r.qtok.value.Uuid? || r.qtok.value == OrderNo(r.order.value.id)))
    && (r.msg.Some? ==> r.msg.value == MessageOf(r.order.value, r.qtok.value, r.msg.value.producedAt))
  }

  /** What each stage of Seckill has and has not done. */
  predicate Staged(cfg: Config, acts: map<int, Activity>, r: Req) {
    match r.pc
    case Arrived => NothingYet(r)
    case Checked(a, now) => NothingYet(r) && r.act in acts && acts[r.act] == a && Open(a, now)
    case Deducted(a, now, remaining) =>
      r.left == Some(remaining) && r.order.None? && r.act in acts && acts[r.act] == a && Open(a, now)
    case Minted(remaining) => r.left == Some(remaining) && r.order.Some?
    case Done(out) =>
      match out.outcome
      case Queued => r.left == Some(out.remaining) && r.qtok == Some(out.token)
      case Duplicate => !cfg.kafka && r.order.Some?
      case Internal => true
      case _ => NothingYet(r)
  }

  predicate ReqOk(cfg: Config, acts: map<int, Activity>, r: Req) {
    Linked(cfg, acts, r) && Staged(cfg, acts, r)
  }

  ghost predicate ReqsOk(cfg: Config, acts: map<int, Activity>, reqs: seq<Req>) {
    forall i :: 0 <= i < |reqs| ==> ReqOk(cfg, acts, reqs[i])
  }

  /** The steps that move one request on without touching Redis counters. */
  predicate Local(st: Step) {
    st.LookUp? || st.Mint? || st.Answer? || st.CreateNow?
  }

  predicate Quiet(st: Step) {
    !Local(st) && !st.Arrive? && !st.Deduct?
  }

  lemma LocalStep(cfg: Config, s: Sys, st: Step)
    requires Shape(cfg, s) && Local(st) && Enabled(cfg, s, st)
    ensures st.i < |s.reqs|
    ensures var s' := Apply(cfg, s, st);
            && |s'.reqs| == |s.reqs| && s'.reqs == s.reqs[st.i := s'.reqs[st.i]]
            && s'.acts == s.acts && s'.redis == s.redis
            && s'.reqs[st.i].left == s.reqs[st.i].left
            && s'.reqs[st.i].act == s.reqs[st.i].act && s'.reqs[st.i].user == s.reqs[st.i].user
            && s'.reqs[st.i].token == s.reqs[st.i].token
            && (!st.Mint? ==> s'.reqs[st.i].order == s.reqs[st.i].order && s'.reqs[st.i].qtok == s.reqs[st.i].qtok
                              && s'.reqs[st.i].msg == s.reqs[st.i].msg)
  {
  }

  lemma QuietStep(cfg: Config, s: Sys, st: Step)
    requires Shape(cfg, s) && Quiet(st)
    ensures var s' := Next(cfg, s, st);
            && s'.reqs == s.reqs
            && (!st.Warm? ==> s'.redis == s.redis)
            && (!st.CreateActivity? ==> s'.acts == s.acts)
  {
  }

  lemma DeductMoves(cfg: Config, s: Sys, i: nat, link: Link)
    requires Shape(cfg, s) && ReqsOk(cfg, s.acts, s.reqs) && Enabled(cfg, s, Deduct(i, link))
    ensures ReqOk(cfg, s.acts, DeductEffect(s, i, link).reqs[i])
  {
    assert ReqOk(cfg, s.acts, s.reqs[i]);
  }

  lemma ReqMoves(cfg: Config, s: Sys, st: Step)
    requires Shape(cfg, s) && ReqsOk(cfg, s.acts, s.reqs) && Enabled(cfg, s, st) && (Local(st) || st.Deduct?)
    ensures st.i < |s.reqs| && ReqOk(cfg, s.acts, Apply(cfg, s, st).reqs[st.i])
  {
    if st.Deduct? {
      DeductMoves(cfg, s, st.i, st.link);
    } else {
      assert ReqOk(cfg, s.acts, s.reqs[st.i]);
    }
  }

  lemma ReqsOkStep(cfg: Config, s: Sys, st: Step)
    requires Shape(cfg, s) && ReqsOk(cfg, s.acts, s.reqs)
    ensures var s' := Next(cfg, s, st); ReqsOk(cfg, s'.acts, s'.reqs)
  {
    if Quiet(st) {
      QuietStep(cfg, s, st);
    } else if Enabled(cfg, s, st) && !st.Arrive? {
      ReqMoves(cfg, s, st);
    }
  }

  /** Requests are only ever added, and what a request has stays. */
  predicate Keeps(r: Req, r': Req) {
    && r'.act == r.act && r'.user == r.user && r'.token == r.token
    && (r.left.Some? ==> r'.left == r.left)
    && (r.order.Some? ==> r'.order == r.order && r'.qtok == r.qtok && r'.msg == r.msg)
  }

  ghost predicate ReqsGrow(reqs: seq<Req>, reqs': seq<Req>) {
    |reqs| <= |reqs'| && forall i :: 0 <= i < |reqs| ==> Keeps(reqs[i], reqs'[i])
  }

  lemma ReqsGrowUpdate(reqs: seq<Req>, i: nat, r: Req)
    requires i < |reqs| && Keeps(reqs[i], r)
    ensures ReqsGrow(reqs, reqs[i := r])
  {
  }

  lemma ReqsGrowStep(cfg: Config, s: Sys, st: Step)
    requires Shape(cfg, s) && ReqsOk(cfg, s.acts, s.reqs)
    ensures ReqsGrow(s.reqs, Next(cfg, s, st).reqs)
  {
    if Quiet(st) {
      QuietStep(cfg, s, st);
    } else if Enabled(cfg, s, st) && !st.Arrive? {
      assert ReqOk(cfg, s.acts, s.reqs[st.i]);
      ReqsGrowUpdate(s.reqs, st.i, Apply(cfg, s, st).reqs[st.i]);
    }
  }

  // ---------- Distinctness ----------

  predicate Apart(r: Req, r': Req) {
    r.order.Some? && r'.order.Some? ==>
      r.order.value.id != r'.order.value.id && (r.qtok.Some? && r'.qtok.Some? ==> r.qtok != r'.qtok)
  }

  ghost predicate Distinct(reqs: seq<Req>) {
    forall i, j :: 0 <= i < |reqs| && 0 <= j < |reqs| && i != j ==> Apart(reqs[i], reqs[j])
  }

  /** The consumer only writes tokens that messages carry, and those were minted. */
  ghost predicate LogTokensMinted(log: seq<seq<Entry>>, minted: set<string>) {
    forall p, off :: 0 <= p < |log| && 0 <= off < |log[p]| && log[p][off].Message? && log[p][off].m.queueToken.Uuid?
      ==> log[p][off].m.queueToken.text in minted
  }

  /** Every UUID in use was minted. */
  ghost predicate TokensMinted(reqs: seq<Req>, queue: map<QueueToken, TokenState>, minted: set<string>) {
    && (forall i :: 0 <= i < |reqs| && reqs[i].qtok.Some? && reqs[i].qtok.value.Uuid? ==>
        reqs[i].qtok.value.text in minted)
    && (forall t :: t in queue && t.Uuid? ==> t.text in minted)
  }

  lemma TokensMintedStep(cfg: Config, s: Sys, st: Step)
    requires Shape(cfg, s) && TokensMinted(s.reqs, s.queue, s.minted) && LogTokensMinted(s.log, s.minted)
    ensures var s' := Next(cfg, s, st); TokensMinted(s'.reqs, s'.queue, s'.minted)
  {
  }

  lemma DistinctUpdate(reqs: seq<Req>, i: nat, r: Req)
    requires Distinct(reqs) && i < |reqs|
    requires forall j :: 0 <= j < |reqs| && j != i ==> Apart(reqs[j], r) && Apart(r, reqs[j])
    ensures Distinct(reqs[i := r])
  {
  }

  /** A fresh id and a fresh UUID are nobody else's. */
  lemma MintedApart(cfg: Config, s: Sys, st: Step, j: nat)
    requires Shape(cfg, s) && ReqsOk(cfg, s.acts, s.reqs) && TokensMinted(s.reqs, s.queue, s.minted)
    requires st.Mint? && Enabled(cfg, s, st) && j < |s.reqs| && j != st.i
    ensures var r := Apply(cfg, s, st).reqs[st.i]; Apart(s.reqs[j], r) && Apart(r, s.reqs[j])
  {
    assert ReqOk(cfg, s.acts, s.reqs[j]);
  }

  lemma DistinctStep(cfg: Config, s: Sys, st: Step)
    requires Shape(cfg, s) && ReqsOk(cfg, s.acts, s.reqs)
    requires Distinct(s.reqs) && TokensMinted(s.reqs, s.queue, s.minted)
    ensures Distinct(Next(cfg, s, st).reqs)
  {
    if Quiet(st) {
      QuietStep(cfg, s, st);
    } else if Enabled(cfg, s, st) && !st.Arrive? {
      var r := Apply(cfg, s, st).reqs[st.i];
      forall j | 0 <= j < |s.reqs| && j != st.i ensures Apart(s.reqs[j], r) && Apart(r, s.reqs[j]) {
        assert Apart(s.reqs[j], s.reqs[st.i]) && Apart(s.reqs[st.i], s.reqs[j]);
        if st.Mint? {
          MintedApart(cfg, s, st, j);
        }
      }
      DistinctUpdate(s.reqs, st.i, r);
    }
  }

  // ---------- Accounting ----------

  ghost predicate Accounts(acts: map<int, Activity>, redis: Redis, reqs: seq<Req>) {
    && (forall a :: a in redis.stock ==>
          && a in acts && redis.stock[a] + |Reserved(reqs, OfActivity(a))| == acts[a].totalStock
          && redis.stock[a] >= Min(0, acts[a].totalStock))
    && (forall a :: a !in redis.stock ==> Reserved(reqs, OfActivity(a)) == {})
    && (forall a, u :: Bought(redis, a, u) == |Reserved(reqs, OfUser(a, u))|)
    && (forall a, u :: Bought(redis, a, u) > 0 ==> a in acts && Bought(redis, a, u) <= acts[a].perUserLimit)
  }

  /** Only a request whose own decrement happens changes a reserved set. */
  lemma ReservedUpdate(reqs: seq<Req>, i: nat, r: Req, sc: Scope)
    requires i < |reqs| && r.act == reqs[i].act && r.user == reqs[i].user
    requires reqs[i].left.Some? ==> r.left.Some?
    ensures reqs[i].left.Some? || r.left.None? || !In(sc, r.act, r.user)
            ==> Reserved(reqs[i := r], sc) == Reserved(reqs, sc)
    ensures reqs[i].left.None? && r.left.Some? && In(sc, r.act, r.user)
            ==> |Reserved(reqs[i := r], sc)| == |Reserved(reqs, sc)| + 1
  {
    var now, was := Reserved(reqs[i := r], sc), Reserved(reqs, sc);
    forall j | 0 <= j < |reqs| && j != i ensures j in now <==> j in was {
      assert reqs[i := r][j] == reqs[j];
    }
    if reqs[i].left.None? && r.left.Some? && In(sc, r.act, r.user) {
      assert now == was + {i as int};
    } else if reqs[i].left.Some? || r.left.None? || !In(sc, r.act, r.user) {
      assert i in now <==> i in was;
      assert now == was;
    }
  }

  lemma AccountsArrive(acts: map<int, Activity>, redis: Redis, reqs: seq<Req>, r: Req)
    requires Accounts(acts, redis, reqs) && r.left.None?
    ensures Accounts(acts, redis, reqs + [r])
  {
    forall sc ensures Reserved(reqs + [r], sc) == Reserved(reqs, sc) {
    }
  }

  lemma AccountsOther(cfg: Config, s: Sys, i: nat, r: Req)
    requires Accounts(s.acts, s.redis, s.reqs)
    requires i < |s.reqs| && r.act == s.reqs[i].act && r.user == s.reqs[i].user && r.left == s.reqs[i].left
    ensures Accounts(s.acts, s.redis, s.reqs[i := r])
  {
    forall sc ensures Reserved(s.reqs[i := r], sc) == Reserved(s.reqs, sc) {
      ReservedUpdate(s.reqs, i, r, sc);
    }
  }

  /** A granted decrement moves one unit from the stock to one more reservation. */
  lemma AccountsGrant(acts: map<int, Activity>, redis: Redis, reqs: seq<Req>, i: nat, r: Req, limit: int)
    requires Accounts(acts, redis, reqs) && i < |reqs|
    requires reqs[i].left.None? && r.left.Some? && r.act == reqs[i].act && r.user == reqs[i].user
    requires r.act in acts && acts[r.act].perUserLimit == limit
    requires Script(redis, r.act, r.user, 1, limit).1 >= 0
    ensures Accounts(acts, Script(redis, r.act, r.user, 1, limit).0, reqs[i := r])
  {
    ScriptContract(redis, r.act, r.user, 1, limit);
    forall sc ensures |Reserved(reqs[i := r], sc)| == |Reserved(reqs, sc)| + (if In(sc, r.act, r.user) then 1 else 0) {
      ReservedUpdate(reqs, i, r, sc);
    }
    forall a | a !in redis.stock ensures Reserved(reqs[i := r], OfActivity(a)) == {} {
      ReservedUpdate(reqs, i, r, OfActivity(a));
    }
  }

  lemma AccountsDeduct(cfg: Config, s: Sys, i: nat, link: Link)
    requires Shape(cfg, s) && ReqsOk(cfg, s.acts, s.reqs) && Accounts(s.acts, s.redis, s.reqs)
    requires Enabled(cfg, s, Deduct(i, link))
    ensures var s' := Apply(cfg, s, Deduct(i, link)); Accounts(s'.acts, s'.redis, s'.reqs)
  {
    var r := s.reqs[i];
    var r' := Apply(cfg, s, Deduct(i, link)).reqs[i];
    assert ReqOk(cfg, s.acts, r);
    ScriptContract(s.redis, r.act, r.user, 1, r.pc.a.perUserLimit);
    if r'.left.Some? {
      AccountsGrant(s.acts, s.redis, s.reqs, i, r', r.pc.a.perUserLimit);
    } else {
      AccountsOther(cfg, s, i, r');
    }
  }

  lemma AccountsStep(cfg: Config, s: Sys, st: Step)
    requires Shape(cfg, s) && ReqsOk(cfg, s.acts, s.reqs) && Accounts(s.acts, s.redis, s.reqs)
    ensures var s' := Next(cfg, s, st); Accounts(s'.acts, s'.redis, s'.reqs)
  {
    if Quiet(st) {
      QuietStep(cfg, s, st);
    } else if Enabled(cfg, s, st) {
      if Local(st) {
        LocalStep(cfg, s, st);
        AccountsOther(cfg, s, st.i, Apply(cfg, s, st).reqs[st.i]);
      } else if st.Deduct? {
        AccountsDeduct(cfg, s, st.i, st.link);
      } else {
        AccountsArrive(s.acts, s.redis, s.reqs, Req(st.act, st.user, st.token, Arrived, None, None, None, None));
      }
    }
  }

  // ---------- Tickets ----------

  /** Every reservation drew a ticket below the initial stock and not below the present one,
      and no two reservations of an activity drew the same. */
  ghost predicate Tickets(acts: map<int, Activity>, redis: Redis, reqs: seq<Req>) {
    && (forall i :: 0 <= i < |reqs| && reqs[i].left.Some? ==>
          && reqs[i].act in redis.stock && reqs[i].act in acts
          && 0 <= reqs[i].left.value < acts[reqs[i].act].totalStock
          && redis.stock[reqs[i].act] <= reqs[i].left.value)
    && (forall i, j :: 0 <= i < |reqs| && 0 <= j < |reqs| && i != j ==> !SameTicket(reqs[i], reqs[j]))
  }

  predicate SameTicket(r: Req, r': Req) {
    r.left.Some? && r'.left == r.left && r'.act == r.act
  }

  lemma TicketsGrant(acts: map<int, Activity>, redis: Redis, reqs: seq<Req>, i: nat, r: Req, limit: int)
    requires Accounts(acts, redis, reqs) && Tickets(acts, redis, reqs) && i < |reqs| && r.act == reqs[i].act
    requires Script(redis, r.act, r.user, 1, limit).1 >= 0
    requires r.left == Some(Script(redis, r.act, r.user, 1, limit).1)
    ensures Tickets(acts, Script(redis, r.act, r.user, 1, limit).0, reqs[i := r])
  {
    ScriptContract(redis, r.act, r.user, 1, limit);
  }

  lemma TicketsDeduct(cfg: Config, s: Sys, i: nat, link: Link)
    requires Shape(cfg, s) && ReqsOk(cfg, s.acts, s.reqs)
    requires Accounts(s.acts, s.redis, s.reqs) && Tickets(s.acts, s.redis, s.reqs)
    requires Enabled(cfg, s, Deduct(i, link))
    ensures var s' := Apply(cfg, s, Deduct(i, link)); Tickets(s'.acts, s'.redis, s'.reqs)
  {
    var r := s.reqs[i];
    var r' := Apply(cfg, s, Deduct(i, link)).reqs[i];
    assert ReqOk(cfg, s.acts, r);
    ScriptContract(s.redis, r.act, r.user, 1, r.pc.a.perUserLimit);
    if r'.left.Some? {
      TicketsGrant(s.acts, s.redis, s.reqs, i, r', r.pc.a.perUserLimit);
    } else {
      TicketsOther(s.acts, s.redis, s.reqs, i, r');
    }
  }

  lemma TicketsWarm(cfg: Config, s: Sys, act: int)
    requires Shape(cfg, s) && Tickets(s.acts, s.redis, s.reqs)
    requires Enabled(cfg, s, Warm(act))
    ensures var s' := Apply(cfg, s, Warm(act)); Tickets(s'.acts, s'.redis, s'.reqs)
  {
    forall i | 0 <= i < |s.reqs| && s.reqs[i].left.Some? ensures s.reqs[i].act != act {
      assert s.reqs[i].act == act ==> i in Reserved(s.reqs, OfActivity(act));
    }
  }

  lemma TicketsOther(acts: map<int, Activity>, redis: Redis, reqs: seq<Req>, i: nat, r: Req)
    requires Tickets(acts, redis, reqs)
    requires i < |reqs| && r.act == reqs[i].act && r.left == reqs[i].left
    ensures Tickets(acts, redis, reqs[i := r])
  {
  }

  lemma TicketsArrive(acts: map<int, Activity>, redis: Redis, reqs: seq<Req>, r: Req)
    requires Tickets(acts, redis, reqs) && r.left.None?
    ensures Tickets(acts, redis, reqs + [r])
  {
  }

  lemma TicketsFrame(acts: map<int, Activity>, acts': map<int, Activity>, redis: Redis, reqs: seq<Req>)
    requires Tickets(acts, redis, reqs) && forall a :: a in acts ==> a in acts' && acts'[a] == acts[a]
    ensures Tickets(acts', redis, reqs)
  {
  }

  lemma TicketsLocal(cfg: Config, s: Sys, st: Step)
    requires Shape(cfg, s) && Tickets(s.acts, s.redis, s.reqs) && Local(st) && Enabled(cfg, s, st)
    ensures var s' := Apply(cfg, s, st); Tickets(s'.acts, s'.redis, s'.reqs)
  {
    LocalStep(cfg, s, st);
    TicketsOther(s.acts, s.redis, s.reqs, st.i, Apply(cfg, s, st).reqs[st.i]);
  }

  lemma TicketsQuiet(cfg: Config, s: Sys, st: Step)
    requires Shape(cfg, s) && Accounts(s.acts, s.redis, s.reqs) && Tickets(s.acts, s.redis, s.reqs)
    requires Quiet(st) && Enabled(cfg, s, st)
    ensures var s' := Apply(cfg, s, st); Tickets(s'.acts, s'.redis, s'.reqs)
  {
    QuietStep(cfg, s, st);
    if st.Warm? {
      TicketsWarm(cfg, s, st.act);
    } else if st.CreateActivity? {
      TicketsFrame(s.acts, Apply(cfg, s, st).acts, s.redis, s.reqs);
    }
  }

  lemma TicketsStep(cfg: Config, s: Sys, st: Step)
    requires Shape(cfg, s) && ReqsOk(cfg, s.acts, s.reqs)
    requires Accounts(s.acts, s.redis, s.reqs) && Tickets(s.acts, s.redis, s.reqs)
    ensures var s' := Next(cfg, s, st); Tickets(s'.acts, s'.redis, s'.reqs)
  {
    if Enabled(cfg, s, st) {
      if Quiet(st) {
        TicketsQuiet(cfg, s, st);
      } else if Local(st) {
        TicketsLocal(cfg, s, st);
      } else if st.Deduct? {
        TicketsDeduct(cfg, s, st.i, st.link);
      } else {
        TicketsArrive(s.acts, s.redis, s.reqs, Req(st.act, st.user, st.token, Arrived, None, None, None, None));
      }
    }
  }
}
