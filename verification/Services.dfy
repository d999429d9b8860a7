/** The services over the shared stores, each remote call preceded by arbitrary steps of
    everyone else and free to fail: Seckill, the materializer, the consumer loop and the
    reconcile check. */
module Services {
  import opened Domain
  import opened Stock
  import opened Orders
  import opened Protocol
  import opened ApiInvariants
  import opened RowInvariants
  import opened ConsumerInvariants
  import opened Invariants
  import opened Accounting
  import opened Backend

  function Answered(o: Outcome): Output {
    Output(o, NoToken, 0)
  }

  /** What an answer of Seckill promises about request i in state s. */
  ghost predicate Promise(cfg: Config, s: Sys, i: nat, out: Output)
    requires Shape(cfg, s) && i < |s.reqs|
  {
    var r := s.reqs[i];
    match out.outcome
    case Queued =>
      && r.left == Some(out.remaining) && r.qtok == Some(out.token) && r.order.Some?
      && (if cfg.kafka then InLog(cfg, s, r) else r.order.value in Home(s.dbs, r.user))
    case Duplicate => !cfg.kafka && r.left.Some? && r.order.Some? && HasKey(Home(s.dbs, r.user), r.order.value)
    case Internal => true
    case _ => NothingYet(r)
  }

  lemma AnswerIsPromise(cfg: Config, tr: seq<Step>, i: nat, out: Output)
    requires ValidConfig(cfg) && i < |Reach(cfg, tr).reqs| && Reach(cfg, tr).reqs[i].pc == Done(out)
    ensures Promise(cfg, Reach(cfg, tr), i, out)
  {
    Always(cfg, tr);
    var s := Reach(cfg, tr);
    assert ReqOk(cfg, s.acts, s.reqs[i]) && AnswerOk(cfg, s.reqs[i], s.log, s.dbs);
  }

  /** A Seckill call with the clock readings its order and its message carry. */
  datatype Call = Call(act: int, user: int, token: string, now: int, at: int)

  predicate IsCall(r: Req, c: Call) {
    && r.act == c.act && r.user == c.user && r.token == c.token
    && (r.order.Some? ==> r.order.value.createdAt == c.now)
    && (r.msg.Some? ==> r.msg.value.producedAt == c.at)
  }

  /** A step that was recorded between two moments. */
  predicate Since(was: seq<Step>, now: seq<Step>, st: Step) {
    was <= now && st in now[|was|..]
  }

  lemma SinceGrows(was: seq<Step>, from: seq<Step>, to: seq<Step>, now: seq<Step>, st: Step)
    requires was <= from && Since(from, to, st) && to <= now
    ensures Since(was, now, st)
  {
    var k :| 0 <= k < |to| - |from| && to[|from|..][k] == st;
    assert now[|was|..][|from| - |was| + k] == st;
  }

  /** The answer to a failed deduct. */
  function RefusalFor(e: StockError): Outcome {
    match e
    case StockNotEnough => SoldOut
    case UserLimitExceeded => UserLimit
    case StockNotWarmed => NotWarmed
    case _ => Internal
  }

  /** The script's code and the error the service sees say the same. */
  lemma Verdict(r: Req, v: int, link: Link)
    requires r.pc.Checked?
    ensures var answer := if link != Fine then Err(StoreDown) else Decode(v);
            AfterCall(r, v, link).pc == if answer.Ok? then Deducted(r.pc.a, r.pc.now, answer.value)
                                        else Refuse(RefusalFor(answer.error))
  {
  }

  /** What becomes of the remote calls of one request: the activity read, the script, the SET of
      the queue token, and the publish or insert. */
  datatype Net = Net(db: Link, stock: Link, mark: Link, order: Link)

  /** The one answer that the activity read, the clock, the keys in Redis at the moment of the
      script and the fate of the calls allow. Only a synchronous insert leaves a choice, by its
      own clash. */
  predicate Judged(kafka: bool, c: Call, net: Net, found: Result<Activity, FetchError>, redis: Redis, out: Output) {
    if found == Err(ActivityNotFound) then out.outcome == NotFound
    else if found.Err? then out.outcome == Internal
    else if c.now < found.value.startAt then out.outcome == NotStarted
    else if c.now >= found.value.endAt then out.outcome == Ended
    else if net.stock != Fine then out.outcome == Internal
    else Granted(kafka, c, net, found.value.perUserLimit, redis, out)
  }

  predicate Granted(kafka: bool, c: Call, net: Net, limit: int, redis: Redis, out: Output) {
    if c.act !in redis.stock then out.outcome == NotWarmed
    else if redis.stock[c.act] < 1 then out.outcome == SoldOut
    else if Bought(redis, c.act, c.user) + 1 > limit then out.outcome == UserLimit
    else if net.order != Fine then out.outcome == Internal
    else if out.outcome == Duplicate then !kafka
    else out.outcome == Queued && out.remaining == redis.stock[c.act] - 1
  }

  /** An internal error says that a call of this request did not answer: the activity read, or
      inside the window the script, or after a granted decrement the order. */
  lemma InternalIff(kafka: bool, c: Call, net: Net, found: Result<Activity, FetchError>, redis: Redis, out: Output)
    requires Judged(kafka, c, net, found, redis, out) && (found == Err(ActivityDbDown) <==> net.db != Fine)
    ensures out.outcome == Internal <==>
            || net.db != Fine
            || (found.Ok? && Open(found.value, c.now)
                && (net.stock != Fine
                    || (net.order != Fine && Script(redis, c.act, c.user, 1, found.value.perUserLimit).1 >= 0)))
  {
    match found {
      case Ok(a) => ScriptContract(redis, c.act, c.user, 1, a.perUserLimit);
      case Err(ActivityNotFound) =>
      case Err(ActivityDbDown) =>
    }
  }

  /** The token is the UUID that was minted and marked, or the printed order id when marking it
      failed. */
  ghost predicate TokenOf(r: Req, i: nat, at: int, link: Link, was: seq<Step>, now: seq<Step>) {
    r.order.Some? &&
    exists x :: Since(was, now, Mint(i, r.order.value.id, x, at, link))
                && r.qtok == Some(if link == Fine then Uuid(x) else OrderNo(r.order.value.id))
  }

  lemma TokenStays(r: Req, r': Req, i: nat, at: int, link: Link, was: seq<Step>, now: seq<Step>, later: seq<Step>)
    requires TokenOf(r, i, at, link, was, now) && now <= later && r'.order == r.order && r'.qtok == r.qtok
    ensures TokenOf(r', i, at, link, was, later)
  {
    var x :| Since(was, now, Mint(i, r.order.value.id, x, at, link))
             && r.qtok == Some(if link == Fine then Uuid(x) else OrderNo(r.order.value.id));
    SinceGrows(was, was, now, later, Mint(i, r.order.value.id, x, at, link));
  }

  lemma TokenSince(r: Req, i: nat, at: int, link: Link, before: seq<Step>, was: seq<Step>, now: seq<Step>)
    requires TokenOf(r, i, at, link, was, now) && before <= was
    ensures TokenOf(r, i, at, link, before, now)
  {
    var x :| Since(was, now, Mint(i, r.order.value.id, x, at, link))
             && r.qtok == Some(if link == Fine then Uuid(x) else OrderNo(r.order.value.id));
    SinceGrows(before, was, now, now, Mint(i, r.order.value.id, x, at, link));
  }

  /** The publish, or the insert, took effect. */
  ghost predicate Reached(cfg: Config, s: Sys, r: Req)
    requires Shape(cfg, s)
  {
    if cfg.kafka then InLog(cfg, s, r) else r.order.Some? && HasKey(Home(s.dbs, r.user), r.order.value)
  }

  /** An insert that takes effect leaves the key behind, its own or an earlier one. */
  lemma InsertLeavesKey(b: Stores, i: nat)
    requires b.Valid() && !b.cfg.kafka && i < |b.reqs| && b.reqs[i].order.Some?
    ensures var o := b.reqs[i].order.value;
            o.userId == b.reqs[i].user && HasKey(Home(Create(b.dbs, o), o.userId), o)
  {
    b.Known();
    Always(b.cfg, b.trace);
    var o := b.reqs[i].order.value;
    assert ReqOk(b.cfg, b.acts, b.reqs[i]);
    if Clashes(Home(b.dbs, o.userId), o) {
      ClashIsKeyClash(b.cfg, b.Abs(), i);
    } else {
      HasKeyAppend(Home(b.dbs, o.userId), o);
    }
  }

  lemma PromiseKept(b: Stores, i: nat, out: Output)
    requires b.Valid() && i < |b.reqs| && b.reqs[i].pc == Done(out)
    ensures Promise(b.cfg, b.Abs(), i, out)
  {
    b.Known();
    AnswerIsPromise(b.cfg, b.trace, i, out);
  }

  /** What a request that got as far as an order has done between two moments: its token is the
      one TokenOf describes, and its message or its key is there if the call took effect. */
  ghost predicate Placed(cfg: Config, s: Sys, now: seq<Step>, was: seq<Step>, i: nat, c: Call, net: Net)
    requires Shape(cfg, s)
  {
    was <= now && i < |s.reqs| &&
    (s.reqs[i].order.Some? ==>
       TokenOf(s.reqs[i], i, c.at, net.mark, was, now) && (net.order != Unreached ==> Reached(cfg, s, s.reqs[i])))
  }

  lemma PlacedSince(cfg: Config, s: Sys, now: seq<Step>, before: seq<Step>, was: seq<Step>, i: nat, c: Call, net: Net)
    requires Shape(cfg, s) && Placed(cfg, s, now, was, i, c, net) && before <= was
    ensures Placed(cfg, s, now, before, i, c, net)
  {
    if s.reqs[i].order.Some? {
      TokenSince(s.reqs[i], i, c.at, net.mark, before, was, now);
    }
  }

  /** The steps of a request that its answer rests on: the activity read with its fate, the
      script inside the window, and the order. */
  ghost predicate Traced(cfg: Config, s: Sys, now: seq<Step>, was: seq<Step>, at: seq<Step>, i: nat, c: Call, net: Net,
                         found: Result<Activity, FetchError>)
    requires Shape(cfg, s)
  {
    && Since(was, now, LookUp(i, c.now, net.db == Fine))
    && (found.Ok? && Open(found.value, c.now) ==> at + [Deduct(i, net.stock)] <= now)
    && Placed(cfg, s, now, was, i, c, net)
  }

  lemma TracedSince(cfg: Config, s: Sys, now: seq<Step>, before: seq<Step>, was: seq<Step>, at: seq<Step>, i: nat,
                    c: Call, net: Net, found: Result<Activity, FetchError>)
    requires Shape(cfg, s) && Traced(cfg, s, now, was, at, i, c, net, found) && before <= was
    ensures Traced(cfg, s, now, before, at, i, c, net, found)
  {
    SinceGrows(before, was, now, now, LookUp(i, c.now, net.db == Fine));
    PlacedSince(cfg, s, now, before, was, i, c, net);
  }

  class SeckillService {
    const b: Stores

    constructor (b: Stores)
      ensures this.b == b
    {
      this.b := b;
    }

    /** Order of effects: activity, window, decrement, token, order. Whatever runs in between,
        the answer is the one on record and the only one possible: `found` is what the activity
        read returned, and `at` the schedule up to the script (up to the end if it is not
        called). It is an internal error exactly when a call of this request did not answer. */
    method Seckill(c: Call, net: Net)
      returns (out: Output, ghost i: nat, ghost found: Result<Activity, FetchError>, ghost at: seq<Step>,
               ghost s0: Sys)
      requires b.Valid()
      modifies b
      ensures b.Valid() && old(b.trace) <= at <= b.trace && Reaches(b.cfg, at, s0)
      ensures i == |old(b.reqs)| < |b.reqs| && IsCall(b.reqs[i], c)
      ensures b.reqs[i].pc == Done(out) && Promise(b.cfg, b.Abs(), i, out)
      ensures found.Ok? ==> c.act in b.acts && b.acts[c.act] == found.value
      ensures found == Err(ActivityNotFound) ==> c.act !in old(b.acts)
      ensures found == Err(ActivityDbDown) <==> net.db != Fine
      ensures Judged(b.cfg.kafka, c, net, found, s0.redis, out)
      ensures net.db == Fine && net.stock == Fine && net.order == Fine ==> out.outcome != Internal
      ensures Traced(b.cfg, b.Abs(), b.trace, old(b.trace), at, i, c, net, found)
    {
      ghost var was := b.trace;
      i := b.Arrives(c.act, c.user, c.token);
      ghost var here := b.trace;
      out, found, at, s0 := Decide(i, c, net);
      InternalIff(b.cfg.kafka, c, net, found, s0.redis, out);
      PromiseKept(b, i, out);
      TracedSince(b.cfg, b.Abs(), b.trace, was, here, at, i, c, net, found);
    }

    method Decide(ghost i: nat, c: Call, net: Net)
      returns (out: Output, ghost found: Result<Activity, FetchError>, ghost at: seq<Step>,
               ghost s0: Sys)
      requires b.Valid() && i < |b.reqs| && b.reqs[i] == Req(c.act, c.user, c.token, Arrived, None, None, None, None)
      modifies b
      ensures b.Valid() && old(b.trace) <= at <= b.trace && Reaches(b.cfg, at, s0)
      ensures i < |b.reqs| && b.reqs[i].pc == Done(out) && IsCall(b.reqs[i], c)
      ensures found.Ok? ==> c.act in b.acts && b.acts[c.act] == found.value
      ensures found == Err(ActivityNotFound) ==> c.act !in old(b.acts)
      ensures found == Err(ActivityDbDown) <==> net.db != Fine
      ensures Judged(b.cfg.kafka, c, net, found, s0.redis, out)
      ensures Traced(b.cfg, b.Abs(), b.trace, old(b.trace), at, i, c, net, found)
    {
      ghost var was := b.trace;
      var r := Fetch(i, c.act, c.now, net.db);
      found, at, s0 := r, b.trace, b.Abs();
      if r == Err(ActivityNotFound) {
        out := Answered(NotFound);
      } else if r.Err? {
        out := Answered(Internal);
      } else if c.now < r.value.startAt {
        out := Answered(NotStarted);
      } else if !(c.now < r.value.endAt) {
        out := Answered(Ended);
      } else {
        ghost var looked, s := b.trace, b.Abs();
        out, at, s0 := Buy(i, r.value, c, net);
        KeptSince(b.cfg, looked, s, b.trace, b.Abs());
        SinceGrows(was, was, looked, b.trace, LookUp(i, c.now, true));
        PlacedSince(b.cfg, b.Abs(), b.trace, was, looked, i, c, net);
      }
    }

    /** Inside the window. */
    method Buy(ghost i: nat, a: Activity, c: Call, net: Net)
      returns (out: Output, ghost at: seq<Step>, ghost s0: Sys)
      requires b.Valid() && i < |b.reqs| && b.reqs[i].pc == Checked(a, c.now)
      requires b.reqs[i].order.None? && b.reqs[i].msg.None? && IsCall(b.reqs[i], c)
      modifies b
      ensures b.Valid() && old(b.trace) <= at && at + [Deduct(i, net.stock)] <= b.trace && Reaches(b.cfg, at, s0)
      ensures if net.stock != Fine then out.outcome == Internal
              else Granted(b.cfg.kafka, c, net, a.perUserLimit, s0.redis, out)
      ensures i < |b.reqs| && b.reqs[i].pc == Done(out) && IsCall(b.reqs[i], c)
      ensures Placed(b.cfg, b.Abs(), b.trace, old(b.trace), i, c, net)
    {
      ghost var was := b.trace;
      var r;
      r, at, s0 := Reserve(i, a, c, net.stock);
      ScriptContract(s0.redis, c.act, c.user, 1, a.perUserLimit);
      match r {
        case Err(StockNotEnough) => out := Answered(SoldOut);
        case Err(UserLimitExceeded) => out := Answered(UserLimit);
        case Err(StockNotWarmed) => out := Answered(NotWarmed);
        case Err(_) => out := Answered(Internal);
        case Ok(remaining) =>
          ghost var looked := b.trace;
          out := PlaceOrder(i, a, c, net, remaining);
          PlacedSince(b.cfg, b.Abs(), b.trace, was, looked, i, c, net);
      }
    }

    method Fetch(ghost i: nat, act: int, now: int, link: Link) returns (r: Result<Activity, FetchError>)
      requires b.Valid() && i < |b.reqs| && b.reqs[i].pc == Arrived && b.reqs[i].act == act
      modifies b
      ensures b.Valid() && Since(old(b.trace), b.trace, LookUp(i, now, link == Fine))
      ensures r.Ok? ==> act in b.acts && b.acts[act] == r.value
      ensures r == Err(ActivityNotFound) ==> act !in old(b.acts)
      ensures r == Err(ActivityDbDown) <==> link != Fine
      ensures i < |b.reqs| && b.reqs[i] == old(b.reqs)[i].(pc :=
                if r == Err(ActivityNotFound) then Refuse(NotFound)
                else if r.Err? then Refuse(Internal)
                else if now < r.value.startAt then Refuse(NotStarted)
                else if !(now < r.value.endAt) then Refuse(Ended)
                else Checked(r.value, now))
    {
      b.TurnOf(i);
      r := b.GetActivity(i, act, now, link == Fine);
      assert b.trace[|b.trace| - 1] == LookUp(i, now, link == Fine);
    }

    method Reserve(ghost i: nat, a: Activity, c: Call, link: Link)
      returns (r: Result<int, StockError>, ghost at: seq<Step>, ghost s0: Sys)
      requires b.Valid() && i < |b.reqs| && b.reqs[i].pc == Checked(a, c.now)
      requires b.reqs[i].order.None? && b.reqs[i].msg.None? && IsCall(b.reqs[i], c)
      modifies b
      ensures b.Valid() && old(b.trace) <= at && b.trace == at + [Deduct(i, link)] && Reaches(b.cfg, at, s0)
      ensures r == if link != Fine then Err(StoreDown)
                   else Decode(Script(s0.redis, c.act, c.user, 1, a.perUserLimit).1)
      ensures i < |b.reqs| && b.reqs[i].order.None? && b.reqs[i].msg.None? && IsCall(b.reqs[i], c)
      ensures b.reqs[i].pc == if r.Ok? then Deducted(a, c.now, r.value) else Refuse(RefusalFor(r.error))
    {
      b.TurnOf(i);
      at, s0 := b.trace, b.Abs();
      Verdict(b.reqs[i], Script(b.redis, c.act, c.user, 1, a.perUserLimit).1, link);
      r := b.DeductForUser(i, c.act, c.user, 1, a.perUserLimit, link);
    }

    /** After a successful decrement: id, token, order. */
    method PlaceOrder(ghost i: nat, a: Activity, c: Call, net: Net, remaining: int) returns (out: Output)
      requires b.Valid() && i < |b.reqs| && b.reqs[i].pc == Deducted(a, c.now, remaining) && IsCall(b.reqs[i], c)
      modifies b
      ensures b.Valid() && old(b.trace) <= b.trace
      ensures i < |b.reqs| && b.reqs[i].pc == Done(out) && IsCall(b.reqs[i], c)
      ensures out.outcome == Internal <==> net.order != Fine
      ensures out.outcome in {Internal, Queued} || (!b.cfg.kafka && out.outcome == Duplicate)
      ensures b.reqs[i].order.Some? && b.reqs[i].order.value.productId == a.productId
      ensures out.outcome == Queued ==> b.reqs[i].qtok == Some(out.token) && out.remaining == remaining
      ensures Placed(b.cfg, b.Abs(), b.trace, old(b.trace), i, c, net)
    {
      ghost var was := b.trace;
      var id, minted := MintToken(i, c.at, net.mark);
      ghost var r, marked := b.reqs[i], b.trace;
      var o := Order(id, c.user, c.act, a.productId, StatusQueued, c.token, c.now);
      var queueToken := if minted.Some? then minted.value else OrderNo(id);
      if b.cfg.kafka {
        var ok := SendOrder(i, o, queueToken, c.at, net.order);
        out := if ok then Output(Queued, queueToken, remaining) else Answered(Internal);
      } else {
        out := CreateSync(i, o, queueToken, remaining, net.order);
      }
      TokenStays(r, b.reqs[i], i, c.at, net.mark, was, marked, b.trace);
    }

    method MintToken(ghost i: nat, ghost at: int, link: Link) returns (id: int, t: Option<QueueToken>)
      requires b.Valid() && i < |b.reqs| && b.reqs[i].pc.Deducted?
      modifies b
      ensures b.Valid() && i < |b.reqs| && TokenOf(b.reqs[i], i, at, link, old(b.trace), b.trace)
      ensures t.Some? <==> link == Fine
      ensures var r := old(b.reqs)[i];
              var q := if t.Some? then t.value else OrderNo(id);
              var o := Order(id, r.user, r.act, r.pc.a.productId, StatusQueued, r.token, r.pc.now);
              b.reqs[i] == r.(pc := Minted(r.pc.remaining), order := Some(o), qtok := Some(q),
                              msg := if b.cfg.kafka then Some(MessageOf(o, q, at)) else None)
    {
      b.TurnOf(i);
      id := b.NextId();
      var minted, x := b.NewToken(i, id, at, link);
      assert b.trace[|b.trace| - 1] == Mint(i, id, x, at, link);
      assert Since(old(b.trace), b.trace, Mint(i, id, x, at, link));
      t := minted;
    }

    method CreateSync(ghost i: nat, o: Order, queueToken: QueueToken, remaining: int, link: Link)
      returns (out: Output)
      requires b.Valid() && !b.cfg.kafka && i < |b.reqs| && b.reqs[i].pc == Minted(remaining)
      requires b.reqs[i].order == Some(o) && b.reqs[i].qtok == Some(queueToken)
      modifies b
      ensures b.Valid() && old(b.trace) <= b.trace && i < |b.reqs|
      ensures b.reqs[i] == old(b.reqs)[i].(pc := Done(out))
      ensures out in {Answered(Internal), Answered(Duplicate), Output(Queued, queueToken, remaining)}
      ensures out.outcome == Internal <==> link != Fine
      ensures link != Unreached ==> Reached(b.cfg, b.Abs(), b.reqs[i])
    {
      b.TurnOf(i);
      InsertLeavesKey(b, i);
      var r := b.CreateOrder(i, o, link);
      out := if r == Err(OrderDuplicate) then Answered(Duplicate)
             else if r.Err? then Answered(Internal)
             else Output(Queued, queueToken, remaining);
    }

    /** Publish: the append may happen although the caller sees an error. */
    method SendOrder(ghost i: nat, o: Order, queueToken: QueueToken, at: int, link: Link) returns (ok: bool)
      requires b.Valid() && b.cfg.kafka && i < |b.reqs| && b.reqs[i].pc.Minted?
      requires b.reqs[i].msg == Some(MessageOf(o, queueToken, at)) && b.reqs[i].qtok == Some(queueToken)
      modifies b
      ensures b.Valid() && old(b.trace) <= b.trace && (ok <==> link == Fine)
      ensures i < |b.reqs| && b.reqs[i] == Finish(old(b.reqs)[i], if link == Fine then Queued else Internal)
      ensures link != Unreached ==> Reached(b.cfg, b.Abs(), b.reqs[i])
    {
      var m := OrderMessage(o.id, o.activityId, o.userId, o.productId, o.token, queueToken, at);
      ok := Write(i, m, link);
      b.Answers(i, ok);
    }

    method Write(ghost i: nat, m: OrderMessage, link: Link) returns (ok: bool)
      requires b.Valid() && b.cfg.kafka && i < |b.reqs| && b.reqs[i].msg == Some(m)
      modifies b
      ensures b.Valid() && old(b.trace) <= b.trace && (ok <==> link == Fine)
      ensures i < |b.reqs| && b.reqs[i] == old(b.reqs)[i]
      ensures |b.log| == b.cfg.parts && (link != Unreached ==> Message(m) in b.log[b.cfg.part(m.userId)])
    {
      b.TurnOf(i);
      if link != Unreached {
        b.AppendMessage(i, m);
      }
      ok := link == Fine;
      ghost var was := b.log;
      b.TurnOf(i);
      if link != Unreached {
        EntryStays(was, b.log, b.cfg.part(m.userId), Message(m));
      }
    }
  }

  lemma EntryStays(log: seq<seq<Entry>>, log': seq<seq<Entry>>, p: nat, e: Entry)
    requires LogGrows(log, log') && p < |log| && |log[p]| > 0 && log[p][|log[p]| - 1] == e
    ensures e in log'[p]
  {
    assert log[p] <= log'[p];
    assert log'[p][|log[p]| - 1] == e;
  }

  // ---------- Consumer side ----------

  /** What one handler call meets: whether the breaker is open, what becomes of its insert and
      of its token write, and the text of the error it returns if it fails. */
  datatype Try = Try(open: bool, insert: Link, confirm: Link, error: string)

  /** The handler call succeeds. */
  predicate Works(breaker: bool, t: Try) {
    !(breaker && t.open) && t.insert == Fine && t.confirm == Fine
  }

  /** The fate of the insert behind the breaker. */
  function InsertLink(breaker: bool, t: Try): Link {
    if breaker && t.open then Unreached else t.insert
  }

  class OrderMaterializer {
    const b: Stores
    const breaker: bool

    constructor (b: Stores, breaker: bool)
      ensures this.b == b && this.breaker == breaker
    {
      this.b, this.breaker := b, breaker;
    }

    /** The reader of p is at message m. */
    ghost predicate At(p: nat, m: OrderMessage)
      reads b
    {
      b.Valid() && p < b.cfg.parts && b.pos[p] < |b.log[p]| && b.log[p][b.pos[p]] == Message(m)
    }

    /** One handler call. It succeeds exactly when the breaker let the insert through and both
        calls answered; then the row's key is stored, by this call or an earlier one, and the
        token reads success with this message's id. An insert that took effect is there even if
        the call fails; the delivery is then one attempt further. */
    method Handle(p: nat, m: OrderMessage, t: Try) returns (err: Option<string>)
      requires At(p, m) && b.stage[p].Attempt?
      modifies b
      ensures At(p, m) && old(b.trace) <= b.trace && b.pos[p] == old(b.pos)[p] && b.committed[p] == old(b.committed)[p]
      ensures err == if Works(breaker, t) then None else Some(t.error)
      ensures InsertLink(breaker, t) != Unreached ==> KeyStored(b.dbs, m)
      ensures InsertLink(breaker, t) == Fine && t.confirm != Unreached ==>
                m.queueToken in b.queue && b.queue[m.queueToken] == Success(m.orderId)
      ensures b.stage[p] == if err.None? then Committing else Retry(b.cfg, old(b.stage)[p].k)
    {
      var created := Insert(p, m, t);
      if created.Err? && created.error != OrderDuplicate {
        return Some(t.error);
      }
      var ok := Confirm(p, m, t.confirm);
      err := if ok then None else Some(t.error);
    }

    /** The insert behind the optional breaker, which either refuses without calling it or
        passes its result on. */
    method Insert(p: nat, m: OrderMessage, t: Try) returns (r: Result<(), RepoError>)
      requires At(p, m) && b.stage[p].Attempt?
      modifies b
      ensures At(p, m) && b.pos[p] == old(b.pos)[p] && b.committed[p] == old(b.committed)[p]
      ensures Since(old(b.trace), b.trace, TryInsert(p, InsertLink(breaker, t)))
      ensures r.Ok? || r.error == OrderDuplicate <==> InsertLink(breaker, t) == Fine
      ensures b.stage[p] == if InsertLink(breaker, t) == Fine then Stored(old(b.stage)[p].k)
                            else Retry(b.cfg, old(b.stage)[p].k)
      ensures InsertLink(breaker, t) != Unreached ==> KeyStored(b.dbs, m)
    {
      var o := Order(m.orderId, m.userId, m.activityId, m.productId, StatusQueued, m.token, m.producedAt);
      b.TurnAt(p);
      InsertStoresKey(b, p);
      r := b.InsertRow(p, o, if breaker && t.open then Unreached else t.insert);
      assert b.trace[|b.trace| - 1] == TryInsert(p, InsertLink(breaker, t));
    }

    /** SET queue:{token} success:{id}. */
    method Confirm(p: nat, m: OrderMessage, link: Link) returns (ok: bool)
      requires At(p, m) && b.stage[p].Stored?
      modifies b
      ensures At(p, m) && b.pos[p] == old(b.pos)[p] && b.committed[p] == old(b.committed)[p]
      ensures Since(old(b.trace), b.trace, PutSuccess(p, link)) && (ok <==> link == Fine)
      ensures KeyStored(b.dbs, m)
      ensures link != Unreached ==> m.queueToken in b.queue && b.queue[m.queueToken] == Success(m.orderId)
      ensures b.stage[p] == if ok then Committing else Retry(b.cfg, old(b.stage)[p].k)
    {
      b.TurnAt(p);
      StoredHere(b, p, m);
      ok := b.SetSuccess(p, m, link);
      assert b.trace[|b.trace| - 1] == PutSuccess(p, link);
    }
  }

  lemma PartHere(b: Stores, p: nat)
    requires b.Valid() && p < b.cfg.parts
    ensures PartOk(b.cfg, b.log, b.dbs, b.dead, p, b.committed[p], b.pos[p], b.stage[p])
  {
    b.Known();
    Always(b.cfg, b.trace);
  }

  lemma StoredHere(b: Stores, p: nat, m: OrderMessage)
    requires b.Valid() && p < b.cfg.parts && b.pos[p] < |b.log[p]| && b.log[p][b.pos[p]] == Message(m)
    requires b.stage[p].Stored?
    ensures KeyStored(b.dbs, m)
  {
    PartHere(b, p);
  }

  lemma InsertStoresKey(b: Stores, p: nat)
    requires b.Valid() && p < b.cfg.parts && AtMessage(b.Abs(), p)
    ensures var m := b.log[p][b.pos[p]].m; KeyStored(Create(b.dbs, OrderOf(m)), m)
  {
    b.Known();
    Always(b.cfg, b.trace);
    AnsweredMeansStored(b.cfg, b.Abs(), p);
  }

  /** What one pass of the loop meets: whether FetchMessage fails, the text of the decoding
      error, the handler calls, and the calls of the callback and of the commit. */
  datatype Round = Round(
    fault: bool, decodeError: string, tries: seq<Try>, mark: Link, send: Link, commit: Link)

  /** Some handler call of the pass succeeds. */
  predicate Succeeds(breaker: bool, tries: seq<Try>) {
    exists k :: 0 <= k < |tries| && Works(breaker, tries[k])
  }

  /** The error the callback is given. */
  function Reason(e: Entry, round: Round): string
    requires round.tries != []
  {
    if e.Message? then round.tries[|round.tries| - 1].error else round.decodeError
  }

  /** What the entry decodes to, or what a failed decode left, is in the topic if it names an
      order. */
  predicate InTopic(e: Entry, topic: seq<OrderMessage>) {
    match e
    case Message(m) => m.orderId != 0 ==> m in topic
    case Undecodable(partial) => partial.orderId != 0 ==> partial in topic
  }

  lemma HandedGrows(dead: set<DeadLetter>, dead': set<DeadLetter>, p: nat, off: nat)
    requires dead <= dead' && Handed(dead, p, off)
    ensures Handed(dead', p, off)
  {
    var f :| DeadLetter(p, off, f) in dead;
    assert DeadLetter(p, off, f) in dead';
  }

  /** What has become of entry e at offset off: its key is stored if a handler call succeeded,
      else the callback was called, and the entry is in the topic if the send took effect. */
  ghost predicate Fate(s: Sys, p: nat, off: nat, e: Entry, breaker: bool, round: Round)
    requires ShardCount(|s.dbs|)
  {
    if e.Message? && Succeeds(breaker, round.tries) then KeyStored(s.dbs, e.m)
    else Handed(s.dead, p, off)
         && (round.send != Unreached ==> InTopic(e, s.dlqTopic))
  }

  lemma FateStays(cfg: Config, from: seq<Step>, s: Sys, to: seq<Step>, s': Sys,
                  p: nat, off: nat, e: Entry, breaker: bool, round: Round)
    requires ValidConfig(cfg) && from <= to && Reaches(cfg, from, s) && Reaches(cfg, to, s')
    requires Fate(s, p, off, e, breaker, round)
    ensures Fate(s', p, off, e, breaker, round)
  {
    KeptSince(cfg, from, s, to, s');
    if e.Message? && Succeeds(breaker, round.tries) {
      StoredGrows(s.dbs, s'.dbs, e.m);
    } else {
      HandedGrows(s.dead, s'.dead, p, off);
    }
  }

  /** The passes that found an entry. */
  ghost function Found(met: seq<Option<Entry>>): seq<Entry> {
    if met == [] then []
    else Found(met[..|met| - 1]) + (if met[|met| - 1].Some? then [met[|met| - 1].value] else [])
  }

  /** A pass that ends the loop. */
  predicate Stops(round: Round, e: Option<Entry>) {
    round.fault || (e.Some? && e.value.Message? && round.commit != Fine)
  }

  /** The entries met are those of the log from the start on. */
  ghost predicate MovedOver(s: Sys, p: nat, start: nat, met: seq<Option<Entry>>) {
    p < |s.log| && start + |Found(met)| <= |s.log[p]| && Found(met) == s.log[p][start..start + |Found(met)|]
  }

  lemma MoveOver(s: Sys, s': Sys, p: nat, start: nat, met: seq<Option<Entry>>, e: Option<Entry>)
    requires MovedOver(s, p, start, met) && LogGrows(s.log, s'.log)
    requires e.Some? ==> var n := start + |Found(met)|; n < |s'.log[p]| && s'.log[p][n] == e.value
    ensures MovedOver(s', p, start, met + [e])
    ensures |Found(met + [e])| == |Found(met)| + if e.Some? then 1 else 0
  {
    assert (met + [e])[..|met|] == met;
    assert s.log[p] <= s'.log[p];
  }

  /** Every decodable entry between two offsets has its key stored. */
  ghost predicate StoredFrom(s: Sys, p: nat, start: nat, end: nat)
    requires ShardCount(|s.dbs|) && p < |s.log|
  {
    end <= |s.log[p]|
    && forall off :: start <= off < end && s.log[p][off].Message? ==> KeyStored(s.dbs, s.log[p][off].m)
  }

  lemma StoredFromStays(s: Sys, s': Sys, p: nat, start: nat, end: nat)
    requires ShardCount(|s.dbs|) && p < |s.log| && LogGrows(s.log, s'.log) && TablesGrow(s.dbs, s'.dbs)
    ensures StoredFrom(s, p, start, end) ==> StoredFrom(s', p, start, end)
  {
    if StoredFrom(s, p, start, end) {
      assert s.log[p] <= s'.log[p];
      forall off | start <= off < end && s'.log[p][off].Message? ensures KeyStored(s'.dbs, s'.log[p][off].m) {
        StoredGrows(s.dbs, s'.dbs, s.log[p][off].m);
      }
    }
  }

  /** No pass of `met` ends the loop. */
  predicate GoesOn(rounds: seq<Round>, met: seq<Option<Entry>>)
    requires |met| <= |rounds|
  {
    met == [] || (GoesOn(rounds, met[..|met| - 1]) && !Stops(rounds[|met| - 1], met[|met| - 1]))
  }

  /** In each of the first n passes some handler call succeeds. */
  predicate AllSucceed(breaker: bool, rounds: seq<Round>, n: nat)
    requires n <= |rounds|
  {
    n == 0 || (AllSucceed(breaker, rounds, n - 1) && Succeeds(breaker, rounds[n - 1].tries))
  }

  /** Where the loop stands after the passes of `met`, with so many entries there at its start. */
  ghost predicate Passed(s: Sys, p: nat, start: nat, entries: nat, rounds: seq<Round>, met: seq<Option<Entry>>,
                         breaker: bool, err: bool)
    requires ShardCount(|s.dbs|) && p < |s.log| && p < |s.pos| && |met| <= |rounds|
  {
    && entries <= |s.log[p]| && MovedOver(s, p, start, met)
    && (err <==> !GoesOn(rounds, met)) && (met != [] ==> GoesOn(rounds, met[..|met| - 1]))
    && (!err ==> s.pos[p] == start + |Found(met)| && |Found(met)| >= Min(|met|, entries - start))
    && (!err && AllSucceed(breaker, rounds, |met|) ==> StoredFrom(s, p, start, s.pos[p]))
  }

  /** What one pass does: it meets the entry at the position, if any, and unless it ends the loop
      it moves over it; what it meets is stored if a handler call succeeds. */
  ghost predicate OnePass(s: Sys, s': Sys, p: nat, round: Round, e: Option<Entry>, breaker: bool)
    requires ShardCount(|s.dbs|)
  {
    && TablesGrow(s.dbs, s'.dbs) && LogGrows(s.log, s'.log)
    && p < |s.log| && p < |s.pos| && p < |s'.pos|
    && (e.Some? ==> s.pos[p] < |s'.log[p]| && s'.log[p][s.pos[p]] == e.value)
    && (!Stops(round, e) ==> s'.pos[p] == s.pos[p] + if e.Some? then 1 else 0)
    && (!Stops(round, e) && e.None? ==> |s.log[p]| <= s.pos[p])
    && (e.Some? && e.value.Message? && Succeeds(breaker, round.tries) ==> KeyStored(s'.dbs, e.value.m))
  }

  lemma PassedOne(s: Sys, s': Sys, p: nat, start: nat, entries: nat, rounds: seq<Round>, met: seq<Option<Entry>>,
                  e: Option<Entry>, breaker: bool)
    requires ShardCount(|s.dbs|) && |met| < |rounds| && OnePass(s, s', p, rounds[|met|], e, breaker)
    requires Passed(s, p, start, entries, rounds, met, breaker, false)
    ensures Passed(s', p, start, entries, rounds, met + [e], breaker, Stops(rounds[|met|], e))
    ensures |Found(met + [e])| == |Found(met)| + if e.Some? then 1 else 0
  {
    MoveOver(s, s', p, start, met, e);
    assert (met + [e])[..|met|] == met;
    if !Stops(rounds[|met|], e) && AllSucceed(breaker, rounds, |met| + 1) {
      StoredOne(s, s', p, start, e);
    }
  }

  lemma StoredOne(s: Sys, s': Sys, p: nat, start: nat, e: Option<Entry>)
    requires ShardCount(|s.dbs|) && TablesGrow(s.dbs, s'.dbs) && LogGrows(s.log, s'.log)
    requires p < |s.log| && p < |s.pos| && StoredFrom(s, p, start, s.pos[p])
    requires e.Some? ==> s.pos[p] < |s'.log[p]| && s'.log[p][s.pos[p]] == e.value
    requires e.Some? && e.value.Message? ==> KeyStored(s'.dbs, e.value.m)
    ensures StoredFrom(s', p, start, s.pos[p] + if e.Some? then 1 else 0)
  {
    StoredFromStays(s, s', p, start, s.pos[p]);
  }

  class Consumer {
    const b: Stores
    const mat: OrderMaterializer
    const p: nat

    constructor (b: Stores, mat: OrderMaterializer, p: nat)
      requires mat.b == b
      ensures this.b == b && this.mat == mat && this.p == p
    {
      this.b, this.mat, this.p := b, mat, p;
    }

    ghost predicate Facing(e: Entry)
      reads b
    {
      b.Valid() && p < b.cfg.parts && b.pos[p] < |b.log[p]| && b.log[p][b.pos[p]] == e
    }

    /** The retry loop: at most maxRetries + 1 handler calls. It reports an error exactly when
        all of them failed, and then the last one's. */
    method Deliver(m: OrderMessage, tries: seq<Try>) returns (err: Option<string>)
      requires mat.b == b && Facing(Message(m)) && b.stage[p] == Attempt(0)
      requires |tries| == b.cfg.maxRetries + 1
      modifies b
      ensures Facing(Message(m)) && old(b.trace) <= b.trace
      ensures b.pos[p] == old(b.pos)[p] && b.committed[p] == old(b.committed)[p]
      ensures err.None? <==> Succeeds(mat.breaker, tries)
      ensures err.None? ==> b.stage[p] == Committing && KeyStored(b.dbs, m)
      ensures err.Some? ==> b.stage[p] == CallDlq(b.cfg.maxRetries + 1) && err.value == tries[b.cfg.maxRetries].error
    {
      err := None;
      ghost var pos, committed := b.pos[p], b.committed[p];
      var attempt := 0;
      while attempt <= b.cfg.maxRetries
        invariant attempt <= b.cfg.maxRetries + 1
        invariant mat.At(p, m) && old(b.trace) <= b.trace
        invariant b.pos[p] == pos && b.committed[p] == committed
        invariant b.stage[p] == if attempt <= b.cfg.maxRetries then Attempt(attempt) else CallDlq(attempt)
        invariant forall k :: 0 <= k < attempt ==> !Works(mat.breaker, tries[k])
        invariant attempt > 0 ==> err == Some(tries[attempt - 1].error)
      {
        err := mat.Handle(p, m, tries[attempt]);
        if err.None? {
          return;
        }
        attempt := attempt + 1;
      }
    }

    /** The DLQ callback of cmd/consumer/main.go: flag the token, then a best-effort send.
        `marked` is the schedule up to and with the token write, `s0` the state right then. */
    method DeadLetterQueue(e: Entry, reason: string, mark: Link, send: Link)
      returns (ghost marked: seq<Step>, ghost s0: Sys)
      requires Facing(e) && b.stage[p].CallDlq?
      modifies b
      ensures Facing(e) && b.stage[p] == Committing && Handed(b.dead, p, b.pos[p])
      ensures b.pos[p] == old(b.pos)[p] && b.committed[p] == old(b.committed)[p]
      ensures old(b.trace) < marked < b.trace && Reaches(b.cfg, marked, s0)
      ensures marked[|marked| - 1] == MarkDead(p, reason, mark)
      ensures e.Message? && e.m.queueToken != NoToken && mark != Unreached ==>
                e.m.queueToken in s0.queue && s0.queue[e.m.queueToken] == Failed(reason)
      ensures b.trace[|b.trace| - 1] == SendDead(p, send != Unreached)
      ensures send != Unreached ==> InTopic(e, b.dlqTopic)
    {
      MarkFailed(e, reason, mark);
      marked, s0 := b.trace, b.Abs();
      SendOrder(e, send);
    }

    method MarkFailed(e: Entry, reason: string, mark: Link)
      requires Facing(e) && b.stage[p].CallDlq?
      modifies b
      ensures Facing(e) && b.stage[p].SendDlq? && Handed(b.dead, p, b.pos[p])
      ensures b.pos[p] == old(b.pos)[p] && b.committed[p] == old(b.committed)[p]
      ensures old(b.trace) < b.trace && b.trace[|b.trace| - 1] == MarkDead(p, reason, mark)
      ensures e.Message? && e.m.queueToken != NoToken && mark != Unreached ==>
                e.m.queueToken in b.queue && b.queue[e.m.queueToken] == Failed(reason)
    {
      b.TurnAt(p);
      ghost var x := DeadLetter(p, b.pos[p], b.stage[p].fails);
      b.FlagFailed(p, e, reason, mark);
      assert x in b.dead;
    }

    method SendOrder(e: Entry, send: Link)
      requires Facing(e) && b.stage[p].SendDlq? && Handed(b.dead, p, b.pos[p])
      modifies b
      ensures Facing(e) && b.stage[p] == Committing && Handed(b.dead, p, b.pos[p])
      ensures b.pos[p] == old(b.pos)[p] && b.committed[p] == old(b.committed)[p]
      ensures old(b.trace) < b.trace && b.trace[|b.trace| - 1] == SendDead(p, send != Unreached)
      ensures send != Unreached ==> InTopic(e, b.dlqTopic)
    {
      ghost var dead := b.dead;
      b.TurnAt(p);
      HandedGrows(dead, b.dead, p, b.pos[p]);
      b.SendToDlq(p, e, send != Unreached);
    }

    /** One entry from fetch to commit. It stops exactly when the commit of a decodable entry
        failed; the error of a commit after an undecodable one is ignored. The reader goes on
        behind the entry, or where it had committed. */
    method Process(round: Round) returns (stop: bool)
      requires mat.b == b && b.Valid() && p < b.cfg.parts && b.stage[p] == Idle && b.pos[p] < |b.log[p]|
      requires |round.tries| == b.cfg.maxRetries + 1
      modifies b
      ensures b.Valid() && old(b.trace) <= b.trace && b.stage[p] == Idle
      ensures var off := old(b.pos)[p];
              var e := old(b.log)[p][off];
              && (stop <==> e.Message? && round.commit != Fine)
              && b.committed[p] == (if round.commit == Unreached then old(b.committed)[p] else off + 1)
              && b.pos[p] == (if stop then b.committed[p] else off + 1)
              && Fate(b.Abs(), p, off, e, mat.breaker, round)
              && ((e.Message? && Succeeds(mat.breaker, round.tries))
                  || Since(old(b.trace), b.trace, MarkDead(p, Reason(e, round), round.mark)))
    {
      ghost var was := b.trace;
      var e := b.FetchEntry(p);
      ghost var fetched := b.trace;
      match e {
        case Undecodable(_) =>
          SkipEntry(e, round);
          stop := false;
        case Message(m) =>
          stop := ProcessMessage(m, round);
      }
      if !(e.Message? && Succeeds(mat.breaker, round.tries)) {
        SinceGrows(was, fetched, b.trace, b.trace, MarkDead(p, Reason(e, round), round.mark));
      }
    }

    method SkipEntry(e: Entry, round: Round)
      requires Facing(e) && e.Undecodable? && b.stage[p].CallDlq? && round.tries != []
      modifies b
      ensures b.Valid() && old(b.trace) <= b.trace && b.stage[p] == Idle
      ensures var off := old(b.pos)[p];
              && b.committed[p] == (if round.commit == Unreached then old(b.committed)[p] else off + 1)
              && b.pos[p] == off + 1 && Fate(b.Abs(), p, off, e, mat.breaker, round)
              && Since(old(b.trace), b.trace, MarkDead(p, round.decodeError, round.mark))
    {
      ghost var was := b.trace;
      ghost var off := b.pos[p];
      ghost var marked, _ := DeadLetterQueue(e, round.decodeError, round.mark, round.send);
      ghost var handed, s := b.trace, b.Abs();
      var _ := CommitIt(e, round.commit);
      MarkSince(was, marked, b.trace, MarkDead(p, round.decodeError, round.mark));
      FateStays(b.cfg, handed, s, b.trace, b.Abs(), p, off, e, mat.breaker, round);
    }

    method ProcessMessage(m: OrderMessage, round: Round) returns (stop: bool)
      requires mat.b == b && Facing(Message(m)) && b.stage[p] == Attempt(0)
      requires |round.tries| == b.cfg.maxRetries + 1
      modifies b
      ensures b.Valid() && old(b.trace) <= b.trace && b.stage[p] == Idle
      ensures var off := old(b.pos)[p];
              && (stop <==> round.commit != Fine)
              && b.committed[p] == (if round.commit == Unreached then old(b.committed)[p] else off + 1)
              && b.pos[p] == (if stop then b.committed[p] else off + 1)
              && Fate(b.Abs(), p, off, Message(m), mat.breaker, round)
              && (Succeeds(mat.breaker, round.tries)
                  || Since(old(b.trace), b.trace, MarkDead(p, Reason(Message(m), round), round.mark)))
    {
      ghost var was, off := b.trace, b.pos[p];
      Settle(m, round);
      ghost var done, s := b.trace, b.Abs();
      var ok := CommitIt(Message(m), round.commit);
      stop := !ok;
      FateStays(b.cfg, done, s, b.trace, b.Abs(), p, off, Message(m), mat.breaker, round);
      if !Succeeds(mat.breaker, round.tries) {
        SinceGrows(was, was, done, b.trace, MarkDead(p, Reason(Message(m), round), round.mark));
      }
    }

    /** Deliver, and hand over what could not be delivered. */
    method Settle(m: OrderMessage, round: Round)
      requires mat.b == b && Facing(Message(m)) && b.stage[p] == Attempt(0)
      requires |round.tries| == b.cfg.maxRetries + 1
      modifies b
      ensures Facing(Message(m)) && old(b.trace) <= b.trace && b.stage[p] == Committing
      ensures b.pos[p] == old(b.pos)[p] && b.committed[p] == old(b.committed)[p]
      ensures Fate(b.Abs(), p, b.pos[p], Message(m), mat.breaker, round)
      ensures Succeeds(mat.breaker, round.tries)
              || Since(old(b.trace), b.trace, MarkDead(p, Reason(Message(m), round), round.mark))
    {
      ghost var was := b.trace;
      var err := Deliver(m, round.tries);
      if err.Some? {
        ghost var marked, _ := DeadLetterQueue(Message(m), err.value, round.mark, round.send);
        MarkSince(was, marked, b.trace, MarkDead(p, err.value, round.mark));
      }
    }

    method CommitIt(e: Entry, link: Link) returns (ok: bool)
      requires Facing(e) && b.stage[p] == Committing
      modifies b
      ensures b.Valid() && old(b.trace) <= b.trace && b.stage[p] == Idle && (ok <==> link == Fine)
      ensures b.committed[p] == if link == Unreached then old(b.committed)[p] else old(b.pos)[p] + 1
      ensures b.pos[p] == if ok || e.Undecodable? then old(b.pos)[p] + 1 else b.committed[p]
    {
      b.TurnAt(p);
      ok := b.CommitEntry(p, e, link);
    }

    /** A finite stretch of Consumer.Run: each round is one pass of its loop, and `met` holds
        what the passes found, in the order of the log. It ends early exactly on a failed fetch
        or a failed commit of a decodable entry. Otherwise it has moved over all it met, which is
        an entry in every round while there were some; everything behind the reader is stored or
        was handed over, and stored is all it moved over if the handler always succeeded. */
    method Run(rounds: seq<Round>) returns (err: bool, handled: nat, ghost met: seq<Option<Entry>>)
      requires mat.b == b && b.Valid() && p < b.cfg.parts && b.stage[p] == Idle
      requires forall k :: 0 <= k < |rounds| ==> |rounds[k].tries| == b.cfg.maxRetries + 1
      modifies b
      ensures b.Valid() && old(b.trace) <= b.trace && b.stage[p] == Idle
      ensures |met| <= |rounds| && (!err ==> |met| == |rounds|) && handled == |Found(met)|
      ensures Passed(b.Abs(), p, old(b.pos)[p], |old(b.log)[p]|, rounds, met, mat.breaker, err)
      ensures b.pos[p] <= |b.log[p]| && forall off :: 0 <= off < b.pos[p] ==> Settled(b.log, b.dbs, b.dead, p, off)
    {
      handled, err, met := 0, false, [];
      ghost var start, entries := b.pos[p], |b.log[p]|;
      InsideLog(b, p);
      var round := 0;
      while round < |rounds| && !err
        invariant round == |met| <= |rounds| && handled == |Found(met)|
        invariant b.Valid() && old(b.trace) <= b.trace && b.stage[p] == Idle
        invariant Passed(b.Abs(), p, start, entries, rounds, met, mat.breaker, err)
        decreases |rounds| - round, if err then 0 else 1
      {
        ghost var s := b.Abs();
        ghost var e;
        var moved;
        err, moved, e := Pass(rounds[round]);
        PassedOne(s, b.Abs(), p, start, entries, rounds, met, e, mat.breaker);
        if moved {
          handled := handled + 1;
        }
        round, met := round + 1, met + [e];
      }
      InsideLog(b, p);
    }

    /** One pass of the loop. */
    method Pass(round: Round) returns (stop: bool, moved: bool, ghost e: Option<Entry>)
      requires mat.b == b && b.Valid() && p < b.cfg.parts && b.stage[p] == Idle
      requires |round.tries| == b.cfg.maxRetries + 1
      modifies b
      ensures b.Valid() && old(b.trace) <= b.trace && b.stage[p] == Idle
      ensures (stop <==> Stops(round, e)) && (moved <==> e.Some?)
      ensures OnePass(old(b.Abs()), b.Abs(), p, round, e, mat.breaker)
    {
      ghost var before, s := b.trace, b.Abs();
      var _ := b.Turn(Reader(p));
      stop, moved, e := round.fault, false, None;
      if !stop && b.pos[p] < |b.log[p]| {
        ghost var met, s1 := b.trace, b.Abs();
        e := Some(b.log[p][b.pos[p]]);
        stop := Process(round);
        moved := true;
        KeptSince(b.cfg, met, s1, b.trace, b.Abs());
        assert s1.log[p] <= b.log[p];
      }
      KeptSince(b.cfg, before, s, b.trace, b.Abs());
      assert s.log[p] <= b.log[p];
    }
  }

  lemma InsideLog(b: Stores, p: nat)
    requires b.Valid() && p < b.cfg.parts
    ensures b.pos[p] <= |b.log[p]| && forall off :: 0 <= off < b.pos[p] ==> Settled(b.log, b.dbs, b.dead, p, off)
  {
    PartHere(b, p);
  }

  lemma MarkSince(was: seq<Step>, marked: seq<Step>, now: seq<Step>, st: Step)
    requires was < marked <= now && marked[|marked| - 1] == st
    ensures Since(was, now, st)
  {
    assert now[|was|..][|marked| - 1 - |was|] == st;
  }

  // ---------- Reconcile ----------

  datatype Finding = Finding(activityId: int, initStock: int, redis: int, ordersCount: int, drift: int)

  datatype CheckError = NoActivity | NoStockKey | ShardDown(i: nat)

  /** The first call that did not answer, or the number of calls. */
  function FirstDown(links: seq<Link>): nat {
    if links == [] || links[0] != Fine then 0 else 1 + FirstDown(links[1..])
  }

  lemma {:induction false} FirstDownIs(links: seq<Link>, i: nat)
    requires i <= |links|
    ensures i == FirstDown(links)
            <==> (forall k :: 0 <= k < i ==> links[k] == Fine) && (i < |links| ==> links[i] != Fine)
    ensures i < FirstDown(links) ==> i < |links| && links[i] == Fine
    ensures FirstDown(links) <= |links|
  {
    if links != [] && links[0] == Fine {
      assert forall k :: 0 < k < |links| ==> links[k] == links[1..][k - 1];
      FirstDownIs(links[1..], if i > 0 then i - 1 else 0);
    }
  }

  /** The fan-out answers exactly when every shard does, and else names the first that does not. */
  predicate FanOut<T(==)>(links: seq<Link>, r: Result<T, CheckError>) {
    if FirstDown(links) < |links| then r == Err(ShardDown(FirstDown(links))) else r.Ok?
  }

  lemma FirstDownHere(links: seq<Link>, i: nat)
    requires i < |links| && i <= FirstDown(links)
    ensures links[i] != Fine <==> i == FirstDown(links)
  {
    FirstDownIs(links, i);
  }

  class ReconcileService {
    const b: Stores

    constructor (b: Stores)
      ensures this.b == b
    {
      this.b := b;
    }

    /** The fan-out count, shard after shard, while writers go on. Each shard is counted at its
        own moment, so the total lies between the count at the start and the count at the end. */
    method CountOrders(act: int, links: seq<Link>) returns (r: Result<nat, CheckError>)
      requires b.Valid() && |links| == |b.dbs|
      modifies b
      ensures b.Valid() && old(b.trace) <= b.trace
      ensures TablesGrow(old(b.dbs), b.dbs) && KeysKept(old(b.Abs()), b.Abs())
      ensures r.Ok? ==> CountAll(old(b.dbs), OfActivity(act)) <= r.value <= CountAll(b.dbs, OfActivity(act))
      ensures FanOut(links, r)
    {
      var total: nat := 0;
      ghost var was, s0 := b.trace, b.Abs();
      var i := 0;
      while i < |b.dbs|
        invariant b.Valid() && was <= b.trace && 0 <= i <= |b.dbs| == |links|
        invariant SoFar(s0.dbs, b.dbs, i, total, OfActivity(act))
        invariant i <= FirstDown(links)
        decreases |s0.dbs| - i
      {
        ghost var before := b.dbs;
        var n := CountShard(act, i);
        FirstDownHere(links, i);
        if links[i] != Fine {
          KeptSince(b.cfg, was, s0, b.trace, b.Abs());
          return Err(ShardDown(i));
        }
        CountNext(s0.dbs, before, b.dbs, i, total, OfActivity(act));
        total := total + n;
        i := i + 1;
      }
      KeptSince(b.cfg, was, s0, b.trace, b.Abs());
      FirstDownIs(links, i);
      AllCounted(s0.dbs, b.dbs, i, total, OfActivity(act));
      return Ok(total);
    }

    /** SELECT COUNT on one shard, others having moved before it. */
    method CountShard(act: int, i: nat) returns (n: nat)
      requires b.Valid() && i < |b.dbs|
      modifies b
      ensures b.Valid() && old(b.trace) <= b.trace && TablesGrow(old(b.dbs), b.dbs)
      ensures i < |b.dbs| && n == Count(b.dbs[i], OfActivity(act))
    {
      var _ := b.Turn(Anyone);
      n := Count(b.dbs[i], OfActivity(act));
    }

    /** Check under interference, with the fate of the activity read, of the GET and of the count
        on each shard. `at` is the schedule up to the read that decided: of the activity when it
        is missing, else of the stock. The finding shows the initial stock, the stock read then,
        and a count between those at that moment and at the end. Its drift is at most the true
        drift at that moment, at least minus the number of decrements since then, and exact when
        nothing moved in between. */
    method Check(act: int, db: Link, redis: Link, links: seq<Link>)
      returns (r: Result<Finding, CheckError>, ghost at: seq<Step>, ghost s0: Sys)
      requires b.Valid() && |links| == |b.dbs|
      modifies b
      ensures b.Valid() && old(b.trace) <= at <= b.trace && Reaches(b.cfg, at, s0)
      ensures if db != Fine || act !in s0.acts then r == Err(NoActivity)
              else if redis != Fine || act !in s0.redis.stock then r == Err(NoStockKey)
              else FanOut(links, r)
      ensures r.Ok? ==> FindingOk(s0, b.Abs(), act, r.value)
    {
      var _ := b.Turn(Anyone);
      at, s0 := b.trace, b.Abs();
      if db != Fine || act !in b.acts {
        return Err(NoActivity), at, s0;
      }
      var init := b.acts[act].totalStock;
      var _ := b.Turn(Anyone);
      at, s0 := b.trace, b.Abs();
      if redis != Fine || act !in b.redis.stock {
        return Err(NoStockKey), at, s0;
      }
      var rem := b.redis.stock[act];
      var counted := CountOrders(act, links);
      if counted.Err? {
        return Err(counted.error), at, s0;
      }
      ReachesIff(b.cfg, at, s0);
      b.Known();
      DriftBounds(b.cfg, at, b.trace, act, counted.value);
      return Ok(Finding(act, init, rem, counted.value, init - (rem + counted.value))), at, s0;
    }
  }

  /** What a finding tells, with stock read in state s and the last shard counted by s'. */
  ghost predicate FindingOk(s: Sys, s': Sys, act: int, f: Finding) {
    && act in s.acts && act in s.redis.stock
    && f.activityId == act && f.initStock == s.acts[act].totalStock && f.redis == s.redis.stock[act]
    && CountAll(s.dbs, OfActivity(act)) <= f.ordersCount <= CountAll(s'.dbs, OfActivity(act))
    && f.drift == f.initStock - (f.redis + f.ordersCount)
    && |Reserved(s.reqs, OfActivity(act))| - |Reserved(s'.reqs, OfActivity(act))| <= f.drift <= Drift(s, act)
    && (CountAll(s.dbs, OfActivity(act)) == CountAll(s'.dbs, OfActivity(act)) ==> f.drift == Drift(s, act))
  }

  /** The total over the first i shards lies between their counts at the start and now. */
  ghost predicate SoFar(start: seq<Table>, now: seq<Table>, i: nat, total: nat, sc: Scope) {
    && TablesGrow(start, now) && i <= |start|
    && CountAll(start[..i], sc) <= total <= CountAll(now[..i], sc)
  }

  /** One more shard is counted after others have moved. */
  lemma CountNext(start: seq<Table>, before: seq<Table>, now: seq<Table>, i: nat, total: nat, sc: Scope)
    requires SoFar(start, before, i, total, sc) && TablesGrow(before, now) && i < |start|
    ensures SoFar(start, now, i + 1, total + Count(now[i], sc), sc)
  {
    GrowChain(start, before, now);
    CountMonotone(before[..i], now[..i], sc);
    CountPrefix(start[i], now[i], sc);
    assert start[..i + 1][..i] == start[..i] && now[..i + 1][..i] == now[..i];
  }

  lemma AllCounted(start: seq<Table>, now: seq<Table>, i: nat, total: nat, sc: Scope)
    requires SoFar(start, now, i, total, sc) && i == |now|
    ensures CountAll(start, sc) <= total <= CountAll(now, sc)
  {
    assert start[..i] == start && now[..i] == now;
  }

  lemma GrowChain(a: seq<Table>, b: seq<Table>, c: seq<Table>)
    requires TablesGrow(a, b) && TablesGrow(b, c)
    ensures TablesGrow(a, c)
  {
    forall d | 0 <= d < |a| ensures a[d] <= c[d] {
      assert a[d] <= b[d] && b[d] <= c[d];
    }
  }

  /** The arithmetic of Check between two reachable states. */
  lemma DriftBounds(cfg: Config, from: seq<Step>, to: seq<Step>, act: int, counted: nat)
    requires ValidConfig(cfg) && KeysKept(Reach(cfg, from), Reach(cfg, to))
    requires act in Reach(cfg, from).acts && act in Reach(cfg, from).redis.stock
    requires CountAll(Reach(cfg, from).dbs, OfActivity(act)) <= counted <= CountAll(Reach(cfg, to).dbs, OfActivity(act))
    ensures var s, s' := Reach(cfg, from), Reach(cfg, to);
            var drift := s.acts[act].totalStock - (s.redis.stock[act] + counted);
            && drift <= Drift(s, act)
            && drift >= |Reserved(s.reqs, OfActivity(act))| - |Reserved(s'.reqs, OfActivity(act))|
  {
    ExactDrift(cfg, from, act);
    ExactDrift(cfg, to, act);
  }
}
