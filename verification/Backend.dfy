/** Redis, MySQL and Kafka as one shared mutable object, with the atomic commands the services
    issue. Ghost fields carry the history; `Valid` says that the object is in a state the
    protocol reaches by the recorded schedule, so every whole-run theorem holds of it. */
module Backend {
  import opened Domain
  import opened Stock
  import opened Orders
  import opened Protocol
  import opened RowInvariants
  import opened ConsumerInvariants
  import ShardKey

  /** Who takes a step. The broker's appends, junk and key expiry belong to nobody. */
  datatype Actor = Api(i: nat) | Reader(p: nat) | Anyone

  function Owner(st: Step): Actor {
    match st
    case LookUp(i, _, _) => Api(i)
    case Deduct(i, _) => Api(i)
    case Mint(i, _, _, _, _) => Api(i)
    case Answer(i, _) => Api(i)
    case CreateNow(i, _) => Api(i)
    case Fetch(p) => Reader(p)
    case TryInsert(p, _) => Reader(p)
    case PutSuccess(p, _) => Reader(p)
    case MarkDead(p, _, _) => Reader(p)
    case SendDead(p, _) => Reader(p)
    case Commit(p, _) => Reader(p)
    case Crash(p) => Reader(p)
    case _ => Anyone
  }

  ghost predicate ByOthers(env: seq<Step>, me: Actor) {
    forall k :: 0 <= k < |env| ==> me == Anyone || Owner(env[k]) != me
  }

  /** What other actors cannot change about me, and what nobody can undo. */
  ghost predicate Undisturbed(cfg: Config, s: Sys, s': Sys, me: Actor)
    requires Shape(cfg, s) && Shape(cfg, s')
  {
    && TablesGrow(s.dbs, s'.dbs) && LogGrows(s.log, s'.log) && |s.reqs| <= |s'.reqs|
    && KeysKept(s, s')
    && (me.Api? && me.i < |s.reqs| ==> s'.reqs[me.i] == s.reqs[me.i])
    && (me.Reader? && me.p < cfg.parts ==>
          s'.pos[me.p] == s.pos[me.p] && s'.stage[me.p] == s.stage[me.p] && s'.committed[me.p] == s.committed[me.p])
  }

  /** Activities never change and a warmed activity stays warmed. */
  ghost predicate KeysKept(s: Sys, s': Sys) {
    && s.redis.stock.Keys <= s'.redis.stock.Keys
    && forall a :: a in s.acts ==> a in s'.acts && s'.acts[a] == s.acts[a]
  }

  lemma KeysKeptStep(cfg: Config, s: Sys, st: Step)
    requires Shape(cfg, s)
    ensures KeysKept(s, Next(cfg, s, st))
  {
  }

  lemma StepByOther(cfg: Config, s: Sys, st: Step, me: Actor)
    requires Shape(cfg, s) && (me == Anyone || Owner(st) != me)
    ensures Undisturbed(cfg, s, Next(cfg, s, st), me)
  {
    GrowStep(cfg, s, st);
    KeysKeptStep(cfg, s, st);
    if me.Reader? && me.p < cfg.parts {
      OnlyOwnPartition(cfg, s, st, me.p);
    }
  }

  lemma {:induction false} RunByOthers(cfg: Config, s: Sys, env: seq<Step>, me: Actor)
    requires Shape(cfg, s) && ByOthers(env, me)
    ensures Undisturbed(cfg, s, Run(cfg, s, env), me)
    decreases |env|
  {
    if env != [] {
      var n := |env| - 1;
      var mid := Run(cfg, s, env[..n]);
      assert ByOthers(env[..n], me);
      RunByOthers(cfg, s, env[..n], me);
      StepByOther(cfg, mid, env[n], me);
      GrowTransitive(s, mid, Next(cfg, mid, env[n]));
    }
  }

  lemma GrowTransitive(a: Sys, b: Sys, c: Sys)
    requires TablesGrow(a.dbs, b.dbs) && TablesGrow(b.dbs, c.dbs)
    requires LogGrows(a.log, b.log) && LogGrows(b.log, c.log)
    ensures TablesGrow(a.dbs, c.dbs) && LogGrows(a.log, c.log)
  {
    forall d | 0 <= d < |a.dbs| ensures a.dbs[d] <= c.dbs[d] {
      assert a.dbs[d] <= b.dbs[d] && b.dbs[d] <= c.dbs[d];
    }
    forall p | 0 <= p < |a.log| ensures a.log[p] <= c.log[p] {
      assert a.log[p] <= b.log[p] && b.log[p] <= c.log[p];
    }
  }

  lemma TopicGrows(cfg: Config, s: Sys, st: Step)
    requires Shape(cfg, s)
    ensures s.dlqTopic <= Next(cfg, s, st).dlqTopic
  {
  }

  /** What was handed over or sent stays so. */
  lemma {:induction false} DeadGrowsRun(cfg: Config, s: Sys, env: seq<Step>)
    requires Shape(cfg, s)
    ensures s.dead <= Run(cfg, s, env).dead && s.dlqTopic <= Run(cfg, s, env).dlqTopic
    decreases |env|
  {
    if env != [] {
      DeadGrowsRun(cfg, s, env[..|env| - 1]);
      DeadGrows(cfg, Run(cfg, s, env[..|env| - 1]), env[|env| - 1]);
      TopicGrows(cfg, Run(cfg, s, env[..|env| - 1]), env[|env| - 1]);
    }
  }

  /** Every id and UUID handed out so far is below the counter. */
  ghost predicate Below(reqs: seq<Req>, minted: set<string>, ticks: nat) {
    && (forall i :: 0 <= i < |reqs| && reqs[i].order.Some? ==> reqs[i].order.value.id < ticks)
    && (forall x :: x in minted ==> |x| < ticks)
  }

  lemma BelowUpdate(reqs: seq<Req>, minted: set<string>, ticks: nat, i: nat, r: Req)
    requires Below(reqs, minted, ticks) && i < |reqs| && r.order == reqs[i].order
    ensures Below(reqs[i := r], minted, ticks)
  {
  }

  /** The two steps that insert, field by field. */
  lemma CreateNowFields(cfg: Config, s: Sys, i: nat, link: Link)
    requires Shape(cfg, s) && !cfg.kafka
    requires i < |s.reqs| && s.reqs[i].pc.Minted? && s.reqs[i].order.Some? && s.reqs[i].qtok.Some?
    ensures var o := s.reqs[i].order.value;
            Next(cfg, s, CreateNow(i, link))
            == s.(dbs := if link == Unreached then s.dbs else Create(s.dbs, o),
                  src := if link == Unreached then s.src else Noted(s.dbs, s.src, o, 0),
                  reqs := s.reqs[i := Finish(s.reqs[i], SyncOutcome(s.dbs, o, link))])
  {
    CreateNowHappens(cfg, s, i, link);
  }

  lemma InsertFields(cfg: Config, s: Sys, p: nat, link: Link)
    requires Shape(cfg, s) && AtMessage(s, p) && s.stage[p].Attempt?
    ensures var o := OrderOf(s.log[p][s.pos[p]].m);
            Next(cfg, s, TryInsert(p, link))
            == s.(dbs := if link == Unreached then s.dbs else Create(s.dbs, o),
                  src := if link == Unreached then s.src else Noted(s.dbs, s.src, o, s.pos[p]),
                  stage := s.stage[p := AfterInsert(cfg, s.stage[p].k, link)])
  {
    InsertHappens(cfg, s, p, link);
  }

  /** s is the state after the schedule. The equation stays out of the solver's way until
      `ReachesIff` brings it into view. */
  ghost predicate Reaches(cfg: Config, tr: seq<Step>, s: Sys)
    requires ValidConfig(cfg)
  {
    Shape(cfg, s) && forall n: nat :: InView(n) ==> s == Reach(cfg, tr)
  }

  lemma ReachesIff(cfg: Config, tr: seq<Step>, s: Sys)
    requires ValidConfig(cfg)
    ensures Reaches(cfg, tr, s) <==> s == Reach(cfg, tr)
  {
    assert InView(0);
  }

  /** What no later step undoes. */
  lemma KeptSince(cfg: Config, from: seq<Step>, s: Sys, to: seq<Step>, s': Sys)
    requires ValidConfig(cfg) && from <= to && Reaches(cfg, from, s) && Reaches(cfg, to, s')
    ensures KeysKept(s, s') && TablesGrow(s.dbs, s'.dbs) && LogGrows(s.log, s'.log)
    ensures s.dead <= s'.dead && s.dlqTopic <= s'.dlqTopic
  {
    ReachesIff(cfg, from, s);
    ReachesIff(cfg, to, s');
    var env := to[|from|..];
    assert to == from + env;
    RunAppend(cfg, Init(cfg), from, env);
    RunByOthers(cfg, s, env, Anyone);
    DeadGrowsRun(cfg, s, env);
  }

  datatype FetchError = ActivityNotFound | ActivityDbDown

  class Stores {
    const cfg: Config

    // Redis
    var redis: Redis
    var queue: map<QueueToken, TokenState>
    // MySQL
    var acts: map<int, Activity>
    var dbs: seq<Table>
    // Kafka
    var log: seq<seq<Entry>>
    var committed: seq<nat>
    var pos: seq<nat>
    var dlqTopic: seq<OrderMessage>
    // Stands for the clock-and-counter id source and for the UUID generator; only the
    // freshness of what they return is used.
    var ticks: nat

    // history
    ghost var reqs: seq<Req>
    ghost var minted: set<string>
    ghost var src: seq<seq<nat>>
    ghost var stage: seq<Stage>
    ghost var dead: set<DeadLetter>
    ghost var trace: seq<Step>

    ghost function Abs(): Sys
      reads `acts, `redis, `queue, `reqs, `minted, `log, `dbs, `src, `committed, `pos, `stage, `dead, `dlqTopic
    {
      Sys(acts, redis, queue, reqs, minted, log, dbs, src, committed, pos, stage, dead, dlqTopic)
    }

    ghost predicate Valid()
      reads this
    {
      && ValidConfig(cfg)
      && |dbs| == |src| == cfg.shards && |log| == |committed| == |pos| == |stage| == cfg.parts
      && Reaches(cfg, trace, Abs())
      && Minting()
    }

    lemma Known()
      requires Valid()
      ensures Abs() == Reach(cfg, trace)
    {
      ReachesIff(cfg, trace, Abs());
    }

    constructor (cfg: Config)
      requires ValidConfig(cfg)
      ensures Valid() && this.cfg == cfg && trace == []
    {
      this.cfg := cfg;
      redis, queue, acts := Redis(map[], map[]), map[], map[];
      dbs := EmptyShards(cfg.shards);
      log := seq(cfg.parts, i => []);
      committed, pos := seq(cfg.parts, i => 0), seq(cfg.parts, i => 0);
      dlqTopic, ticks := [], 1;
      reqs, minted, dead, trace := [], {}, {}, [];
      src := seq(cfg.shards, i => []);
      stage := seq(cfg.parts, i => Idle);
    }

    /** Everyone else may take any number of steps here. The body is the quiet case; callers
        only know the contract. */
    method Turn(ghost me: Actor) returns (ghost env: seq<Step>)
      requires Valid()
      modifies this
      ensures Valid() && trace == old(trace) + env && ByOthers(env, me)
      ensures Abs() == Run(cfg, old(Abs()), env)
      ensures Undisturbed(cfg, old(Abs()), Abs(), me)
    {
      env := [];
      RunByOthers(cfg, Abs(), env, me);
    }

    /** Closes a command: the fields now hold the state after `st`. */
    ghost method Record(s: Sys, st: Step)
      requires ValidConfig(cfg) && Reaches(cfg, trace, s) && Abs() == Next(cfg, s, st)
      requires Minting()
      modifies `trace
      ensures Valid() && trace == old(trace) + [st] && Abs() == old(Abs())
    {
      ReachesIff(cfg, trace, s);
      ReachStep(cfg, trace, st);
      trace := trace + [st];
    }

    ghost predicate Minting()
      reads `reqs, `minted, `ticks
    {
      Below(reqs, minted, ticks)
    }

    /** Others move; request i does not. */
    method TurnOf(ghost i: nat)
      requires Valid() && i < |reqs|
      modifies this
      ensures Valid() && old(trace) <= trace
      ensures i < |reqs| && reqs[i] == old(reqs)[i]
      ensures LogGrows(old(log), log) && KeysKept(old(Abs()), Abs())
    {
      var _ := Turn(Api(i));
    }

    /** Others move; the reader of p stays at its entry. */
    method TurnAt(p: nat)
      requires Valid() && p < cfg.parts && pos[p] < |log[p]|
      modifies this
      ensures Valid() && old(trace) <= trace
      ensures |pos| == |stage| == |log| == |committed| == cfg.parts
      ensures pos[p] == old(pos)[p] && stage[p] == old(stage)[p] && committed[p] == old(committed)[p]
      ensures pos[p] < |log[p]| && log[p][pos[p]] == old(log)[p][pos[p]]
      ensures TablesGrow(old(dbs), dbs) && |dbs| == cfg.shards
      ensures old(dead) <= dead && old(dlqTopic) <= dlqTopic && old(log)[p] <= log[p]
    {
      ghost var s := Abs();
      var env := Turn(Reader(p));
      DeadGrowsRun(cfg, s, env);
      assert s.log[p] <= log[p];
    }

    method NextId() returns (id: int)
      requires Valid()
      modifies `ticks
      ensures Valid() && FreshId(reqs, id) && id < ticks
    {
      id := ticks;
      ticks := ticks + 1;
    }

    method NewUuid() returns (x: string)
      requires Valid()
      modifies `ticks
      ensures Valid() && x !in minted && |x| < ticks && old(ticks) <= ticks
    {
      x := seq(ticks, i => '0');
      ticks := ticks + 1;
    }

    // ---------- Commands of an API request ----------

    ghost method Arrives(act: int, user: int, token: string) returns (i: nat)
      requires Valid()
      modifies `reqs, `trace
      ensures Valid() && trace == old(trace) + [Arrive(act, user, token)]
      ensures i == |old(reqs)| && reqs == old(reqs) + [Req(act, user, token, Arrived, None, None, None, None)]
    {
      i := |reqs|;
      ghost var s := Abs();
      reqs := reqs + [Req(act, user, token, Arrived, None, None, None, None)];
      Record(s, Arrive(act, user, token));
    }

    /** SELECT from activities, and the request's reading of the clock. */
    method GetActivity(ghost i: nat, act: int, now: int, up: bool) returns (r: Result<Activity, FetchError>)
      requires Valid() && i < |reqs| && reqs[i].pc == Arrived && reqs[i].act == act
      modifies `reqs, `trace
      ensures Valid() && trace == old(trace) + [LookUp(i, now, up)]
      ensures Abs() == Apply(cfg, old(Abs()), LookUp(i, now, up))
      ensures r == if !up then Err(ActivityDbDown) else if act !in acts then Err(ActivityNotFound) else Ok(acts[act])
    {
      ghost var s := Abs();
      reqs := reqs[i := LookedUp(acts, reqs[i], now, up)];
      Record(s, LookUp(i, now, up));
      r := if !up then Err(ActivityDbDown) else if act !in acts then Err(ActivityNotFound) else Ok(acts[act]);
    }

    /** One EVAL of the stock script. */
    method DeductForUser(ghost i: nat, act: int, user: int, n: int, limit: int, link: Link)
      returns (r: Result<int, StockError>)
      requires Valid() && n == 1 && i < |reqs| && reqs[i].pc.Checked?
      requires reqs[i].act == act && reqs[i].user == user && reqs[i].pc.a.perUserLimit == limit
      modifies `redis, `reqs, `trace
      ensures Valid() && trace == old(trace) + [Deduct(i, link)]
      ensures redis == if link == Unreached then old(redis) else Script(old(redis), act, user, n, limit).0
      ensures reqs == old(reqs)[i := AfterCall(old(reqs)[i], Script(old(redis), act, user, n, limit).1, link)]
      ensures r == if link != Fine then Err(StoreDown) else Decode(Script(old(redis), act, user, n, limit).1)
    {
      ghost var s := Abs();
      ghost var code := Script(redis, act, user, n, limit).1;
      r := Err(StoreDown);
      if link != Unreached {
        var (redis', v) := Script(redis, act, user, n, limit);
        redis := redis';
        if link == Fine {
          r := Decode(v);
        }
      }
      SettleDeduct(s, i, code, link);
    }

    /** Records the script call that has just been made in state s. */
    ghost method SettleDeduct(s: Sys, i: nat, v: int, link: Link)
      requires ValidConfig(cfg) && Reaches(cfg, trace, s) && Minting() && i < |s.reqs| && s.reqs[i].pc.Checked?
      requires var r := s.reqs[i];
               var (redis', code) := Script(s.redis, r.act, r.user, 1, r.pc.a.perUserLimit);
               v == code && Abs() == s.(redis := if link == Unreached then s.redis else redis')
      modifies `reqs, `trace
      ensures Valid() && trace == old(trace) + [Deduct(i, link)]
      ensures reqs == s.reqs[i := AfterCall(s.reqs[i], v, link)]
    {
      var r := AfterCall(s.reqs[i], v, link);
      BelowUpdate(reqs, minted, ticks, i, r);
      reqs := reqs[i := r];
      assert Abs() == Next(cfg, s, Deduct(i, link));
      Record(s, Deduct(i, link));
    }

    /** QueueService.New: SET queue:{uuid} "queued". History records the order and the message
        that Seckill builds around the token. */
    method NewToken(ghost i: nat, ghost id: int, ghost at: int, link: Link)
      returns (t: Option<QueueToken>, ghost x: string)
      requires Valid() && i < |reqs| && reqs[i].pc.Deducted? && FreshId(reqs, id) && id < ticks
      modifies `queue, `reqs, `minted, `ticks, `trace
      ensures Valid() && trace == old(trace) + [Mint(i, id, x, at, link)]
      ensures x !in old(minted) && Abs() == MintEffect(cfg, old(Abs()), i, id, x, at, link)
      ensures t == if link == Fine then Some(Uuid(x)) else None
    {
      var uuid := NewUuid();
      x := uuid;
      SetQueued(i, id, at, uuid, link);
      t := if link == Fine then Some(Uuid(uuid)) else None;
    }

    method SetQueued(ghost i: nat, ghost id: int, ghost at: int, x: string, link: Link)
      requires Valid() && i < |reqs| && reqs[i].pc.Deducted? && FreshId(reqs, id) && id < ticks
      requires x !in minted && |x| < ticks
      modifies `queue, `reqs, `minted, `trace
      ensures Valid() && trace == old(trace) + [Mint(i, id, x, at, link)]
      ensures Abs() == MintEffect(cfg, old(Abs()), i, id, x, at, link)
    {
      ghost var s := Abs();
      MintHappens(cfg, s, i, id, x, at, link);
      ghost var r := AfterMint(cfg, reqs[i], id, x, at, link);
      queue := if link == Unreached then queue else queue[Uuid(x) := Waiting];
      reqs, minted := reqs[i := r], minted + {x};
      assert Abs() == MintEffect(cfg, s, i, id, x, at, link);
      Record(s, Mint(i, id, x, at, link));
    }

    /** The broker appends the request's message to the partition of its key. */
    method AppendMessage(ghost i: nat, m: OrderMessage)
      requires Valid() && cfg.kafka && i < |reqs| && reqs[i].msg == Some(m)
      modifies `log, `trace
      ensures Valid() && trace == old(trace) + [Append(i)]
      ensures log == Appended(old(log), cfg.part(m.userId), Message(m))
    {
      ghost var s := Abs();
      var p := cfg.part(m.userId);
      log := log[p := log[p] + [Message(m)]];
      Record(s, Append(i));
    }

    ghost method Answers(i: nat, ok: bool)
      requires Valid() && Enabled(cfg, Abs(), Answer(i, ok))
      modifies `reqs, `trace
      ensures Valid() && trace == old(trace) + [Answer(i, ok)]
      ensures reqs == old(reqs)[i := Finish(old(reqs)[i], if ok then Queued else Internal)]
    {
      ghost var s := Abs();
      reqs := reqs[i := Finish(reqs[i], if ok then Queued else Internal)];
      Record(s, Answer(i, ok));
    }

    /** The synchronous OrderRepo.Create of a request. */
    method CreateOrder(ghost i: nat, o: Order, link: Link) returns (r: Result<(), RepoError>)
      requires Valid() && !cfg.kafka && i < |reqs| && reqs[i].pc.Minted?
      requires reqs[i].order == Some(o) && reqs[i].qtok.Some?
      modifies `dbs, `src, `reqs, `trace
      ensures Valid() && trace == old(trace) + [CreateNow(i, link)]
      ensures dbs == if link == Unreached then old(dbs) else Create(old(dbs), o)
      ensures reqs == old(reqs)[i := Finish(old(reqs)[i], SyncOutcome(old(dbs), o, link))]
      ensures r == if link != Fine then Err(DbDown)
                   else if Clashes(Home(old(dbs), o.userId), o) then Err(OrderDuplicate) else Ok(())
    {
      ghost var s := Abs();
      var dup := Clashes(Home(dbs, o.userId), o);
      Put(o, 0, link);
      Settle(s, i, o, link);
      r := if link != Fine then Err(DbDown) else if dup then Err(OrderDuplicate) else Ok(());
    }

    /** Records the synchronous insert that has just been made in state s. */
    ghost method Settle(s: Sys, i: nat, o: Order, link: Link)
      requires ValidConfig(cfg) && Reaches(cfg, trace, s) && Minting() && !cfg.kafka
      requires i < |s.reqs| && s.reqs[i].pc.Minted? && s.reqs[i].order == Some(o) && s.reqs[i].qtok.Some?
      requires Abs() == s.(dbs := if link == Unreached then s.dbs else Create(s.dbs, o),
                           src := if link == Unreached then s.src else Noted(s.dbs, s.src, o, 0))
      modifies `reqs, `trace
      ensures Valid() && trace == old(trace) + [CreateNow(i, link)]
      ensures reqs == s.reqs[i := Finish(s.reqs[i], SyncOutcome(s.dbs, o, link))]
    {
      var r := Finish(s.reqs[i], SyncOutcome(s.dbs, o, link));
      CreateNowFields(cfg, s, i, link);
      BelowUpdate(reqs, minted, ticks, i, r);
      reqs := reqs[i := r];
      assert Abs() == Next(cfg, s, CreateNow(i, link));
      Record(s, CreateNow(i, link));
    }

    /** INSERT INTO orders_0 on the user's shard. */
    method Put(o: Order, ghost off: nat, link: Link)
      requires ShardCount(|dbs|) && |src| == |dbs|
      modifies `dbs, `src
      ensures dbs == if link == Unreached then old(dbs) else Create(old(dbs), o)
      ensures src == if link == Unreached then old(src) else Noted(old(dbs), old(src), o, off)
    {
      var d := ShardKey.DBIndex(o.userId, |dbs|);
      if link != Unreached && !Clashes(dbs[d], o) {
        dbs := dbs[d := dbs[d] + [o]];
        src := src[d := src[d] + [off]];
      } else {
        assert dbs == dbs[d := dbs[d]];
      }
    }

    // ---------- Commands of a consumer ----------

    /** Reader.FetchMessage when an entry is there. */
    method FetchEntry(p: nat) returns (e: Entry)
      requires Valid() && p < cfg.parts && stage[p] == Idle && pos[p] < |log[p]|
      modifies `stage, `trace
      ensures Valid() && trace == old(trace) + [Fetch(p)] && |stage| == |old(stage)|
      ensures e == log[p][pos[p]] && stage == old(stage)[p := if e.Message? then Attempt(0) else CallDlq(0)]
    {
      ghost var s := Abs();
      e := log[p][pos[p]];
      stage := stage[p := if e.Message? then Attempt(0) else CallDlq(0)];
      Record(s, Fetch(p));
    }

    method InsertRow(p: nat, o: Order, link: Link) returns (r: Result<(), RepoError>)
      requires Valid() && p < cfg.parts && AtMessage(Abs(), p) && stage[p].Attempt? && o == OrderOf(log[p][pos[p]].m)
      modifies `dbs, `src, `stage, `trace
      ensures Valid() && trace == old(trace) + [TryInsert(p, link)]
      ensures dbs == if link == Unreached then old(dbs) else Create(old(dbs), o)
      ensures stage == old(stage)[p := AfterInsert(cfg, old(stage)[p].k, link)]
      ensures r == if link != Fine then Err(DbDown)
                   else if Clashes(Home(old(dbs), o.userId), o) then Err(OrderDuplicate) else Ok(())
    {
      ghost var s := Abs();
      var dup := Clashes(Home(dbs, o.userId), o);
      Put(o, pos[p], link);
      SettleInsert(s, p, o, link);
      r := if link != Fine then Err(DbDown) else if dup then Err(OrderDuplicate) else Ok(());
    }

    /** Records the insert that a delivery has just made in state s. */
    ghost method SettleInsert(s: Sys, p: nat, o: Order, link: Link)
      requires ValidConfig(cfg) && Reaches(cfg, trace, s) && Minting()
      requires AtMessage(s, p) && s.stage[p].Attempt? && o == OrderOf(s.log[p][s.pos[p]].m)
      requires Abs() == s.(dbs := if link == Unreached then s.dbs else Create(s.dbs, o),
                           src := if link == Unreached then s.src else Noted(s.dbs, s.src, o, s.pos[p]))
      modifies `stage, `trace
      ensures Valid() && trace == old(trace) + [TryInsert(p, link)]
      ensures stage == s.stage[p := AfterInsert(cfg, s.stage[p].k, link)]
    {
      InsertFields(cfg, s, p, link);
      stage := stage[p := AfterInsert(cfg, s.stage[p].k, link)];
      assert Abs() == Next(cfg, s, TryInsert(p, link));
      Record(s, TryInsert(p, link));
    }

    method SetSuccess(p: nat, m: OrderMessage, link: Link) returns (ok: bool)
      requires Valid() && p < cfg.parts && AtMessage(Abs(), p) && stage[p].Stored? && m == log[p][pos[p]].m
      modifies `queue, `stage, `trace
      ensures Valid() && trace == old(trace) + [PutSuccess(p, link)] && Abs() == SuccessEffect(cfg, old(Abs()), p, link)
      ensures ok <==> link == Fine
    {
      ghost var s := Abs();
      SuccessHappens(cfg, s, p, link);
      ghost var k := stage[p].k;
      stage := stage[p := if link == Fine then Committing else Retry(cfg, k)];
      if link != Unreached {
        queue := queue[m.queueToken := Success(m.orderId)];
      }
      assert Abs() == SuccessEffect(cfg, s, p, link);
      Record(s, PutSuccess(p, link));
      ok := link == Fine;
    }

    /** The first half of the DLQ callback: MarkFailed when the entry decodes and has a token. */
    method FlagFailed(p: nat, e: Entry, reason: string, link: Link)
      requires Valid() && p < cfg.parts && AtEntry(Abs(), p) && stage[p].CallDlq? && e == log[p][pos[p]]
      modifies `queue, `dead, `stage, `trace
      ensures Valid() && trace == old(trace) + [MarkDead(p, reason, link)]
      ensures Abs() == MarkEffect(old(Abs()), p, reason, link)
    {
      ghost var s := Abs();
      MarkHappens(cfg, s, p, reason, link);
      if e.Message? && e.m.queueToken != NoToken && link != Unreached {
        queue := queue[e.m.queueToken := Failed(reason)];
      }
      ghost var f := stage[p].fails;
      assert MarkEffect(s, p, reason, link)
          == s.(queue := queue, dead := s.dead + {DeadLetter(p, s.pos[p], f)}, stage := s.stage[p := SendDlq(f)]);
      dead, stage := dead + {DeadLetter(p, pos[p], f)}, stage[p := SendDlq(f)];
      assert Abs() == MarkEffect(s, p, reason, link);
      Record(s, MarkDead(p, reason, link));
    }

    /** The second half: a best-effort send whose error is dropped. */
    method SendToDlq(p: nat, e: Entry, sent: bool)
      requires Valid() && p < cfg.parts && AtEntry(Abs(), p) && stage[p].SendDlq? && e == log[p][pos[p]]
      modifies `stage, `dlqTopic, `trace
      ensures Valid() && trace == old(trace) + [SendDead(p, sent)]
      ensures Abs() == SendEffect(old(Abs()), p, sent)
    {
      ghost var s := Abs();
      SendHappens(cfg, s, p, sent);
      stage := stage[p := Committing];
      if PayloadOf(e).orderId != 0 && sent {
        dlqTopic := dlqTopic + [PayloadOf(e)];
      }
      assert Abs() == SendEffect(s, p, sent);
      Record(s, SendDead(p, sent));
    }

    /** Reader.CommitMessages, and where the reader goes from there. */
    method CommitEntry(p: nat, e: Entry, link: Link) returns (ok: bool)
      requires Valid() && p < cfg.parts && AtEntry(Abs(), p) && stage[p].Committing? && e == log[p][pos[p]]
      modifies `committed, `pos, `stage, `trace
      ensures Valid() && trace == old(trace) + [Commit(p, link)] && (ok <==> link == Fine)
      ensures stage == old(stage)[p := Idle]
      ensures committed == old(committed)[p := CommittedAfter(old(committed)[p], old(pos)[p], link)]
      ensures pos == old(pos)[p := ResumeAfter(old(committed)[p], old(pos)[p], e, link)]
    {
      ghost var s := Abs();
      var c, next := CommittedAfter(committed[p], pos[p], link), ResumeAfter(committed[p], pos[p], e, link);
      committed, pos := committed[p := c], pos[p := next];
      SettleCommit(s, p, link);
      ok := link == Fine;
    }

    /** Records the commit that has just been made in state s. */
    ghost method SettleCommit(s: Sys, p: nat, link: Link)
      requires ValidConfig(cfg) && Reaches(cfg, trace, s) && Minting() && AtEntry(s, p) && s.stage[p].Committing?
      requires Abs() == CommitEffect(s, p, link).(stage := s.stage)
      modifies `stage, `trace
      ensures Valid() && trace == old(trace) + [Commit(p, link)]
      ensures stage == s.stage[p := Idle]
    {
      CommitHappens(cfg, s, p, link);
      stage := stage[p := Idle];
      assert Abs() == Next(cfg, s, Commit(p, link));
      Record(s, Commit(p, link));
    }
  }
}
