/** The whole reservation-to-order protocol as one system of atomic steps: API requests,
    the Kafka log, one consumer per partition, the sharded tables and the Redis keys.
    A schedule is any list of steps; a step that is not enabled is skipped, so a statement
    about every schedule is a statement about every interleaving, crash and retry. */
module Protocol {
  import opened Domain
  import opened Stock
  import opened Orders
  import ShardKey

  /** `kafka` selects the asynchronous order creator (cmd/api/main.go:120-131); `part` is the
      balancer's hash of the message key, which is the user id. */
  datatype Config = Config(shards: nat, parts: nat, maxRetries: nat, kafka: bool, part: int -> nat)

  // ---------- API requests ----------

  datatype Output = Output(outcome: Outcome, token: QueueToken, remaining: int)

  /** Where a Seckill call stands (internal/service/seckill.go:76-136). */
  datatype Pc =
    | Arrived
    | Checked(a: Activity, now: int)
    | Deducted(a: Activity, now: int, remaining: int)
    | Minted(remaining: int)
    | Done(out: Output)

  /** One Seckill call. `left` is history: the stock right after this call's own decrement,
      present exactly when the decrement happened, whatever the caller saw. */
  datatype Req = Req(
    act: int, user: int, token: string, pc: Pc,
    left: Option<int>, order: Option<Order>, qtok: Option<QueueToken>, msg: Option<OrderMessage>)

  function Refuse(o: Outcome): Pc {
    Done(Output(o, NoToken, 0))
  }

  // ---------- Log and consumers ----------

  /** A log entry either decodes, or leaves whatever a failed decode filled in. */
  datatype Entry = Message(m: OrderMessage) | Undecodable(partial: OrderMessage)

  /** Where Consumer.Run stands with the entry at its position. `Attempt(k)` and `Stored(k)`
      have k failed attempts behind them. */
  datatype Stage =
    | Idle
    | Attempt(k: nat)
    | Stored(k: nat)
    | CallDlq(fails: nat)
    | SendDlq(fails: nat)
    | Committing

  /** History: one call of the DLQ callback, with the number of failed attempts before it. */
  datatype DeadLetter = DeadLetter(p: nat, off: nat, fails: nat)

  // ---------- State ----------

  /** `minted` and `dead` are history; `src[d][i]` is history too, the log offset whose
      delivery inserted row i of shard d. */
  datatype Sys = Sys(
    acts: map<int, Activity>,
    redis: Redis,
    queue: map<QueueToken, TokenState>,
    reqs: seq<Req>,
    minted: set<string>,
    log: seq<seq<Entry>>,
    dbs: seq<Table>,
    src: seq<seq<nat>>,
    committed: seq<nat>,
    pos: seq<nat>,
    stage: seq<Stage>,
    dead: set<DeadLetter>,
    dlqTopic: seq<OrderMessage>)

  ghost predicate ValidConfig(cfg: Config) {
    && ShardCount(cfg.shards)
    && forall u :: cfg.part(u) < cfg.parts
  }

  ghost predicate Shape(cfg: Config, s: Sys) {
    && ValidConfig(cfg)
    && |s.dbs| == |s.src| == cfg.shards
    && |s.log| == |s.committed| == |s.pos| == |s.stage| == cfg.parts
  }

  ghost function Init(cfg: Config): (s: Sys)
    requires ValidConfig(cfg)
    ensures Shape(cfg, s)
  {
    Sys(map[], Redis(map[], map[]), map[], [], {}, seq(cfg.parts, i => []),
        EmptyShards(cfg.shards), seq(cfg.shards, i => []),
        seq(cfg.parts, i => 0), seq(cfg.parts, i => 0), seq(cfg.parts, i => Idle), {}, [])
  }

  // ---------- Pure parts of the services ----------

  /** OrderMaterializer.Handle builds the row from the message. */
  function OrderOf(m: OrderMessage): Order {
    Order(m.orderId, m.userId, m.activityId, m.productId, StatusQueued, m.token, m.producedAt)
  }

  /** KafkaOrderCreator.CreateWithToken builds the message from the order. */
  function MessageOf(o: Order, t: QueueToken, at: int): OrderMessage {
    OrderMessage(o.id, o.activityId, o.userId, o.productId, o.token, t, at)
  }

  function PayloadOf(e: Entry): OrderMessage {
    match e case Message(m) => m case Undecodable(partial) => partial
  }

  /** The next stage after a failed handler call. */
  function Retry(cfg: Config, k: nat): Stage {
    if k < cfg.maxRetries then Attempt(k + 1) else CallDlq(k + 1)
  }

  /** The next stage after the insert of attempt k. */
  function AfterInsert(cfg: Config, k: nat, link: Link): Stage {
    if link == Fine then Stored(k) else Retry(cfg, k)
  }

  /** Requests whose decrement took effect, in a scope. */
  ghost function Reserved(reqs: seq<Req>, sc: Scope): set<int> {
    set i | 0 <= i < |reqs| && reqs[i].left.Some? && In(sc, reqs[i].act, reqs[i].user)
  }

  ghost predicate FreshId(reqs: seq<Req>, id: int) {
    forall i :: 0 <= i < |reqs| && reqs[i].order.Some? ==> reqs[i].order.value.id != id
  }

  // ---------- Steps ----------

  datatype Step =
    // administration
    | CreateActivity(a: Activity)
    | Warm(act: int)
    // one API request
    | Arrive(act: int, user: int, token: string)
    | LookUp(i: nat, now: int, up: bool)
    | Deduct(i: nat, link: Link)
    | Mint(i: nat, id: int, uuid: string, at: int, link: Link)
    | Append(i: nat)
    | Answer(i: nat, ok: bool)
    | CreateNow(i: nat, link: Link)
    // the world
    | Junk(p: nat, partial: OrderMessage)
    | Expire(t: QueueToken)
    // the consumer of partition p
    | Fetch(p: nat)
    | TryInsert(p: nat, link: Link)
    | PutSuccess(p: nat, link: Link)
    | MarkDead(p: nat, reason: string, link: Link)
    | SendDead(p: nat, sent: bool)
    | Commit(p: nat, link: Link)
    | Crash(p: nat)

  /** The hypotheses of the model are the guards of `Mint` (order ids and UUIDs are fresh)
      and of `Warm` (an activity is warmed before its first reservation, not after). */
  ghost predicate Enabled(cfg: Config, s: Sys, st: Step)
    requires Shape(cfg, s)
  {
    match st
    case CreateActivity(a) => a.id !in s.acts
    case Warm(act) => act in s.acts && Reserved(s.reqs, OfActivity(act)) == {}
    case Arrive(act, user, token) => true
    case LookUp(i, now, up) => i < |s.reqs| && s.reqs[i].pc.Arrived?
    case Deduct(i, link) => i < |s.reqs| && s.reqs[i].pc.Checked?
    case Mint(i, id, uuid, at, link) =>
      i < |s.reqs| && s.reqs[i].pc.Deducted? && uuid !in s.minted && FreshId(s.reqs, id)
    case Append(i) => cfg.kafka && i < |s.reqs| && s.reqs[i].msg.Some?
    case Answer(i, ok) =>
      && cfg.kafka && i < |s.reqs| && s.reqs[i].pc.Minted? && s.reqs[i].msg.Some? && s.reqs[i].qtok.Some?
      && (ok ==> Message(s.reqs[i].msg.value) in s.log[cfg.part(s.reqs[i].msg.value.userId)])
    case CreateNow(i, link) =>
      !cfg.kafka && i < |s.reqs| && s.reqs[i].pc.Minted? && s.reqs[i].order.Some? && s.reqs[i].qtok.Some?
    case Junk(p, partial) => p < cfg.parts
    case Expire(t) => true
    case Fetch(p) => p < cfg.parts && s.stage[p] == Idle && s.pos[p] < |s.log[p]|
    case TryInsert(p, link) =>
      p < cfg.parts && s.stage[p].Attempt? && s.pos[p] < |s.log[p]| && s.log[p][s.pos[p]].Message?
    case PutSuccess(p, link) =>
      p < cfg.parts && s.stage[p].Stored? && s.pos[p] < |s.log[p]| && s.log[p][s.pos[p]].Message?
    case MarkDead(p, reason, link) => p < cfg.parts && s.stage[p].CallDlq? && s.pos[p] < |s.log[p]|
    case SendDead(p, sent) => p < cfg.parts && s.stage[p].SendDlq? && s.pos[p] < |s.log[p]|
    case Commit(p, link) => p < cfg.parts && s.stage[p].Committing? && s.pos[p] < |s.log[p]|
    case Crash(p) => p < cfg.parts
  }

  // Effects on one request.

  function LookedUp(acts: map<int, Activity>, r: Req, now: int, up: bool): Req {
    r.(pc :=
       if !up then Refuse(Internal)
       else if r.act !in acts then Refuse(NotFound)
       else if now < acts[r.act].startAt then Refuse(NotStarted)
       else if now >= acts[r.act].endAt then Refuse(Ended)
       else Checked(acts[r.act], now))
  }

  /** What Seckill does with the script's code. */
  function AfterDeduct(r: Req, v: int, link: Link): Req
    requires r.pc.Checked?
  {
    r.(left := if v >= 0 then Some(v) else None,
       pc := if link == LostReply then Refuse(Internal)
             else if v == -1 then Refuse(SoldOut)
             else if v == -2 then Refuse(UserLimit)
             else if v == -3 then Refuse(NotWarmed)
             else if v < 0 then Refuse(Internal)
             else Deducted(r.pc.a, r.pc.now, v))
  }

  /** The same for a call that may not have reached the server. */
  function AfterCall(r: Req, v: int, link: Link): Req
    requires r.pc.Checked?
  {
    if link == Unreached then r.(pc := Refuse(Internal)) else AfterDeduct(r, v, link)
  }

  function AfterMint(cfg: Config, r: Req, id: int, uuid: string, at: int, link: Link): Req
    requires r.pc.Deducted?
  {
    var o := Order(id, r.user, r.act, r.pc.a.productId, StatusQueued, r.token, r.pc.now);
    var t := if link == Fine then Uuid(uuid) else OrderNo(id);
    r.(pc := Minted(r.pc.remaining), order := Some(o), qtok := Some(t),
       msg := if cfg.kafka then Some(MessageOf(o, t, at)) else None)
  }

  function Finish(r: Req, outcome: Outcome): Req
    requires r.pc.Minted? && r.qtok.Some?
  {
    r.(pc := if outcome == Queued then Done(Output(Queued, r.qtok.value, r.pc.remaining)) else Refuse(outcome))
  }

  /** INSERT by the delivery of log offset `off`; a clash changes nothing. */
  ghost function Store(s: Sys, o: Order, off: nat): Sys
    requires ShardCount(|s.dbs|) && |s.src| == |s.dbs|
  {
    s.(dbs := Create(s.dbs, o), src := Noted(s.dbs, s.src, o, off))
  }

  ghost function Noted(dbs: seq<Table>, src: seq<seq<nat>>, o: Order, off: nat): (src': seq<seq<nat>>)
    requires ShardCount(|dbs|) && |src| == |dbs|
    ensures |src'| == |src|
  {
    var d := ShardKey.DBIndex(o.userId, |dbs|);
    if Clashes(dbs[d], o) then src else src[d := src[d] + [off]]
  }

  // Effects on the whole system, one per step that touches more than one field.

  ghost function DeductEffect(s: Sys, i: nat, link: Link): Sys
    requires i < |s.reqs| && s.reqs[i].pc.Checked?
  {
    var r := s.reqs[i];
    var (redis', v) := Script(s.redis, r.act, r.user, 1, r.pc.a.perUserLimit);
    s.(redis := if link == Unreached then s.redis else redis', reqs := s.reqs[i := AfterCall(r, v, link)])
  }

  ghost function MintEffect(cfg: Config, s: Sys, i: nat, id: int, uuid: string, at: int, link: Link): Sys
    requires i < |s.reqs| && s.reqs[i].pc.Deducted?
  {
    s.(reqs := s.reqs[i := AfterMint(cfg, s.reqs[i], id, uuid, at, link)],
       minted := s.minted + {uuid},
       queue := if link == Unreached then s.queue else s.queue[Uuid(uuid) := Waiting])
  }

  /** What Seckill makes of the synchronous insert's answer. */
  function SyncOutcome(dbs: seq<Table>, o: Order, link: Link): Outcome
    requires ShardCount(|dbs|)
  {
    if link != Fine then Internal
    else if Clashes(Home(dbs, o.userId), o) then Duplicate
    else Queued
  }

  ghost function CreateNowEffect(s: Sys, i: nat, link: Link): Sys
    requires ShardCount(|s.dbs|) && |s.src| == |s.dbs|
    requires i < |s.reqs| && s.reqs[i].pc.Minted? && s.reqs[i].order.Some? && s.reqs[i].qtok.Some?
  {
    var o := s.reqs[i].order.value;
    (if link == Unreached then s else Store(s, o, 0))
    .(reqs := s.reqs[i := Finish(s.reqs[i], SyncOutcome(s.dbs, o, link))])
  }

  /** The consumer of p looks at a decodable entry. */
  ghost predicate AtMessage(s: Sys, p: nat) {
    p < |s.log| && p < |s.pos| && p < |s.stage| && s.pos[p] < |s.log[p]| && s.log[p][s.pos[p]].Message?
  }

  ghost function InsertEffect(cfg: Config, s: Sys, p: nat, link: Link): Sys
    requires ShardCount(|s.dbs|) && |s.src| == |s.dbs| && AtMessage(s, p) && s.stage[p].Attempt?
  {
    (if link == Unreached then s else Store(s, OrderOf(s.log[p][s.pos[p]].m), s.pos[p]))
    .(stage := s.stage[p := AfterInsert(cfg, s.stage[p].k, link)])
  }

  ghost function SuccessEffect(cfg: Config, s: Sys, p: nat, link: Link): Sys
    requires AtMessage(s, p) && s.stage[p].Stored?
  {
    var m := s.log[p][s.pos[p]].m;
    s.(queue := if link == Unreached then s.queue else s.queue[m.queueToken := Success(m.orderId)],
       stage := s.stage[p := if link == Fine then Committing else Retry(cfg, s.stage[p].k)])
  }

  ghost predicate AtEntry(s: Sys, p: nat) {
    && p < |s.log| && p < |s.pos| && p < |s.stage| && p < |s.committed| && s.pos[p] < |s.log[p]|
  }

  ghost function MarkEffect(s: Sys, p: nat, reason: string, link: Link): Sys
    requires AtEntry(s, p) && s.stage[p].CallDlq?
  {
    var e := s.log[p][s.pos[p]];
    var f := s.stage[p].fails;
    s.(queue := if e.Message? && e.m.queueToken != NoToken && link != Unreached
                then s.queue[e.m.queueToken := Failed(reason)] else s.queue,
       dead := s.dead + {DeadLetter(p, s.pos[p], f)},
       stage := s.stage[p := SendDlq(f)])
  }

  ghost function SendEffect(s: Sys, p: nat, sent: bool): Sys
    requires AtEntry(s, p)
  {
    var m := PayloadOf(s.log[p][s.pos[p]]);
    s.(dlqTopic := if m.orderId != 0 && sent then s.dlqTopic + [m] else s.dlqTopic,
       stage := s.stage[p := Committing])
  }

  function CommittedAfter(committed: nat, pos: nat, link: Link): nat {
    if link == Unreached then committed else pos + 1
  }

  /** A failed commit after a decoded message ends the process, and the restarted one resumes
      at the committed offset; after an undecodable entry the error is ignored. */
  function ResumeAfter(committed: nat, pos: nat, e: Entry, link: Link): nat {
    if link == Fine || e.Undecodable? then pos + 1 else CommittedAfter(committed, pos, link)
  }

  ghost function CommitEffect(s: Sys, p: nat, link: Link): Sys
    requires AtEntry(s, p)
  {
    s.(committed := s.committed[p := CommittedAfter(s.committed[p], s.pos[p], link)],
       pos := s.pos[p := ResumeAfter(s.committed[p], s.pos[p], s.log[p][s.pos[p]], link)],
       stage := s.stage[p := Idle])
  }

  ghost function Appended(log: seq<seq<Entry>>, p: nat, e: Entry): seq<seq<Entry>>
    requires p < |log|
  {
    log[p := log[p] + [e]]
  }

  ghost function Apply(cfg: Config, s: Sys, st: Step): (s': Sys)
    requires Shape(cfg, s) && Enabled(cfg, s, st)
    ensures Shape(cfg, s')
  {
    match st
    case CreateActivity(a) => s.(acts := s.acts[a.id := a])
    case Warm(act) => s.(redis := s.redis.(stock := s.redis.stock[act := s.acts[act].totalStock]))
    case Arrive(act, user, token) =>
      s.(reqs := s.reqs + [Req(act, user, token, Arrived, None, None, None, None)])
    case LookUp(i, now, up) => s.(reqs := s.reqs[i := LookedUp(s.acts, s.reqs[i], now, up)])
    case Deduct(i, link) => DeductEffect(s, i, link)
    case Mint(i, id, uuid, at, link) => MintEffect(cfg, s, i, id, uuid, at, link)
    case Append(i) =>
      s.(log := Appended(s.log, cfg.part(s.reqs[i].msg.value.userId), Message(s.reqs[i].msg.value)))
    case Answer(i, ok) => s.(reqs := s.reqs[i := Finish(s.reqs[i], if ok then Queued else Internal)])
    case CreateNow(i, link) => CreateNowEffect(s, i, link)
    case Junk(p, partial) => s.(log := Appended(s.log, p, Undecodable(partial)))
    case Expire(t) => s.(queue := s.queue - {t})
    case Fetch(p) =>
      s.(stage := s.stage[p := if s.log[p][s.pos[p]].Message? then Attempt(0) else CallDlq(0)])
    case TryInsert(p, link) => InsertEffect(cfg, s, p, link)
    case PutSuccess(p, link) => SuccessEffect(cfg, s, p, link)
    case MarkDead(p, reason, link) => MarkEffect(s, p, reason, link)
    case SendDead(p, sent) => SendEffect(s, p, sent)
    case Commit(p, link) => CommitEffect(s, p, link)
    case Crash(p) => s.(pos := s.pos[p := s.committed[p]], stage := s.stage[p := Idle])
  }

  ghost function Next(cfg: Config, s: Sys, st: Step): (s': Sys)
    requires Shape(cfg, s)
    ensures Shape(cfg, s')
  {
    if Enabled(cfg, s, st) then Apply(cfg, s, st) else s
  }

  // The enabled steps whose effects have names, without looking into `Apply`.

  lemma InsertHappens(cfg: Config, s: Sys, p: nat, link: Link)
    requires Shape(cfg, s) && AtMessage(s, p) && s.stage[p].Attempt?
    ensures Next(cfg, s, TryInsert(p, link)) == InsertEffect(cfg, s, p, link)
  {
  }

  lemma CreateNowHappens(cfg: Config, s: Sys, i: nat, link: Link)
    requires Shape(cfg, s) && !cfg.kafka && i < |s.reqs| && s.reqs[i].pc.Minted? && s.reqs[i].order.Some?
        && s.reqs[i].qtok.Some?
    ensures Next(cfg, s, CreateNow(i, link)) == CreateNowEffect(s, i, link)
  {
  }

  lemma MintHappens(cfg: Config, s: Sys, i: nat, id: int, x: string, at: int, link: Link)
    requires Shape(cfg, s) && i < |s.reqs| && s.reqs[i].pc.Deducted? && x !in s.minted && FreshId(s.reqs, id)
    ensures Next(cfg, s, Mint(i, id, x, at, link)) == MintEffect(cfg, s, i, id, x, at, link)
  {
  }

  lemma MarkHappens(cfg: Config, s: Sys, p: nat, reason: string, link: Link)
    requires Shape(cfg, s) && AtEntry(s, p) && s.stage[p].CallDlq?
    ensures Next(cfg, s, MarkDead(p, reason, link)) == MarkEffect(s, p, reason, link)
  {
  }

  lemma SuccessHappens(cfg: Config, s: Sys, p: nat, link: Link)
    requires Shape(cfg, s) && AtMessage(s, p) && s.stage[p].Stored?
    ensures Next(cfg, s, PutSuccess(p, link)) == SuccessEffect(cfg, s, p, link)
  {
  }

  lemma SendHappens(cfg: Config, s: Sys, p: nat, sent: bool)
    requires Shape(cfg, s) && AtEntry(s, p) && s.stage[p].SendDlq?
    ensures Next(cfg, s, SendDead(p, sent)) == SendEffect(s, p, sent)
  {
  }

  lemma CommitHappens(cfg: Config, s: Sys, p: nat, link: Link)
    requires Shape(cfg, s) && AtEntry(s, p) && s.stage[p].Committing?
    ensures Next(cfg, s, Commit(p, link)) == CommitEffect(s, p, link)
  {
  }

  ghost function Run(cfg: Config, s: Sys, tr: seq<Step>): (s': Sys)
    requires Shape(cfg, s)
    ensures Shape(cfg, s')
    decreases |tr|
  {
    if tr == [] then s else Next(cfg, Run(cfg, s, tr[..|tr| - 1]), tr[|tr| - 1])
  }

  /** The state after a schedule from the empty system. */
  ghost function Reach(cfg: Config, tr: seq<Step>): (s: Sys)
    requires ValidConfig(cfg)
    ensures Shape(cfg, s)
  {
    Run(cfg, Init(cfg), tr)
  }

  lemma ReachStep(cfg: Config, tr: seq<Step>, st: Step)
    requires ValidConfig(cfg)
    ensures Reach(cfg, tr + [st]) == Next(cfg, Reach(cfg, tr), st)
  {
    assert (tr + [st])[..|tr|] == tr;
  }

  lemma {:induction false} RunAppend(cfg: Config, s: Sys, tr: seq<Step>, more: seq<Step>)
    requires Shape(cfg, s)
    ensures Run(cfg, s, tr + more) == Run(cfg, Run(cfg, s, tr), more)
    decreases |more|
  {
    if more == [] {
      assert tr + more == tr;
    } else {
      var n := |more| - 1;
      assert (tr + more)[..|tr + more| - 1] == tr + more[..n];
      RunAppend(cfg, s, tr, more[..n]);
    }
  }
}
