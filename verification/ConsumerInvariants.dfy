/** What every step keeps about the consumers: what lies behind a position is settled, what
    lies between the committed offset and the position is undecodable, rows carry the offset
    they came from, and success is only ever written over a stored row. */
module ConsumerInvariants {
  import opened Domain
  import opened Orders
  import opened Protocol
  import opened ApiInvariants
  import opened RowInvariants
  import ShardKey

  // ---------- Settled offsets ----------

  /** The DLQ callback was called for this offset. */
  ghost predicate Handed(dead: set<DeadLetter>, p: nat, off: nat) {
    exists f :: DeadLetter(p, off, f) in dead
  }

  predicate KeyStored(dbs: seq<Table>, m: OrderMessage)
    requires ShardCount(|dbs|)
  {
    HasKey(Home(dbs, m.userId), OrderOf(m))
  }

  ghost predicate Settled(log: seq<seq<Entry>>, dbs: seq<Table>, dead: set<DeadLetter>, p: nat, off: nat)
    requires ShardCount(|dbs|) && p < |log| && off < |log[p]|
  {
    Handed(dead, p, off) || (log[p][off].Message? && KeyStored(dbs, log[p][off].m))
  }

  /** How many attempts precede a DLQ call. */
  function FailsFor(cfg: Config, e: Entry): nat {
    if e.Message? then cfg.maxRetries + 1 else 0
  }

  ghost predicate StageOk(cfg: Config, log: seq<seq<Entry>>, dbs: seq<Table>, dead: set<DeadLetter>, p: nat, pos: nat,
                          stage: Stage)
    requires ShardCount(|dbs|) && p < |log| && pos < |log[p]|
  {
    var e := log[p][pos];
    match stage
    case Idle => true
    case Attempt(k) => k <= cfg.maxRetries && e.Message?
    case Stored(k) => k <= cfg.maxRetries && e.Message? && KeyStored(dbs, e.m)
    case CallDlq(f) => f == FailsFor(cfg, e)
    case SendDlq(f) => Handed(dead, p, pos)
    case Committing => Settled(log, dbs, dead, p, pos)
  }

  ghost predicate PartOk(cfg: Config, log: seq<seq<Entry>>, dbs: seq<Table>, dead: set<DeadLetter>,
                         p: nat, committed: nat, pos: nat, stage: Stage)
    requires ShardCount(|dbs|) && p < |log|
  {
    && committed <= pos <= |log[p]|
    && (forall off :: committed <= off < pos ==> log[p][off].Undecodable?)
    && (forall off :: 0 <= off < pos ==> Settled(log, dbs, dead, p, off))
    && (stage != Idle ==> pos < |log[p]| && StageOk(cfg, log, dbs, dead, p, pos, stage))
  }

  ghost predicate PartsOk(cfg: Config, log: seq<seq<Entry>>, dbs: seq<Table>, dead: set<DeadLetter>,
                          committed: seq<nat>, pos: seq<nat>, stage: seq<Stage>)
    requires ShardCount(|dbs|) && |committed| == |pos| == |stage| == |log|
  {
    forall p :: 0 <= p < |log| ==> PartOk(cfg, log, dbs, dead, p, committed[p], pos[p], stage[p])
  }

  /** Every call of the DLQ callback names a log entry and, for a decodable one, comes after
      all maxRetries + 1 attempts failed. */
  ghost predicate DeadOk(cfg: Config, log: seq<seq<Entry>>, dead: set<DeadLetter>) {
    forall x :: x in dead ==> x.p < |log| && x.off < |log[x.p]| && x.fails == FailsFor(cfg, log[x.p][x.off])
  }

  lemma StoredGrows(dbs: seq<Table>, dbs': seq<Table>, m: OrderMessage)
    requires ShardCount(|dbs|) && TablesGrow(dbs, dbs') && KeyStored(dbs, m)
    ensures KeyStored(dbs', m)
  {
    HasKeyGrows(Home(dbs, m.userId), Home(dbs', m.userId), OrderOf(m));
  }

  lemma SettledGrows(log: seq<seq<Entry>>, log': seq<seq<Entry>>, dbs: seq<Table>, dbs': seq<Table>,
                     dead: set<DeadLetter>, dead': set<DeadLetter>, p: nat, off: nat)
    requires ShardCount(|dbs|) && TablesGrow(dbs, dbs') && LogGrows(log, log') && dead <= dead'
    requires p < |log| && off < |log[p]| && Settled(log, dbs, dead, p, off)
    ensures |log[p]| <= |log'[p]| && log'[p][off] == log[p][off] && Settled(log', dbs', dead', p, off)
  {
    assert log[p] <= log'[p];
    if Handed(dead, p, off) {
      var f :| DeadLetter(p, off, f) in dead;
      assert DeadLetter(p, off, f) in dead';
    } else {
      StoredGrows(dbs, dbs', log[p][off].m);
    }
  }

  lemma PartGrows(cfg: Config, log: seq<seq<Entry>>, log': seq<seq<Entry>>, dbs: seq<Table>, dbs': seq<Table>,
                  dead: set<DeadLetter>, dead': set<DeadLetter>, p: nat, committed: nat, pos: nat, stage: Stage)
    requires ShardCount(|dbs|) && TablesGrow(dbs, dbs') && LogGrows(log, log') && dead <= dead'
    requires p < |log| && PartOk(cfg, log, dbs, dead, p, committed, pos, stage)
    ensures PartOk(cfg, log', dbs', dead', p, committed, pos, stage)
  {
    assert log[p] <= log'[p];
    forall off | 0 <= off < pos ensures Settled(log', dbs', dead', p, off) {
      SettledGrows(log, log', dbs, dbs', dead, dead', p, off);
    }
    if stage != Idle {
      match stage {
        case Stored(_) => StoredGrows(dbs, dbs', log[p][pos].m);
        case SendDlq(_) => var f :| DeadLetter(p, pos, f) in dead; assert DeadLetter(p, pos, f) in dead';
        case Committing => SettledGrows(log, log', dbs, dbs', dead, dead', p, pos);
        case _ =>
      }
    }
  }

  predicate Consumes(st: Step) {
    st.Fetch? || st.TryInsert? || st.PutSuccess? || st.MarkDead? || st.SendDead? || st.Commit? || st.Crash?
  }

  /** A step moves at most the one partition it belongs to. */
  lemma OnlyOwnPartition(cfg: Config, s: Sys, st: Step, q: nat)
    requires Shape(cfg, s) && q < cfg.parts
    requires Consumes(st) ==> st.p != q
    ensures var s' := Next(cfg, s, st);
            s'.committed[q] == s.committed[q] && s'.pos[q] == s.pos[q] && s'.stage[q] == s.stage[q]
  {
  }

  lemma DeadGrows(cfg: Config, s: Sys, st: Step)
    requires Shape(cfg, s)
    ensures s.dead <= Next(cfg, s, st).dead
  {
  }

  lemma HasKeyAppend(t: Table, o: Order)
    ensures HasKey(t + [o], o)
  {
    assert SameKey((t + [o])[|t|], o);
  }

  /** A primary-key clash of a message is a clash with its own row, so after a Create that
      answered, whatever it answered, the key is stored. */
  lemma AnsweredMeansStored(cfg: Config, s: Sys, p: nat)
    requires Shape(cfg, s) && ReqsOk(cfg, s.acts, s.reqs) && Distinct(s.reqs) && LogOk(cfg, s.reqs, s.log)
    requires RowsOk(s.reqs, s.dbs)
    requires p < cfg.parts && s.pos[p] < |s.log[p]| && s.log[p][s.pos[p]].Message?
    ensures var m := s.log[p][s.pos[p]].m; KeyStored(Create(s.dbs, OrderOf(m)), m)
    ensures var m := s.log[p][s.pos[p]].m; Clashes(Home(s.dbs, m.userId), OrderOf(m)) <==> KeyStored(s.dbs, m)
  {
    var m := s.log[p][s.pos[p]].m;
    var t := Home(s.dbs, m.userId);
    var i := Author(cfg, s, p);
    HasKeyAppend(t, OrderOf(m));
    if HasId(t, m.orderId) {
      var d := ShardKey.DBIndex(m.userId, |s.dbs|);
      var k :| 0 <= k < |t| && t[k].id == m.orderId;
      assert Backed(s.reqs, s.dbs[d][k]);
      var j :| 0 <= j < |s.reqs| && Backs(s.reqs[j], s.dbs[d][k]);
      assert ReqOk(cfg, s.acts, s.reqs[j]);
      assert Apart(s.reqs[i], s.reqs[j]) || i == j;
      assert SameKey(t[k], OrderOf(m));
    }
  }

  ghost predicate ConsumerOk(cfg: Config, s: Sys)
    requires Shape(cfg, s)
  {
    PartsOk(cfg, s.log, s.dbs, s.dead, s.committed, s.pos, s.stage) && DeadOk(cfg, s.log, s.dead)
  }

  lemma OwnOffsets(cfg: Config, s: Sys, st: Step)
    requires Shape(cfg, s) && ShardCount(|s.dbs|) && (st.Commit? || st.Crash?) && Enabled(cfg, s, st)
    requires PartOk(cfg, s.log, s.dbs, s.dead, st.p, s.committed[st.p], s.pos[st.p], s.stage[st.p])
    ensures var s' := Apply(cfg, s, st);
            PartOk(cfg, s'.log, s'.dbs, s'.dead, st.p, s'.committed[st.p], s'.pos[st.p], s'.stage[st.p])
  {
  }

  lemma OwnPartitionStep(cfg: Config, s: Sys, st: Step)
    requires Shape(cfg, s) && ReqsOk(cfg, s.acts, s.reqs) && Distinct(s.reqs) && LogOk(cfg, s.reqs, s.log)
    requires RowsOk(s.reqs, s.dbs) && Consumes(st) && Enabled(cfg, s, st)
    requires PartOk(cfg, s.log, s.dbs, s.dead, st.p, s.committed[st.p], s.pos[st.p], s.stage[st.p])
    ensures var s' := Apply(cfg, s, st);
            PartOk(cfg, s'.log, s'.dbs, s'.dead, st.p, s'.committed[st.p], s'.pos[st.p], s'.stage[st.p])
  {
    if st.Commit? || st.Crash? {
      OwnOffsets(cfg, s, st);
    } else {
      var p := st.p;
      var s' := Apply(cfg, s, st);
      GrowStep(cfg, s, st);
      DeadGrows(cfg, s, st);
      PartGrows(cfg, s.log, s'.log, s.dbs, s'.dbs, s.dead, s'.dead, p, s.committed[p], s.pos[p], s.stage[p]);
      if st.TryInsert? {
        AnsweredMeansStored(cfg, s, p);
      } else if st.MarkDead? {
        assert DeadLetter(p, s.pos[p], s.stage[p].fails) in s'.dead;
      }
    }
  }

  lemma ConsumerStep(cfg: Config, s: Sys, st: Step)
    requires Shape(cfg, s) && ReqsOk(cfg, s.acts, s.reqs) && Distinct(s.reqs) && LogOk(cfg, s.reqs, s.log)
    requires RowsOk(s.reqs, s.dbs) && ConsumerOk(cfg, s)
    ensures ConsumerOk(cfg, Next(cfg, s, st))
  {
    var s' := Next(cfg, s, st);
    GrowStep(cfg, s, st);
    DeadGrows(cfg, s, st);
    forall q | 0 <= q < |s.log|
      ensures PartOk(cfg, s'.log, s'.dbs, s'.dead, q, s'.committed[q], s'.pos[q], s'.stage[q])
    {
      assert PartOk(cfg, s.log, s.dbs, s.dead, q, s.committed[q], s.pos[q], s.stage[q]);
      if Enabled(cfg, s, st) && Consumes(st) && st.p == q {
        OwnPartitionStep(cfg, s, st);
      } else if Enabled(cfg, s, st) {
        OnlyOwnPartition(cfg, s, st, q);
        PartGrows(cfg, s.log, s'.log, s.dbs, s'.dbs, s.dead, s'.dead, q, s.committed[q], s.pos[q], s.stage[q]);
      }
    }
    DeadStep(cfg, s, st);
  }

  lemma DeadStep(cfg: Config, s: Sys, st: Step)
    requires Shape(cfg, s) && ConsumerOk(cfg, s)
    ensures var s' := Next(cfg, s, st); DeadOk(cfg, s'.log, s'.dead)
  {
    var s' := Next(cfg, s, st);
    GrowStep(cfg, s, st);
    forall x | x in s'.dead ensures x.p < |s'.log| && x.off < |s'.log[x.p]|
        && x.fails == FailsFor(cfg, s'.log[x.p][x.off])
    {
      if x in s.dead {
        assert s.log[x.p] <= s'.log[x.p];
      } else {
        assert st.MarkDead? && Enabled(cfg, s, st);
        assert PartOk(cfg, s.log, s.dbs, s.dead, st.p, s.committed[st.p], s.pos[st.p], s.stage[st.p]);
      }
    }
  }

  // ---------- Provenance of rows ----------

  /** Row k of shard d was inserted by the delivery of offset src[d][k]: the entry there is
      its message, it is not far ahead of the committed offset, and every earlier message
      with the same key had been dead-lettered. */
  ghost predicate RowSrcOk(cfg: Config, log: seq<seq<Entry>>, committed: seq<nat>, dead: set<DeadLetter>, row: Order,
                           off: nat)
    requires |committed| == |log|
  {
    var p := cfg.part(row.userId);
    && p < |log| && off < |log[p]| && log[p][off].Message? && OrderOf(log[p][off].m) == row
    && (forall o :: committed[p] <= o < off ==> log[p][o].Undecodable?)
    && (forall o :: 0 <= o < off && log[p][o].Message? && SameKey(OrderOf(log[p][o].m), row) ==> Handed(dead, p, o))
  }

  /** One shard: every row has its offset, and one user's rows have increasing offsets. */
  ghost predicate TableSrcOk(cfg: Config, log: seq<seq<Entry>>, committed: seq<nat>, dead: set<DeadLetter>, t: Table,
                             src: seq<nat>)
    requires |committed| == |log|
  {
    && |src| == |t|
    && (cfg.kafka ==>
          && (forall k :: 0 <= k < |t| ==> RowSrcOk(cfg, log, committed, dead, t[k], src[k]))
          && (forall k, l :: 0 <= k < l < |t| && t[k].userId == t[l].userId ==> src[k] < src[l]))
  }

  ghost predicate SrcOk(cfg: Config, s: Sys)
    requires Shape(cfg, s)
  {
    forall d :: 0 <= d < cfg.shards ==> TableSrcOk(cfg, s.log, s.committed, s.dead, s.dbs[d], s.src[d])
  }

  lemma RowSrcGrows(cfg: Config, s: Sys, s': Sys, row: Order, off: nat)
    requires Shape(cfg, s) && Shape(cfg, s') && LogGrows(s.log, s'.log) && s.dead <= s'.dead
    requires forall p :: 0 <= p < cfg.parts ==> s.committed[p] <= s'.committed[p]
    requires RowSrcOk(cfg, s.log, s.committed, s.dead, row, off)
    ensures RowSrcOk(cfg, s'.log, s'.committed, s'.dead, row, off)
  {
    var p := cfg.part(row.userId);
    assert s.log[p] <= s'.log[p];
    forall o | 0 <= o < off && s'.log[p][o].Message? && SameKey(OrderOf(s'.log[p][o].m), row)
      ensures Handed(s'.dead, p, o)
    {
      var f :| DeadLetter(p, o, f) in s.dead;
      assert DeadLetter(p, o, f) in s'.dead;
    }
  }

  lemma TableSrcGrows(cfg: Config, s: Sys, s': Sys, d: nat)
    requires Shape(cfg, s) && Shape(cfg, s') && LogGrows(s.log, s'.log) && s.dead <= s'.dead
    requires forall p :: 0 <= p < cfg.parts ==> s.committed[p] <= s'.committed[p]
    requires d < cfg.shards && TableSrcOk(cfg, s.log, s.committed, s.dead, s.dbs[d], s.src[d])
    ensures TableSrcOk(cfg, s'.log, s'.committed, s'.dead, s.dbs[d], s.src[d])
  {
    if cfg.kafka {
      forall k | 0 <= k < |s.dbs[d]|
        ensures RowSrcOk(cfg, s'.log, s'.committed, s'.dead, s.dbs[d][k], s.src[d][k])
      {
        RowSrcGrows(cfg, s, s', s.dbs[d][k], s.src[d][k]);
      }
    }
  }

  lemma CommittedGrows(cfg: Config, s: Sys, st: Step)
    requires Shape(cfg, s) && ConsumerOk(cfg, s)
    ensures forall p :: 0 <= p < cfg.parts ==> s.committed[p] <= Next(cfg, s, st).committed[p]
  {
    if Enabled(cfg, s, st) && st.Commit? {
      assert PartOk(cfg, s.log, s.dbs, s.dead, st.p, s.committed[st.p], s.pos[st.p], s.stage[st.p]);
    }
  }

  /** The row a delivery is about to insert. */
  lemma NewRowSrc(cfg: Config, s: Sys, p: nat, k: nat)
    requires Shape(cfg, s) && cfg.kafka && ReqsOk(cfg, s.acts, s.reqs) && Distinct(s.reqs) && LogOk(cfg, s.reqs, s.log)
    requires RowsOk(s.reqs, s.dbs) && ConsumerOk(cfg, s) && SrcOk(cfg, s)
    requires p < cfg.parts && s.stage[p] == Attempt(k) && s.pos[p] < |s.log[p]| && s.log[p][s.pos[p]].Message?
    requires !KeyStored(s.dbs, s.log[p][s.pos[p]].m)
    ensures var o := OrderOf(s.log[p][s.pos[p]].m);
            var d := ShardKey.DBIndex(o.userId, cfg.shards);
            && RowSrcOk(cfg, s.log, s.committed, s.dead, o, s.pos[p])
            && forall l :: 0 <= l < |s.dbs[d]| && s.dbs[d][l].userId == o.userId ==> s.src[d][l] < s.pos[p]
  {
    var off := s.pos[p];
    var m := s.log[p][off].m;
    var i := Author(cfg, s, p);
    var d := ShardKey.DBIndex(m.userId, cfg.shards);
    assert PartOk(cfg, s.log, s.dbs, s.dead, p, s.committed[p], s.pos[p], s.stage[p]);
    forall o | 0 <= o < off && s.log[p][o].Message? && SameKey(OrderOf(s.log[p][o].m), OrderOf(m))
      ensures Handed(s.dead, p, o)
    {
      assert Settled(s.log, s.dbs, s.dead, p, o);
      SameKeyStored(s.dbs, s.log[p][o].m, m);
    }
    forall l | 0 <= l < |s.dbs[d]| && s.dbs[d][l].userId == m.userId
      ensures s.src[d][l] < off
    {
      assert TableSrcOk(cfg, s.log, s.committed, s.dead, s.dbs[d], s.src[d]);
      assert RowSrcOk(cfg, s.log, s.committed, s.dead, s.dbs[d][l], s.src[d][l]);
      if s.src[d][l] == off {
        assert SameKey(s.dbs[d][l], OrderOf(m));
      }
    }
  }

  lemma SameKeyStored(dbs: seq<Table>, m: OrderMessage, m': OrderMessage)
    requires ShardCount(|dbs|) && SameKey(OrderOf(m), OrderOf(m'))
    ensures KeyStored(dbs, m) ==> KeyStored(dbs, m')
  {
    if KeyStored(dbs, m) {
      var t := Home(dbs, m.userId);
      var i :| 0 <= i < |t| && SameKey(t[i], OrderOf(m));
      assert SameKey(t[i], OrderOf(m'));
    }
  }

  lemma TableSrcAppend(cfg: Config, log: seq<seq<Entry>>, committed: seq<nat>, dead: set<DeadLetter>,
                       t: Table, src: seq<nat>, o: Order, off: nat)
    requires |committed| == |log| && TableSrcOk(cfg, log, committed, dead, t, src)
    requires cfg.kafka ==> RowSrcOk(cfg, log, committed, dead, o, off)
    requires cfg.kafka ==> forall l :: 0 <= l < |t| && t[l].userId == o.userId ==> src[l] < off
    ensures TableSrcOk(cfg, log, committed, dead, t + [o], src + [off])
  {
  }

  lemma SrcStep(cfg: Config, s: Sys, st: Step)
    requires Shape(cfg, s) && ReqsOk(cfg, s.acts, s.reqs) && Distinct(s.reqs) && LogOk(cfg, s.reqs, s.log)
    requires RowsOk(s.reqs, s.dbs) && ConsumerOk(cfg, s) && SrcOk(cfg, s)
    ensures SrcOk(cfg, Next(cfg, s, st))
  {
    var s' := Next(cfg, s, st);
    GrowStep(cfg, s, st);
    DeadGrows(cfg, s, st);
    CommittedGrows(cfg, s, st);
    forall d | 0 <= d < cfg.shards
      ensures TableSrcOk(cfg, s'.log, s'.committed, s'.dead, s'.dbs[d], s'.src[d])
    {
      TableSrcGrows(cfg, s, s', d);
      if Inserts(st) && Enabled(cfg, s, st) {
        InsertedSrc(cfg, s, st, d);
      } else if Enabled(cfg, s, st) {
        TablesOnlyByInserts(cfg, s, st);
      }
    }
  }

  lemma InsertedSrc(cfg: Config, s: Sys, st: Step, d: nat)
    requires Shape(cfg, s) && ReqsOk(cfg, s.acts, s.reqs) && Distinct(s.reqs) && LogOk(cfg, s.reqs, s.log)
    requires RowsOk(s.reqs, s.dbs) && ConsumerOk(cfg, s) && SrcOk(cfg, s)
    requires Inserts(st) && Enabled(cfg, s, st) && d < cfg.shards
    ensures var s' := Apply(cfg, s, st); TableSrcOk(cfg, s'.log, s'.committed, s'.dead, s'.dbs[d], s'.src[d])
  {
    var o := Inserted(s, st);
    var t := s.dbs[d];
    assert TableSrcOk(cfg, s.log, s.committed, s.dead, t, s.src[d]);
    if d == ShardKey.DBIndex(o.userId, cfg.shards) && !Clashes(t, o) {
      if st.TryInsert? {
        AnsweredMeansStored(cfg, s, st.p);
        var i := Author(cfg, s, st.p);
        assert cfg.kafka by { assert ReqOk(cfg, s.acts, s.reqs[i]); }
        NewRowSrc(cfg, s, st.p, s.stage[st.p].k);
        TableSrcAppend(cfg, s.log, s.committed, s.dead, t, s.src[d], o, s.pos[st.p]);
      } else {
        TableSrcAppend(cfg, s.log, s.committed, s.dead, t, s.src[d], o, 0);
      }
    }
  }

  // ---------- Success is sound ----------

  predicate SuccessFor(r: Req, t: QueueToken, id: int, dbs: seq<Table>)
    requires ShardCount(|dbs|)
  {
    && r.qtok == Some(t) && r.order.Some? && r.order.value.id == id
    && HasKey(Home(dbs, r.user), r.order.value)
  }

  ghost predicate SuccessOk(reqs: seq<Req>, queue: map<QueueToken, TokenState>, dbs: seq<Table>)
    requires ShardCount(|dbs|)
  {
    forall t :: t in queue && queue[t].Success? ==>
      exists i :: 0 <= i < |reqs| && SuccessFor(reqs[i], t, queue[t].orderId, dbs)
  }

  lemma SuccessGrows(reqs: seq<Req>, reqs': seq<Req>, queue: map<QueueToken, TokenState>, dbs: seq<Table>,
                     dbs': seq<Table>)
    requires ShardCount(|dbs|) && TablesGrow(dbs, dbs') && ReqsGrow(reqs, reqs') && SuccessOk(reqs, queue, dbs)
    ensures SuccessOk(reqs', queue, dbs')
  {
    forall t | t in queue && queue[t].Success?
      ensures exists i :: 0 <= i < |reqs'| && SuccessFor(reqs'[i], t, queue[t].orderId, dbs')
    {
      var i :| 0 <= i < |reqs| && SuccessFor(reqs[i], t, queue[t].orderId, dbs);
      assert Keeps(reqs[i], reqs'[i]);
      HasKeyGrows(Home(dbs, reqs[i].user), Home(dbs', reqs[i].user), reqs[i].order.value);
      assert SuccessFor(reqs'[i], t, queue[t].orderId, dbs');
    }
  }

  lemma PutSuccessOk(cfg: Config, s: Sys, p: nat)
    requires Shape(cfg, s) && ReqsOk(cfg, s.acts, s.reqs) && LogOk(cfg, s.reqs, s.log) && ConsumerOk(cfg, s)
    requires p < cfg.parts && AtMessage(s, p) && s.stage[p].Stored?
    ensures var m := s.log[p][s.pos[p]].m;
            exists i :: 0 <= i < |s.reqs| && SuccessFor(s.reqs[i], m.queueToken, m.orderId, s.dbs)
  {
    var i := Author(cfg, s, p);
    var m := s.log[p][s.pos[p]].m;
    assert PartOk(cfg, s.log, s.dbs, s.dead, p, s.committed[p], s.pos[p], s.stage[p]);
    assert ReqOk(cfg, s.acts, s.reqs[i]);
    KeyOfOrder(s.dbs, m, s.reqs[i].order.value);
    assert SuccessFor(s.reqs[i], m.queueToken, m.orderId, s.dbs);
  }

  lemma SuccessStep(cfg: Config, s: Sys, st: Step)
    requires Shape(cfg, s) && ReqsOk(cfg, s.acts, s.reqs) && LogOk(cfg, s.reqs, s.log)
    requires ConsumerOk(cfg, s) && SuccessOk(s.reqs, s.queue, s.dbs)
    ensures var s' := Next(cfg, s, st); SuccessOk(s'.reqs, s'.queue, s'.dbs)
  {
    var s' := Next(cfg, s, st);
    if Enabled(cfg, s, st) && st.PutSuccess? {
      PutSuccessOk(cfg, s, st.p);
    } else {
      GrowStep(cfg, s, st);
      ReqsGrowStep(cfg, s, st);
      SuccessGrows(s.reqs, s'.reqs, s.queue, s.dbs, s'.dbs);
    }
  }

  lemma KeyOfOrder(dbs: seq<Table>, m: OrderMessage, o: Order)
    requires ShardCount(|dbs|) && SameKey(OrderOf(m), o) && KeyStored(dbs, m)
    ensures HasKey(Home(dbs, o.userId), o)
  {
    var t := Home(dbs, m.userId);
    var k :| 0 <= k < |t| && SameKey(t[k], OrderOf(m));
    assert SameKey(t[k], o);
  }
}
