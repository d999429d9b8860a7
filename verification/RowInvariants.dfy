/** What every step keeps about the log and the order tables: every message and every row
    goes back to one request, and own rows are counted exactly. */
module RowInvariants {
  import opened Domain
  import opened Orders
  import opened Protocol
  import opened ApiInvariants
  import ShardKey

  // ---------- Growth ----------

  ghost predicate TablesGrow(dbs: seq<Table>, dbs': seq<Table>) {
    |dbs| == |dbs'| && forall d :: 0 <= d < |dbs| ==> dbs[d] <= dbs'[d]
  }

  ghost predicate LogGrows(log: seq<seq<Entry>>, log': seq<seq<Entry>>) {
    |log| == |log'| && forall p :: 0 <= p < |log| ==> log[p] <= log'[p]
  }

  /** Rows are only appended and log entries are only appended. */
  lemma GrowStep(cfg: Config, s: Sys, st: Step)
    requires Shape(cfg, s)
    ensures var s' := Next(cfg, s, st); TablesGrow(s.dbs, s'.dbs) && LogGrows(s.log, s'.log)
  {
  }

  // ---------- The log ----------

  predicate Published(cfg: Config, r: Req, p: int, m: OrderMessage) {
    r.msg == Some(m) && cfg.part(m.userId) == p
  }

  /** Every decodable entry is the message of a request, in the partition of its user. */
  ghost predicate LogOk(cfg: Config, reqs: seq<Req>, log: seq<seq<Entry>>) {
    forall p, off :: 0 <= p < |log| && 0 <= off < |log[p]| && log[p][off].Message? ==>
      exists i :: 0 <= i < |reqs| && Published(cfg, reqs[i], p, log[p][off].m)
  }

  lemma LogOkGrows(cfg: Config, acts: map<int, Activity>, reqs: seq<Req>, reqs': seq<Req>, log: seq<seq<Entry>>)
    requires ReqsOk(cfg, acts, reqs) && ReqsGrow(reqs, reqs') && LogOk(cfg, reqs, log)
    ensures LogOk(cfg, reqs', log)
  {
    forall p, off | 0 <= p < |log| && 0 <= off < |log[p]| && log[p][off].Message?
      ensures exists i :: 0 <= i < |reqs'| && Published(cfg, reqs'[i], p, log[p][off].m)
    {
      var i :| 0 <= i < |reqs| && Published(cfg, reqs[i], p, log[p][off].m);
      assert ReqOk(cfg, acts, reqs[i]) && Keeps(reqs[i], reqs'[i]);
      assert Published(cfg, reqs'[i], p, log[p][off].m);
    }
  }

  lemma LogOkAppend(cfg: Config, reqs: seq<Req>, log: seq<seq<Entry>>, p: nat, e: Entry)
    requires LogOk(cfg, reqs, log) && p < |log|
    requires e.Message? ==> exists i :: 0 <= i < |reqs| && Published(cfg, reqs[i], p, e.m)
    ensures LogOk(cfg, reqs, log[p := log[p] + [e]])
  {
  }

  lemma LogOkStep(cfg: Config, s: Sys, st: Step)
    requires Shape(cfg, s) && ReqsOk(cfg, s.acts, s.reqs) && LogOk(cfg, s.reqs, s.log)
    ensures var s' := Next(cfg, s, st); LogOk(cfg, s'.reqs, s'.log)
  {
    if Enabled(cfg, s, st) && st.Append? {
      var m := s.reqs[st.i].msg.value;
      assert Published(cfg, s.reqs[st.i], cfg.part(m.userId), m);
      LogOkAppend(cfg, s.reqs, s.log, cfg.part(m.userId), Message(m));
    } else if Enabled(cfg, s, st) && st.Junk? {
      LogOkAppend(cfg, s.reqs, s.log, st.p, Undecodable(st.partial));
    } else {
      ReqsGrowStep(cfg, s, st);
      LogOkGrows(cfg, s.acts, s.reqs, Next(cfg, s, st).reqs, s.log);
    }
  }

  lemma LogTokens(cfg: Config, s: Sys)
    requires Shape(cfg, s) && LogOk(cfg, s.reqs, s.log) && ReqsOk(cfg, s.acts, s.reqs)
    requires TokensMinted(s.reqs, s.queue, s.minted)
    ensures LogTokensMinted(s.log, s.minted)
  {
    forall p, off | 0 <= p < |s.log| && 0 <= off < |s.log[p]| && s.log[p][off].Message?
        && s.log[p][off].m.queueToken.Uuid?
      ensures s.log[p][off].m.queueToken.text in s.minted
    {
      var i :| 0 <= i < |s.reqs| && Published(cfg, s.reqs[i], p, s.log[p][off].m);
      assert ReqOk(cfg, s.acts, s.reqs[i]);
    }
  }

  // ---------- Rows ----------

  /** The row a request turns into. */
  function RowOf(r: Req): Order
    requires r.order.Some?
  {
    if r.msg.Some? then OrderOf(r.msg.value) else r.order.value
  }

  predicate Backs(r: Req, o: Order) {
    r.order.Some? && RowOf(r) == o
  }

  ghost predicate RowsOk(reqs: seq<Req>, dbs: seq<Table>) {
    && Routed(dbs)
    && (forall d :: 0 <= d < |dbs| ==> Unique(dbs[d]))
    && (forall d, k :: 0 <= d < |dbs| && 0 <= k < |dbs[d]| ==> Backed(reqs, dbs[d][k]))
  }

  ghost predicate Backed(reqs: seq<Req>, o: Order) {
    exists i :: 0 <= i < |reqs| && Backs(reqs[i], o)
  }

  lemma RowsOkGrows(reqs: seq<Req>, reqs': seq<Req>, dbs: seq<Table>)
    requires RowsOk(reqs, dbs) && ReqsGrow(reqs, reqs')
    ensures RowsOk(reqs', dbs)
  {
    forall d, k | 0 <= d < |dbs| && 0 <= k < |dbs[d]|
      ensures Backed(reqs', dbs[d][k])
    {
      var i :| 0 <= i < |reqs| && Backs(reqs[i], dbs[d][k]);
      assert Keeps(reqs[i], reqs'[i]);
      assert Backs(reqs'[i], dbs[d][k]);
    }
  }

  lemma RowsOkCreate(reqs: seq<Req>, dbs: seq<Table>, o: Order, i: nat)
    requires RowsOk(reqs, dbs) && i < |reqs| && Backs(reqs[i], o)
    ensures RowsOk(reqs, Create(dbs, o))
  {
    CreateKeepsRouted(dbs, o);
    InsertKeepsUnique(Home(dbs, o.userId), o);
  }

  /** The request behind the message a consumer is looking at. */
  lemma Author(cfg: Config, s: Sys, p: nat) returns (i: nat)
    requires Shape(cfg, s) && ReqsOk(cfg, s.acts, s.reqs) && LogOk(cfg, s.reqs, s.log)
    requires p < cfg.parts && s.pos[p] < |s.log[p]| && s.log[p][s.pos[p]].Message?
    ensures var m := s.log[p][s.pos[p]].m;
            && i < |s.reqs| && Published(cfg, s.reqs[i], p, m) && Backs(s.reqs[i], OrderOf(m))
            && s.reqs[i].order.value.id == m.orderId && s.reqs[i].user == m.userId
            && s.reqs[i].act == m.activityId && s.reqs[i].token == m.token
            && s.reqs[i].qtok == Some(m.queueToken)
  {
    var m := s.log[p][s.pos[p]].m;
    i :| 0 <= i < |s.reqs| && Published(cfg, s.reqs[i], p, m);
    assert ReqOk(cfg, s.acts, s.reqs[i]);
  }

  /** The steps that can insert a row, with the order they insert. */
  predicate Inserts(st: Step) {
    (st.TryInsert? || st.CreateNow?) && st.link != Unreached
  }

  lemma TablesOnlyByInserts(cfg: Config, s: Sys, st: Step)
    requires Shape(cfg, s) && !Inserts(st)
    ensures Next(cfg, s, st).dbs == s.dbs && Next(cfg, s, st).src == s.src
  {
  }

  ghost function Inserted(s: Sys, st: Step): Order
    requires Inserts(st)
    requires st.TryInsert? ==> AtMessage(s, st.p)
    requires st.CreateNow? ==> st.i < |s.reqs| && s.reqs[st.i].order.Some?
  {
    if st.TryInsert? then OrderOf(s.log[st.p][s.pos[st.p]].m) else s.reqs[st.i].order.value
  }

  lemma InsertStep(cfg: Config, s: Sys, st: Step) returns (i: nat)
    requires Shape(cfg, s) && Inserts(st) && Enabled(cfg, s, st)
    requires ReqsOk(cfg, s.acts, s.reqs) && LogOk(cfg, s.reqs, s.log)
    ensures Apply(cfg, s, st).dbs == Create(s.dbs, Inserted(s, st))
    ensures i < |s.reqs| && Backs(s.reqs[i], Inserted(s, st))
    ensures s.reqs[i].order.value.id == Inserted(s, st).id
    ensures s.reqs[i].user == Inserted(s, st).userId && s.reqs[i].act == Inserted(s, st).activityId
  {
    if st.TryInsert? {
      i := Author(cfg, s, st.p);
    } else {
      i := st.i;
      assert ReqOk(cfg, s.acts, s.reqs[i]);
    }
  }

  lemma RowsOkStep(cfg: Config, s: Sys, st: Step)
    requires Shape(cfg, s) && ReqsOk(cfg, s.acts, s.reqs) && LogOk(cfg, s.reqs, s.log) && RowsOk(s.reqs, s.dbs)
    ensures var s' := Next(cfg, s, st); RowsOk(s'.reqs, s'.dbs)
  {
    var s' := Next(cfg, s, st);
    ReqsGrowStep(cfg, s, st);
    RowsOkGrows(s.reqs, s'.reqs, s.dbs);
    if Inserts(st) && Enabled(cfg, s, st) {
      var i := InsertStep(cfg, s, st);
      RowsOkCreate(s.reqs, s.dbs, Inserted(s, st), i);
      RowsOkGrows(s.reqs, s'.reqs, s'.dbs);
    } else if Enabled(cfg, s, st) {
      TablesOnlyByInserts(cfg, s, st);
    }
  }

  // ---------- Own rows ----------

  predicate Owns(r: Req, dbs: seq<Table>)
    requires ShardCount(|dbs|)
  {
    r.order.Some? && HasId(Home(dbs, r.user), r.order.value.id)
  }

  /** The requests of a scope with a row under their own order id. */
  ghost function Own(reqs: seq<Req>, dbs: seq<Table>, sc: Scope): set<int>
    requires ShardCount(|dbs|)
  {
    set i | 0 <= i < |reqs| && Owns(reqs[i], dbs) && In(sc, reqs[i].act, reqs[i].user)
  }

  ghost predicate OwnCount(reqs: seq<Req>, dbs: seq<Table>)
    requires ShardCount(|dbs|)
  {
    forall sc :: |Own(reqs, dbs, sc)| == CountAll(dbs, sc)
  }

  lemma OwnFrame(reqs: seq<Req>, reqs': seq<Req>, dbs: seq<Table>, sc: Scope)
    requires ShardCount(|dbs|) && ReqsGrow(reqs, reqs')
    requires forall i :: 0 <= i < |reqs'| && Owns(reqs'[i], dbs) ==> i < |reqs| && reqs[i].order.Some?
    ensures Own(reqs', dbs, sc) == Own(reqs, dbs, sc)
  {
    forall i ensures i in Own(reqs', dbs, sc) <==> i in Own(reqs, dbs, sc) {
      if 0 <= i < |reqs| {
        assert Keeps(reqs[i], reqs'[i]);
      }
    }
  }

  lemma HasIdAppend(t: Table, o: Order, id: int)
    ensures HasId(t + [o], id) <==> HasId(t, id) || o.id == id
  {
    if HasId(t, id) {
      var k :| 0 <= k < |t| && t[k].id == id;
      assert (t + [o])[k].id == id;
    }
    if o.id == id {
      assert (t + [o])[|t|].id == id;
    }
  }

  lemma OwnsAfterCreate(r: Req, dbs: seq<Table>, o: Order)
    requires ShardCount(|dbs|) && !Clashes(Home(dbs, o.userId), o)
    requires r.order.Some? && (r.order.value.id == o.id ==> r.user == o.userId)
    ensures Owns(r, Create(dbs, o)) <==> Owns(r, dbs) || r.order.value.id == o.id
  {
    HasIdAppend(Home(dbs, o.userId), o, r.order.value.id);
  }

  /** Another request with its own order id owns what it owned before. */
  lemma OtherOwner(r: Req, author: Req, dbs: seq<Table>, o: Order)
    requires ShardCount(|dbs|) && !Clashes(Home(dbs, o.userId), o)
    requires Apart(r, author) && author.order.Some? && author.order.value.id == o.id
    ensures Owns(r, Create(dbs, o)) <==> Owns(r, dbs)
  {
    if r.order.Some? {
      OwnsAfterCreate(r, dbs, o);
    }
  }

  lemma OwnCreate(reqs: seq<Req>, dbs: seq<Table>, o: Order, k: nat, sc: Scope)
    requires Distinct(reqs) && ShardCount(|dbs|)
    requires k < |reqs| && Backs(reqs[k], o) && !Clashes(Home(dbs, o.userId), o)
    requires reqs[k].order.value.id == o.id && reqs[k].user == o.userId && reqs[k].act == o.activityId
    ensures |Own(reqs, Create(dbs, o), sc)|
            == |Own(reqs, dbs, sc)| + (if In(sc, o.activityId, o.userId) then 1 else 0)
  {
    var now, was := Own(reqs, Create(dbs, o), sc), Own(reqs, dbs, sc);
    forall i | 0 <= i < |reqs| && i != k ensures i in now <==> i in was {
      assert Apart(reqs[i], reqs[k]);
      OtherOwner(reqs[i], reqs[k], dbs, o);
    }
    OwnsAfterCreate(reqs[k], dbs, o);
    assert now - {k as int} == was;
    GainsOne(was, now, k, In(sc, o.activityId, o.userId));
  }

  lemma GainsOne(was: set<int>, now: set<int>, k: int, gains: bool)
    requires now - {k} == was && (k in now <==> gains)
    ensures |now| == |was| + (if gains then 1 else 0)
  {
    if gains {
      assert now == was + {k};
    } else {
      assert now == was;
    }
  }

  lemma OwnCountInsert(cfg: Config, s: Sys, o: Order, k: nat)
    requires Shape(cfg, s) && ReqsOk(cfg, s.acts, s.reqs) && Distinct(s.reqs) && OwnCount(s.reqs, s.dbs)
    requires k < |s.reqs| && Backs(s.reqs[k], o)
    requires s.reqs[k].order.value.id == o.id && s.reqs[k].user == o.userId && s.reqs[k].act == o.activityId
    ensures OwnCount(s.reqs, Create(s.dbs, o))
  {
    forall sc ensures |Own(s.reqs, Create(s.dbs, o), sc)| == CountAll(Create(s.dbs, o), sc) {
      CountAllCreate(s.dbs, o, sc);
      if Clashes(Home(s.dbs, o.userId), o) {
        assert Create(s.dbs, o) == s.dbs;
      } else {
        OwnCreate(s.reqs, s.dbs, o, k, sc);
      }
    }
  }

  /** A request that gets its order id now cannot already own a row. */
  lemma FreshOwnsNothing(reqs: seq<Req>, dbs: seq<Table>, r: Req)
    requires RowsOk(reqs, dbs) && r.order.Some? && FreshId(reqs, r.order.value.id)
    requires forall i :: 0 <= i < |reqs| && reqs[i].order.Some? ==> RowOf(reqs[i]).id == reqs[i].order.value.id
    ensures !Owns(r, dbs)
  {
  }

  lemma OwnCountStep(cfg: Config, s: Sys, st: Step)
    requires Shape(cfg, s) && ReqsOk(cfg, s.acts, s.reqs) && Distinct(s.reqs)
    requires LogOk(cfg, s.reqs, s.log) && RowsOk(s.reqs, s.dbs) && OwnCount(s.reqs, s.dbs)
    ensures var s' := Next(cfg, s, st); OwnCount(s'.reqs, s'.dbs)
  {
    if Enabled(cfg, s, st) {
      var s' := Apply(cfg, s, st);
      if Inserts(st) {
        var k := InsertStep(cfg, s, st);
        OwnCountInsert(cfg, s, Inserted(s, st), k);
      } else {
        TablesOnlyByInserts(cfg, s, st);
      }
      OwnReqsStep(cfg, s, st);
    }
  }

  /** Only Mint gives a request an order, and that order owns nothing yet. */
  lemma NewOwner(cfg: Config, s: Sys, st: Step, i: nat)
    requires Shape(cfg, s) && ReqsOk(cfg, s.acts, s.reqs) && Enabled(cfg, s, st) && RowsOk(s.reqs, s.dbs)
    requires i < |Apply(cfg, s, st).reqs| && Owns(Apply(cfg, s, st).reqs[i], Apply(cfg, s, st).dbs)
    ensures i < |s.reqs| && s.reqs[i].order.Some?
  {
    var s' := Apply(cfg, s, st);
    if st.Mint? {
      forall j | 0 <= j < |s.reqs| && s.reqs[j].order.Some?
        ensures RowOf(s.reqs[j]).id == s.reqs[j].order.value.id
      {
        assert ReqOk(cfg, s.acts, s.reqs[j]);
      }
      FreshOwnsNothing(s.reqs, s.dbs, s'.reqs[st.i]);
    } else if Local(st) {
      LocalStep(cfg, s, st);
    } else if Quiet(st) {
      QuietStep(cfg, s, st);
    } else if st.Deduct? {
      assert ReqOk(cfg, s.acts, s.reqs[st.i]);
    }
  }

  /** The change a step makes to the requests alone leaves every own set as it was. */
  lemma OwnReqsStep(cfg: Config, s: Sys, st: Step)
    requires Shape(cfg, s) && ReqsOk(cfg, s.acts, s.reqs) && Enabled(cfg, s, st) && RowsOk(s.reqs, s.dbs)
    ensures var s' := Apply(cfg, s, st); forall sc :: Own(s'.reqs, s'.dbs, sc) == Own(s.reqs, s'.dbs, sc)
  {
    var s' := Apply(cfg, s, st);
    ReqsGrowStep(cfg, s, st);
    forall i | 0 <= i < |s'.reqs| && Owns(s'.reqs[i], s'.dbs) ensures i < |s.reqs| && s.reqs[i].order.Some? {
      NewOwner(cfg, s, st, i);
    }
    forall sc ensures Own(s'.reqs, s'.dbs, sc) == Own(s.reqs, s'.dbs, sc) {
      OwnFrame(s.reqs, s'.reqs, s'.dbs, sc);
    }
  }

  // ---------- Queued answers ----------

  predicate AnswerOk(cfg: Config, r: Req, log: seq<seq<Entry>>, dbs: seq<Table>)
    requires ShardCount(|dbs|)
  {
    r.pc.Done? && r.order.Some? ==>
      match r.pc.out.outcome
      case Queued =>
        if cfg.kafka then
          && r.msg.Some? && cfg.part(r.msg.value.userId) < |log|
          && Message(r.msg.value) in log[cfg.part(r.msg.value.userId)]
        else r.order.value in Home(dbs, r.user)
      case Duplicate => HasKey(Home(dbs, r.user), r.order.value)
      case _ => true
  }

  /** A client told "queued" has its message in the log, or its row in the table; one told
      "duplicate" has its key there. */
  ghost predicate AnswersOk(cfg: Config, reqs: seq<Req>, log: seq<seq<Entry>>, dbs: seq<Table>)
    requires ShardCount(|dbs|)
  {
    forall i :: 0 <= i < |reqs| ==> AnswerOk(cfg, reqs[i], log, dbs)
  }

  lemma HasKeyGrows(t: Table, t': Table, o: Order)
    requires t <= t' && HasKey(t, o)
    ensures HasKey(t', o)
  {
    var i :| 0 <= i < |t| && SameKey(t[i], o);
    assert SameKey(t'[i], o);
  }

  lemma AnswerGrows(cfg: Config, r: Req, log: seq<seq<Entry>>, log': seq<seq<Entry>>, dbs: seq<Table>, dbs': seq<Table>)
    requires ShardCount(|dbs|) && TablesGrow(dbs, dbs') && LogGrows(log, log') && AnswerOk(cfg, r, log, dbs)
    ensures AnswerOk(cfg, r, log', dbs')
  {
    if r.pc.Done? && r.order.Some? {
      var h, h' := Home(dbs, r.user), Home(dbs', r.user);
      assert h <= h';
      if r.pc.out.outcome == Duplicate {
        HasKeyGrows(h, h', r.order.value);
      } else if r.pc.out.outcome == Queued && cfg.kafka {
        var p := cfg.part(r.msg.value.userId);
        assert log[p] <= log'[p];
      }
    }
  }

  /** A synchronous insert clashes with its own key or not at all: nobody else has its id. */
  lemma ClashIsKeyClash(cfg: Config, s: Sys, i: nat)
    requires Shape(cfg, s) && !cfg.kafka && ReqsOk(cfg, s.acts, s.reqs) && Distinct(s.reqs) && RowsOk(s.reqs, s.dbs)
    requires i < |s.reqs| && s.reqs[i].order.Some?
    requires Clashes(Home(s.dbs, s.reqs[i].user), s.reqs[i].order.value)
    ensures HasKey(Home(s.dbs, s.reqs[i].user), s.reqs[i].order.value)
  {
    var o := s.reqs[i].order.value;
    var t := Home(s.dbs, s.reqs[i].user);
    assert ReqOk(cfg, s.acts, s.reqs[i]);
    if HasId(t, o.id) {
      var d := ShardKey.DBIndex(s.reqs[i].user, |s.dbs|);
      var k :| 0 <= k < |t| && t[k].id == o.id;
      assert Backed(s.reqs, s.dbs[d][k]);
      var j :| 0 <= j < |s.reqs| && Backs(s.reqs[j], s.dbs[d][k]);
      assert ReqOk(cfg, s.acts, s.reqs[j]);
      assert Apart(s.reqs[i], s.reqs[j]) || i == j;
      assert SameKey(t[k], o);
    }
  }

  lemma AnswerMoves(cfg: Config, s: Sys, st: Step)
    requires Shape(cfg, s) && ReqsOk(cfg, s.acts, s.reqs) && Distinct(s.reqs) && RowsOk(s.reqs, s.dbs)
    requires Enabled(cfg, s, st) && (Local(st) || st.Deduct?)
    requires st.i < |s.reqs| ==> AnswerOk(cfg, s.reqs[st.i], s.log, s.dbs)
    ensures var s' := Apply(cfg, s, st); st.i < |s.reqs| && AnswerOk(cfg, s'.reqs[st.i], s'.log, s'.dbs)
  {
    assert ReqOk(cfg, s.acts, s.reqs[st.i]);
    if st.CreateNow? {
      var o := s.reqs[st.i].order.value;
      if Clashes(Home(s.dbs, s.reqs[st.i].user), o) {
        ClashIsKeyClash(cfg, s, st.i);
        assert Create(s.dbs, o) == s.dbs;
      }
    }
  }

  lemma AnswersOkStep(cfg: Config, s: Sys, st: Step)
    requires Shape(cfg, s) && ReqsOk(cfg, s.acts, s.reqs) && Distinct(s.reqs) && RowsOk(s.reqs, s.dbs)
    requires AnswersOk(cfg, s.reqs, s.log, s.dbs)
    ensures var s' := Next(cfg, s, st); AnswersOk(cfg, s'.reqs, s'.log, s'.dbs)
  {
    var s' := Next(cfg, s, st);
    GrowStep(cfg, s, st);
    forall i | 0 <= i < |s.reqs| ensures AnswerOk(cfg, s.reqs[i], s'.log, s'.dbs) {
      AnswerGrows(cfg, s.reqs[i], s.log, s'.log, s.dbs, s'.dbs);
    }
    if Enabled(cfg, s, st) {
      if Quiet(st) {
        QuietStep(cfg, s, st);
      } else if !st.Arrive? {
        AnswerMoves(cfg, s, st);
      }
    }
  }
}
