/** From the log to the tables over every schedule: commit safety, per-user order, replay
    confluence and catch-up. */
module Delivery {
  import opened Domain
  import opened Orders
  import opened Protocol
  import opened ApiInvariants
  import opened RowInvariants
  import opened ConsumerInvariants
  import opened Invariants
  import ShardKey

  // ---------- Commit safety ----------

  /** In every run, with crashes, failed commits and undecodable entries: each entry below the
      committed offset (and even below the position) has a row with its key in its user's
      shard or was handed to the DLQ callback, and no decodable one was handed over before
      all maxRetries + 1 attempts of a delivery failed. */
  lemma CommitSafety(cfg: Config, tr: seq<Step>, p: nat, off: nat)
    requires ValidConfig(cfg) && p < cfg.parts && off < Reach(cfg, tr).pos[p]
    ensures var s := Reach(cfg, tr);
            && s.committed[p] <= s.pos[p] <= |s.log[p]|
            && (Handed(s.dead, p, off)
                || (s.log[p][off].Message? && HasKey(Home(s.dbs, s.log[p][off].m.userId), OrderOf(s.log[p][off].m))))
            && (forall f :: DeadLetter(p, off, f) in s.dead && s.log[p][off].Message? ==> f == cfg.maxRetries + 1)
  {
    Always(cfg, tr);
    var s := Reach(cfg, tr);
    assert PartOk(cfg, s.log, s.dbs, s.dead, p, s.committed[p], s.pos[p], s.stage[p]);
    assert Settled(s.log, s.dbs, s.dead, p, off);
    forall f | DeadLetter(p, off, f) in s.dead && s.log[p][off].Message?
      ensures f == cfg.maxRetries + 1
    {
      var x := DeadLetter(p, off, f);
      assert x in s.dead && x.p == p && x.off == off;
    }
  }

  /** The failed handler calls of the present delivery on partition p, read off the schedule. */
  ghost function Failures(cfg: Config, tr: seq<Step>, p: nat): nat
    requires ValidConfig(cfg)
    decreases |tr|
  {
    if tr == [] then 0
    else
      var n := |tr| - 1;
      FailuresAfter(cfg, Reach(cfg, tr[..n]), tr[n], p, Failures(cfg, tr[..n], p))
  }

  ghost function FailuresAfter(cfg: Config, s: Sys, st: Step, p: nat, before: nat): nat
    requires Shape(cfg, s)
  {
    if !Consumes(st) || st.p != p || !Enabled(cfg, s, st) then before
    else if st.Fetch? then 0
    else if (st.TryInsert? || st.PutSuccess?) && st.link != Fine then before + 1
    else before
  }

  /** The number a stage carries. */
  predicate Carries(g: Stage, n: nat) {
    match g
    case Attempt(k) => k == n
    case Stored(k) => k == n
    case CallDlq(fails) => fails == n
    case _ => true
  }

  lemma FailureStep(cfg: Config, s: Sys, st: Step, p: nat, n: nat)
    requires Shape(cfg, s) && p < cfg.parts && Carries(s.stage[p], n)
    ensures Carries(Next(cfg, s, st).stage[p], FailuresAfter(cfg, s, st, p, n))
  {
    if !Consumes(st) || st.p != p {
      OnlyOwnPartition(cfg, s, st, p);
    }
  }

  /** The number a stage carries is the number of failed calls that really happened, so the
      DLQ callback on a decodable entry comes after exactly maxRetries + 1 of them. */
  lemma {:induction false} StageCountsFailures(cfg: Config, tr: seq<Step>, p: nat)
    requires ValidConfig(cfg) && p < cfg.parts
    ensures Carries(Reach(cfg, tr).stage[p], Failures(cfg, tr, p))
    decreases |tr|
  {
    if tr != [] {
      var n := |tr| - 1;
      StageCountsFailures(cfg, tr[..n], p);
      assert Reach(cfg, tr) == Next(cfg, Reach(cfg, tr[..n]), tr[n]);
      FailureStep(cfg, Reach(cfg, tr[..n]), tr[n], p, Failures(cfg, tr[..n], p));
    }
  }

  /** The callback is only ever called on a decodable entry when all maxRetries + 1 handler
      calls of this delivery have failed. */
  lemma CallbackMeansExhausted(cfg: Config, tr: seq<Step>, p: nat, reason: string, link: Link)
    requires ValidConfig(cfg) && Enabled(cfg, Reach(cfg, tr), MarkDead(p, reason, link))
    ensures var s := Reach(cfg, tr);
            s.log[p][s.pos[p]].Message? ==> Failures(cfg, tr, p) == cfg.maxRetries + 1
  {
    Always(cfg, tr);
    var s := Reach(cfg, tr);
    StageCountsFailures(cfg, tr, p);
    assert PartOk(cfg, s.log, s.dbs, s.dead, p, s.committed[p], s.pos[p], s.stage[p]);
  }

  // ---------- Per-user order ----------

  /** The row was made from the entry at this offset of its user's partition. */
  ghost predicate CameFrom(cfg: Config, log: seq<seq<Entry>>, row: Order, off: nat) {
    var p := cfg.part(row.userId);
    p < |log| && off < |log[p]| && log[p][off].Message? && OrderOf(log[p][off].m) == row
  }

  /** The rows of one user are a subsequence of that user's log entries: each row of a shard
      goes back to an entry of its user's partition, and along one user the offsets increase,
      for every schedule of retries, dead letters and crashes. */
  lemma PerUserOrder(cfg: Config, tr: seq<Step>, d: nat)
    requires ValidConfig(cfg) && cfg.kafka && d < cfg.shards
    ensures var s := Reach(cfg, tr);
            exists offs: seq<nat> ::
              && |offs| == |s.dbs[d]|
              && (forall k :: 0 <= k < |offs| ==> CameFrom(cfg, s.log, s.dbs[d][k], offs[k]))
              && (forall k, l :: 0 <= k < l < |offs| && s.dbs[d][k].userId == s.dbs[d][l].userId ==> offs[k] < offs[l])
  {
    Always(cfg, tr);
    var s := Reach(cfg, tr);
    assert TableSrcOk(cfg, s.log, s.committed, s.dead, s.dbs[d], s.src[d]);
    var offs := s.src[d];
    forall k | 0 <= k < |offs| ensures CameFrom(cfg, s.log, s.dbs[d][k], offs[k]) {
      assert RowSrcOk(cfg, s.log, s.committed, s.dead, s.dbs[d][k], offs[k]);
    }
  }

  // ---------- Replay confluence ----------

  ghost predicate Drained(cfg: Config, s: Sys)
    requires Shape(cfg, s)
  {
    forall p :: 0 <= p < cfg.parts ==> s.pos[p] == |s.log[p]|
  }

  /** No decodable message exhausted its attempts. */
  ghost predicate NoneExhausted(log: seq<seq<Entry>>, dead: set<DeadLetter>) {
    forall x :: x in dead && x.p < |log| && x.off < |log[x.p]| ==> log[x.p][x.off].Undecodable?
  }

  /** The entry at (p, off) is the first of its partition with its key, and makes row o. */
  ghost predicate WinsAt(log: seq<seq<Entry>>, o: Order, p: nat, off: nat) {
    && p < |log| && off < |log[p]| && log[p][off].Message? && OrderOf(log[p][off].m) == o
    && forall e :: 0 <= e < off && log[p][e].Message? ==> !SameKey(OrderOf(log[p][e].m), o)
  }

  ghost predicate Winner(log: seq<seq<Entry>>, o: Order) {
    exists p, off :: WinsAt(log, o, p, off)
  }

  /** When everything is consumed and nothing was exhausted, the tables hold exactly the first
      message of every key, a function of the log alone. */
  lemma RowsAreWinners(cfg: Config, s: Sys, o: Order)
    requires Inv(cfg, s) && cfg.kafka && Drained(cfg, s) && NoneExhausted(s.log, s.dead)
    ensures o in Home(s.dbs, o.userId) <==> Winner(s.log, o)
  {
    var d := ShardKey.DBIndex(o.userId, cfg.shards);
    assert TableSrcOk(cfg, s.log, s.committed, s.dead, s.dbs[d], s.src[d]);
    if o in s.dbs[d] {
      var k :| 0 <= k < |s.dbs[d]| && s.dbs[d][k] == o;
      RowWins(cfg, s, o, s.src[d][k]);
    }
    if Winner(s.log, o) {
      var p: nat, off: nat :| WinsAt(s.log, o, p, off);
      WinnerStored(cfg, s, o, p, off);
    }
  }

  lemma NotHanded(log: seq<seq<Entry>>, dead: set<DeadLetter>, p: nat, off: nat)
    requires NoneExhausted(log, dead) && p < |log| && off < |log[p]| && log[p][off].Message?
    ensures !Handed(dead, p, off)
  {
    forall f ensures DeadLetter(p, off, f) !in dead {
      var x := DeadLetter(p, off, f);
      assert x.p == p && x.off == off;
    }
  }

  lemma RowWins(cfg: Config, s: Sys, o: Order, off: nat)
    requires Shape(cfg, s) && NoneExhausted(s.log, s.dead)
    requires RowSrcOk(cfg, s.log, s.committed, s.dead, o, off)
    ensures WinsAt(s.log, o, cfg.part(o.userId), off)
  {
    var p := cfg.part(o.userId);
    forall e | 0 <= e < off && s.log[p][e].Message?
      ensures !SameKey(OrderOf(s.log[p][e].m), o)
    {
      NotHanded(s.log, s.dead, p, e);
    }
  }

  lemma WinnerStored(cfg: Config, s: Sys, o: Order, p: nat, off: nat)
    requires Shape(cfg, s) && LogOk(cfg, s.reqs, s.log) && ConsumerOk(cfg, s) && SrcOk(cfg, s)
    requires cfg.kafka && Drained(cfg, s) && NoneExhausted(s.log, s.dead)
    requires WinsAt(s.log, o, p, off)
    ensures o in Home(s.dbs, o.userId)
  {
    var d := ShardKey.DBIndex(o.userId, cfg.shards);
    assert PartOk(cfg, s.log, s.dbs, s.dead, p, s.committed[p], s.pos[p], s.stage[p]);
    assert Settled(s.log, s.dbs, s.dead, p, off);
    var i :| 0 <= i < |s.reqs| && Published(cfg, s.reqs[i], p, s.log[p][off].m);
    NotHanded(s.log, s.dead, p, off);
    var k :| 0 <= k < |s.dbs[d]| && SameKey(s.dbs[d][k], o);
    assert TableSrcOk(cfg, s.log, s.committed, s.dead, s.dbs[d], s.src[d]);
    RowWins(cfg, s, s.dbs[d][k], s.src[d][k]);
    assert s.src[d][k] == off;
  }

  /** The reference: one failure-free pass, entry after entry, partition after partition. */
  function PassPart(dbs: seq<Table>, es: seq<Entry>): (dbs': seq<Table>)
    requires ShardCount(|dbs|)
    ensures |dbs'| == |dbs|
  {
    if es == [] then dbs
    else
      var before := PassPart(dbs, es[..|es| - 1]);
      match es[|es| - 1]
      case Message(m) => Create(before, OrderOf(m))
      case Undecodable(_) => before
  }

  function OnePass(shards: nat, log: seq<seq<Entry>>): (dbs: seq<Table>)
    requires 0 < shards <= ShardKey.MAX_INT64
    ensures |dbs| == shards
  {
    if log == [] then EmptyShards(shards)
    else PassPart(OnePass(shards, log[..|log| - 1]), log[|log| - 1])
  }

  /** What the publishers guarantee about a log: a message lies in its user's partition, and
      two entries with one order id are copies of one message. */
  ghost predicate FairLog(part: int -> nat, log: seq<seq<Entry>>) {
    && (forall p, o :: 0 <= p < |log| && 0 <= o < |log[p]| && log[p][o].Message? ==> part(log[p][o].m.userId) == p)
    && (forall p, o, q, r ::
          (0 <= p < |log| && 0 <= o < |log[p]| && log[p][o].Message?
           && 0 <= q < |log| && 0 <= r < |log[q]| && log[q][r].Message?
           && log[p][o].m.orderId == log[q][r].m.orderId) ==> log[p][o] == log[q][r])
  }

  lemma LogIsFair(cfg: Config, s: Sys)
    requires Inv(cfg, s)
    ensures FairLog(cfg.part, s.log)
  {
    forall p, o | 0 <= p < |s.log| && 0 <= o < |s.log[p]| && s.log[p][o].Message?
      ensures cfg.part(s.log[p][o].m.userId) == p
    {
      var i :| 0 <= i < |s.reqs| && Published(cfg, s.reqs[i], p, s.log[p][o].m);
    }
    forall p, o, q, r | 0 <= p < |s.log| && 0 <= o < |s.log[p]| && s.log[p][o].Message?
      && 0 <= q < |s.log| && 0 <= r < |s.log[q]| && s.log[q][r].Message?
      && s.log[p][o].m.orderId == s.log[q][r].m.orderId
      ensures s.log[p][o] == s.log[q][r]
    {
      var i :| 0 <= i < |s.reqs| && Published(cfg, s.reqs[i], p, s.log[p][o].m);
      var j :| 0 <= j < |s.reqs| && Published(cfg, s.reqs[j], q, s.log[q][r].m);
      assert ReqOk(cfg, s.acts, s.reqs[i]) && ReqOk(cfg, s.acts, s.reqs[j]);
      assert Apart(s.reqs[i], s.reqs[j]) || i == j;
    }
  }

  ghost predicate Reference(dbs: seq<Table>, log: seq<seq<Entry>>) {
    && Routed(dbs)
    && (forall d :: 0 <= d < |dbs| ==> Unique(dbs[d]))
    && (forall o: Order :: o in Home(dbs, o.userId) <==> Winner(log, o))
  }

  /** Among the entries of a key there is a first one. */
  lemma {:induction false} FirstOfKey(es: seq<Entry>, n: nat, o: Order) returns (f: nat)
    requires n < |es| && es[n].Message? && SameKey(OrderOf(es[n].m), o)
    ensures f <= n && es[f].Message? && SameKey(OrderOf(es[f].m), o)
    ensures forall e :: 0 <= e < f && es[e].Message? ==> !SameKey(OrderOf(es[e].m), o)
    decreases n
  {
    if e :| 0 <= e < n && es[e].Message? && SameKey(OrderOf(es[e].m), o) {
      f := FirstOfKey(es, e, o);
    } else {
      f := n;
    }
  }

  /** In the reference tables a message clashes exactly when its own partition already had an
      entry with its key. */
  ghost predicate SeenKey(es: seq<Entry>, o: Order) {
    exists e :: 0 <= e < |es| && es[e].Message? && SameKey(OrderOf(es[e].m), o)
  }

  lemma ReferenceClash(part: int -> nat, dbs: seq<Table>, log: seq<seq<Entry>>, es: seq<Entry>, m: OrderMessage)
    requires FairLog(part, log + [es + [Message(m)]]) && Reference(dbs, log + [es])
    ensures Clashes(Home(dbs, m.userId), OrderOf(m)) <==> SeenKey(es, OrderOf(m))
  {
    var t := Home(dbs, m.userId);
    if SeenKey(es, OrderOf(m)) {
      SeenClashes(dbs, log, es, m);
    }
    if Clashes(t, OrderOf(m)) {
      var k :| 0 <= k < |t| && (t[k].id == m.orderId || SameKey(t[k], OrderOf(m)));
      ClashSeen(part, dbs, log, es, m, k);
    }
  }

  lemma SeenClashes(dbs: seq<Table>, log: seq<seq<Entry>>, es: seq<Entry>, m: OrderMessage)
    requires Reference(dbs, log + [es]) && SeenKey(es, OrderOf(m))
    ensures HasKey(Home(dbs, m.userId), OrderOf(m))
  {
    var now := log + [es];
    var e :| 0 <= e < |es| && es[e].Message? && SameKey(OrderOf(es[e].m), OrderOf(m));
    var f := FirstOfKey(es, e, OrderOf(m));
    assert now[|log|] == es;
    FirstWins(now, |log|, f);
    var w := OrderOf(es[f].m);
    assert w in Home(dbs, w.userId);
  }

  lemma ClashSeen(part: int -> nat, dbs: seq<Table>, log: seq<seq<Entry>>, es: seq<Entry>, m: OrderMessage, k: nat)
    requires FairLog(part, log + [es + [Message(m)]]) && Reference(dbs, log + [es])
    requires k < |Home(dbs, m.userId)|
    requires Home(dbs, m.userId)[k].id == m.orderId || SameKey(Home(dbs, m.userId)[k], OrderOf(m))
    ensures SeenKey(es, OrderOf(m))
  {
    var all, now := log + [es + [Message(m)]], log + [es];
    var q := |log|;
    var o := Home(dbs, m.userId)[k];
    RoutedMember(dbs, m.userId, k);
    assert o in Home(dbs, o.userId);
    var p: nat, off: nat :| WinsAt(now, o, p, off);
    assert all[q][|es|] == Message(m) && all[p][off] == now[p][off];
    assert part(all[q][|es|].m.userId) == q;
    assert part(all[p][off].m.userId) == p;
    assert SameKey(OrderOf(now[p][off].m), OrderOf(m));
    assert p == q && now[p] == es;
  }

  lemma RoutedMember(dbs: seq<Table>, user: int, k: nat)
    requires Routed(dbs) && k < |Home(dbs, user)|
    ensures Home(dbs, Home(dbs, user)[k].userId) == Home(dbs, user)
  {
    var d := ShardKey.DBIndex(user, |dbs|);
    assert ShardKey.DBIndex(dbs[d][k].userId, |dbs|) == d;
  }

  lemma FirstWins(log: seq<seq<Entry>>, p: nat, f: nat)
    requires p < |log| && f < |log[p]| && log[p][f].Message?
    requires forall e :: 0 <= e < f && log[p][e].Message? ==> !SameKey(OrderOf(log[p][e].m), OrderOf(log[p][f].m))
    ensures Winner(log, OrderOf(log[p][f].m))
  {
    assert WinsAt(log, OrderOf(log[p][f].m), p, f);
  }

  /** One more entry in the last partition adds at most one winner. */
  lemma WinnerExtend(log: seq<seq<Entry>>, es: seq<Entry>, e: Entry, o: Order)
    ensures Winner(log + [es + [e]], o) <==>
      Winner(log + [es], o)
      || (e.Message? && OrderOf(e.m) == o
          && forall k :: 0 <= k < |es| && es[k].Message? ==> !SameKey(OrderOf(es[k].m), o))
  {
    var now, next := log + [es], log + [es + [e]];
    if p: nat, off: nat :| WinsAt(now, o, p, off) {
      assert forall k :: 0 <= k <= off ==> next[p][k] == now[p][k];
      assert WinsAt(next, o, p, off);
    }
    if p: nat, off: nat :| WinsAt(next, o, p, off) {
      if p < |log| || off < |es| {
        assert forall k :: 0 <= k <= off ==> next[p][k] == now[p][k];
        assert WinsAt(now, o, p, off);
      } else {
        assert next[p] == es + [e] && off == |es|;
        assert forall k :: 0 <= k < |es| ==> next[p][k] == es[k];
      }
    }
    if e.Message? && OrderOf(e.m) == o
       && forall k :: 0 <= k < |es| && es[k].Message? ==> !SameKey(OrderOf(es[k].m), o) {
      assert forall k :: 0 <= k < |es| ==> next[|log|][k] == es[k];
      assert WinsAt(next, o, |log|, |es|);
    }
  }

  lemma WinnerEmptyPart(log: seq<seq<Entry>>, o: Order)
    ensures Winner(log + [[]], o) <==> Winner(log, o)
  {
    var next := log + [[]];
    if p: nat, off: nat :| WinsAt(next, o, p, off) {
      assert next[p] == log[p];
      assert WinsAt(log, o, p, off);
    }
    if p: nat, off: nat :| WinsAt(log, o, p, off) {
      assert next[p] == log[p];
      assert WinsAt(next, o, p, off);
    }
  }

  lemma FairPrefix(part: int -> nat, log: seq<seq<Entry>>, es: seq<Entry>, e: Entry)
    requires FairLog(part, log + [es + [e]])
    ensures FairLog(part, log + [es])
  {
    var now, next := log + [es], log + [es + [e]];
    assert forall p :: 0 <= p < |now| ==> now[p] <= next[p];
    forall p, o | 0 <= p < |now| && 0 <= o < |now[p]| ensures now[p][o] == next[p][o] {
    }
  }

  lemma {:induction false} PassPartReference(part: int -> nat, dbs: seq<Table>, log: seq<seq<Entry>>, es: seq<Entry>)
    requires FairLog(part, log + [es]) && Reference(dbs, log)
    ensures Reference(PassPart(dbs, es), log + [es])
    decreases |es|
  {
    if es == [] {
      forall o: Order ensures o in Home(dbs, o.userId) <==> Winner(log + [es], o) {
        WinnerEmptyPart(log, o);
      }
    } else {
      var init, e := es[..|es| - 1], es[|es| - 1];
      assert es == init + [e];
      FairPrefix(part, log, init, e);
      PassPartReference(part, dbs, log, init);
      PassEntry(part, PassPart(dbs, init), log, init, e);
    }
  }

  lemma PassEntry(part: int -> nat, dbs: seq<Table>, log: seq<seq<Entry>>, es: seq<Entry>, e: Entry)
    requires FairLog(part, log + [es + [e]]) && Reference(dbs, log + [es])
    ensures Reference(match e case Message(m) => Create(dbs, OrderOf(m)) case Undecodable(_) => dbs, log + [es + [e]])
  {
    var dbs' := match e case Message(m) => Create(dbs, OrderOf(m)) case Undecodable(_) => dbs;
    if e.Message? {
      ReferenceClash(part, dbs, log, es, e.m);
      CreateKeepsRouted(dbs, OrderOf(e.m));
      InsertKeepsUnique(Home(dbs, e.m.userId), OrderOf(e.m));
    }
    forall o: Order ensures o in Home(dbs', o.userId) <==> Winner(log + [es + [e]], o) {
      WinnerExtend(log, es, e, o);
    }
  }

  lemma {:induction false} OnePassReference(part: int -> nat, shards: nat, log: seq<seq<Entry>>)
    requires 0 < shards <= ShardKey.MAX_INT64 && FairLog(part, log)
    ensures Reference(OnePass(shards, log), log)
    decreases |log|
  {
    if log == [] {
      forall o ensures !Winner(log, o) {
      }
    } else {
      var init, es := log[..|log| - 1], log[|log| - 1];
      assert log == init + [es];
      OnePassReference(part, shards, init);
      PassPartReference(part, OnePass(shards, init), init, es);
    }
  }

  /** Tables without repeated rows and with the same rows agree as multisets. */
  lemma {:induction false} SameRowsSameMultiset(t: Table, t': Table)
    requires Unique(t) && Unique(t') && forall o :: o in t <==> o in t'
    ensures multiset(t) == multiset(t')
  {
    forall o ensures multiset(t)[o] == multiset(t')[o] {
      UniqueOnce(t, o);
      UniqueOnce(t', o);
    }
  }

  lemma {:induction false} UniqueOnce(t: Table, o: Order)
    requires Unique(t)
    ensures multiset(t)[o] == if o in t then 1 else 0
  {
    if t != [] {
      var init, last := t[..|t| - 1], t[|t| - 1];
      assert t == init + [last];
      UniqueOnce(init, o);
    }
  }

  /** Replay confluence: whatever the schedule of crashes, retries and interleavings, once
      every partition is consumed and no message exhausted its attempts, every shard holds
      exactly the rows of one failure-free pass over the log. */
  lemma ReplayConfluence(cfg: Config, tr: seq<Step>, d: nat)
    requires ValidConfig(cfg) && cfg.kafka && d < cfg.shards
    requires Drained(cfg, Reach(cfg, tr)) && NoneExhausted(Reach(cfg, tr).log, Reach(cfg, tr).dead)
    ensures var s := Reach(cfg, tr); multiset(s.dbs[d]) == multiset(OnePass(cfg.shards, s.log)[d])
  {
    Always(cfg, tr);
    var s := Reach(cfg, tr);
    LogIsFair(cfg, s);
    OnePassReference(cfg.part, cfg.shards, s.log);
    var ref := OnePass(cfg.shards, s.log);
    forall o ensures o in s.dbs[d] <==> o in ref[d] {
      RowsAreWinners(cfg, s, o);
      if o in s.dbs[d] {
        var k :| 0 <= k < |s.dbs[d]| && s.dbs[d][k] == o;
        assert ShardKey.DBIndex(s.dbs[d][k].userId, cfg.shards) == d;
      }
      if o in ref[d] {
        var k :| 0 <= k < |ref[d]| && ref[d][k] == o;
        assert ShardKey.DBIndex(ref[d][k].userId, cfg.shards) == d;
      }
    }
    SameRowsSameMultiset(s.dbs[d], ref[d]);
  }

  /** Two runs over equal logs that both drain without exhausting a message end with the
      same rows. */
  lemma TwoRunsAgree(cfg: Config, tr: seq<Step>, tr': seq<Step>, d: nat)
    requires ValidConfig(cfg) && cfg.kafka && d < cfg.shards
    requires Reach(cfg, tr).log == Reach(cfg, tr').log
    requires Drained(cfg, Reach(cfg, tr)) && NoneExhausted(Reach(cfg, tr).log, Reach(cfg, tr).dead)
    requires Drained(cfg, Reach(cfg, tr')) && NoneExhausted(Reach(cfg, tr').log, Reach(cfg, tr').dead)
    ensures multiset(Reach(cfg, tr).dbs[d]) == multiset(Reach(cfg, tr').dbs[d])
  {
    ReplayConfluence(cfg, tr, d);
    ReplayConfluence(cfg, tr', d);
  }
}
