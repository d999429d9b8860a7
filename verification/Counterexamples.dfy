/** Concrete runs from the empty system, each showing that a promise one might read into the
    services does not hold. All start with one activity of stock 5 and limit 2, one shard, one
    partition and no retries. */
module Counterexamples {
  import opened Domain
  import opened Orders
  import opened Stock
  import opened Protocol
  import opened ConsumerInvariants
  import opened Accounting
  import opened Tokens

  function Tiny(): Config {
    Config(1, 1, 0, true, (u: int) => 0 as nat)
  }

  const ACTIVITY := Activity(1, 1, 5, 0, 10, 2)
  const FIRST := OrderMessage(9, 1, 2, 1, "x", Uuid("u"), 4)
  const SECOND := OrderMessage(10, 1, 2, 1, "x", Uuid("v"), 4)

  /** One purchase up to its reservation: the drift is 1 from here until its row is stored. */
  lemma Reserve() returns (tr: seq<Step>)
    ensures ValidConfig(Tiny())
    ensures var s := Reach(Tiny(), tr);
            && |s.reqs| == 1 && s.reqs[0] == Req(1, 2, "x", Deducted(ACTIVITY, 3, 4), Some(4), None, None, None)
            && s.acts == map[1 := ACTIVITY] && s.redis == Redis(map[1 := 4], map[(1, 2) := 1]) && s.minted == {}
            && s.log == [[]] && s.pos == [0] && s.stage == [Idle] && s.dbs == [[]] && s.dlqTopic == []
  {
    var cfg := Tiny();
    var s0 := Init(cfg);
    tr := [];
    ReachStep(cfg, tr, CreateActivity(ACTIVITY)); tr := tr + [CreateActivity(ACTIVITY)];
    assert Reserved(Reach(cfg, tr).reqs, OfActivity(1)) == {};
    ReachStep(cfg, tr, Warm(1)); tr := tr + [Warm(1)];
    ReachStep(cfg, tr, Arrive(1, 2, "x")); tr := tr + [Arrive(1, 2, "x")];
    ReachStep(cfg, tr, LookUp(0, 3, true)); tr := tr + [LookUp(0, 3, true)];
    assert Reach(cfg, tr).redis == Redis(map[1 := 5], map[]);
    assert Reach(cfg, tr).reqs == [Req(1, 2, "x", Checked(ACTIVITY, 3), None, None, None, None)];
    ReachStep(cfg, tr, Deduct(0, Fine)); tr := tr + [Deduct(0, Fine)];
  }

  /** Drift is not always zero. */
  lemma DriftOfOne() returns (tr: seq<Step>)
    ensures ValidConfig(Tiny()) && 1 in Reach(Tiny(), tr).acts && 1 in Reach(Tiny(), tr).redis.stock
    ensures Drift(Reach(Tiny(), tr), 1) == 1
  {
    tr := Reserve();
    assert CountAll(Reach(Tiny(), tr).dbs, OfActivity(1)) == 0;
  }

  /** The same purchase up to its message in the log; its token reads queued. */
  lemma Publish() returns (tr: seq<Step>)
    ensures ValidConfig(Tiny())
    ensures var s := Reach(Tiny(), tr);
            && |s.reqs| == 1 && s.reqs[0].order.Some? && s.reqs[0].order.value.id == 9
            && s.reqs[0].qtok == Some(Uuid("u"))
            && s.acts == map[1 := ACTIVITY] && s.redis == Redis(map[1 := 4], map[(1, 2) := 1]) && s.minted == {"u"}
            && s.log == [[Message(FIRST)]] && s.pos == [0] && s.stage == [Idle] && s.dbs == [[]] && s.dlqTopic == []
            && Reads(s, Uuid("u"), Waiting)
  {
    var cfg := Tiny();
    tr := Reserve();
    ReachStep(cfg, tr, Mint(0, 9, "u", 4, Fine)); tr := tr + [Mint(0, 9, "u", 4, Fine)];
    assert Reach(cfg, tr).reqs[0].msg == Some(FIRST);
    var s := Reach(cfg, tr);
    assert s.log == [[]] && s.pos == [0] && s.stage == [Idle] && s.dbs == [[]] && s.dlqTopic == [] && s.minted == {"u"};
    ReachStep(cfg, tr, Append(0)); tr := tr + [Append(0)];
    assert cfg.part(2) == 0 && FIRST.userId == 2;
    assert s.log[0] + [Message(FIRST)] == [Message(FIRST)];
    assert Reach(cfg, tr).log == s.log[0 := [Message(FIRST)]] == [[Message(FIRST)]];
  }

  /** The consumer takes the first entry up to its stored row. */
  lemma Materialise(s: Sys)
    requires Shape(Tiny(), s) && |s.log[0]| > 0 && s.log[0][0] == Message(FIRST)
    requires s.pos == [0] && s.stage == [Idle] && s.dbs == [[]]
    ensures var s' := Next(Tiny(), Next(Tiny(), s, Fetch(0)), TryInsert(0, Fine));
            && s'.log == s.log && s'.pos == [0] && s'.stage == [Stored(0)] && s'.queue == s.queue
            && s'.dbs == [[OrderOf(FIRST)]]
  {
    var s1 := Next(Tiny(), s, Fetch(0));
    assert s1.stage == [Attempt(0)] && s1.log == s.log && s1.pos == [0] && s1.dbs == [[]];
    assert Home(s1.dbs, 2) == [] && [] + [OrderOf(FIRST)] == [OrderOf(FIRST)];
  }

  /** "success" is not final: a purchase that materialises, but whose token write reports an
      error after taking effect. The client reads success first and failed afterwards. */
  lemma SuccessThenFailed() returns (tr: seq<Step>)
    ensures ValidConfig(Tiny())
    ensures Reads(Reach(Tiny(), tr), Uuid("u"), Success(9))
    ensures Reads(Reach(Tiny(), tr + [MarkDead(0, "timeout", Fine)]), Uuid("u"), Failed("timeout"))
  {
    var cfg := Tiny();
    tr := Publish();
    Materialise(Reach(cfg, tr));
    ReachStep(cfg, tr, Fetch(0)); tr := tr + [Fetch(0)];
    ReachStep(cfg, tr, TryInsert(0, Fine)); tr := tr + [TryInsert(0, Fine)];
    LostReplyFlips(cfg, Reach(cfg, tr), 0, "timeout");
    ReachStep(cfg, tr, PutSuccess(0, LostReply)); tr := tr + [PutSuccess(0, LostReply)];
    ReachStep(cfg, tr, MarkDead(0, "timeout", Fine));
  }

  /** Not every failed message is in the dead-letter topic, and not every client learns of its
      failure: the insert, the token write and the send fail one after the other, and the
      entry is committed all the same. */
  lemma MissingDeadLetter() returns (tr: seq<Step>)
    ensures ValidConfig(Tiny())
    ensures var s := Reach(Tiny(), tr);
            && s.log == [[Message(FIRST)]] && s.committed == [1] && Handed(s.dead, 0, 0)
            && FIRST !in s.dlqTopic && s.dbs == [[]] && Reads(s, Uuid("u"), Waiting)
  {
    var cfg := Tiny();
    tr := Publish();
    Fail(Reach(cfg, tr));
    ReachStep(cfg, tr, Fetch(0)); tr := tr + [Fetch(0)];
    ReachStep(cfg, tr, TryInsert(0, Unreached)); tr := tr + [TryInsert(0, Unreached)];
    GiveUp(Reach(cfg, tr));
    ReachStep(cfg, tr, MarkDead(0, "down", Unreached)); tr := tr + [MarkDead(0, "down", Unreached)];
    ReachStep(cfg, tr, SendDead(0, false)); tr := tr + [SendDead(0, false)];
    ReachStep(cfg, tr, Commit(0, Fine)); tr := tr + [Commit(0, Fine)];
  }

  lemma Fail(s: Sys)
    requires Shape(Tiny(), s) && s.log == [[Message(FIRST)]] && s.pos == [0] && s.stage == [Idle]
    ensures var s' := Next(Tiny(), Next(Tiny(), s, Fetch(0)), TryInsert(0, Unreached));
            s' == s.(stage := [CallDlq(1)])
  {
    var s1 := Next(Tiny(), s, Fetch(0));
    assert s1 == s.(stage := [Attempt(0)]);
  }

  lemma GiveUp(s: Sys)
    requires Shape(Tiny(), s) && s.log == [[Message(FIRST)]] && s.pos == [0] && s.stage == [CallDlq(1)]
    ensures var s' := Next(Tiny(), Next(Tiny(), Next(Tiny(), s, MarkDead(0, "down", Unreached)), SendDead(0, false)),
                           Commit(0, Fine));
            && s'.log == s.log && s'.committed == [1] && s'.dlqTopic == s.dlqTopic && s'.dbs == s.dbs
            && s'.queue == s.queue && Handed(s'.dead, 0, 0)
  {
    var s1 := Next(Tiny(), s, MarkDead(0, "down", Unreached));
    assert s1 == s.(dead := s.dead + {DeadLetter(0, 0, 1)}, stage := [SendDlq(1)]);
    var s2 := Next(Tiny(), s1, SendDead(0, false));
    assert s2 == s1.(stage := [Committing]);
    var s3 := Next(Tiny(), s2, Commit(0, Fine));
    assert s3 == s2.(committed := [1], pos := [1], stage := [Idle]);
    assert DeadLetter(0, 0, 1) in s3.dead;
  }

  /** A second purchase with the same idempotency token, within the limit, behind the first. */
  lemma PublishTwice() returns (tr: seq<Step>)
    ensures ValidConfig(Tiny())
    ensures var s := Reach(Tiny(), tr);
            && |s.reqs| == 2 && s.reqs[1].order.Some? && s.reqs[1].order.value.id == 10
            && s.reqs[1].qtok == Some(Uuid("v"))
            && s.reqs[1].user == 2
            && s.log == [[Message(FIRST), Message(SECOND)]] && s.pos == [0] && s.stage == [Idle] && s.dbs == [[]]
  {
    var cfg := Tiny();
    tr := Publish();
    Rebuy(Reach(cfg, tr));
    ReachStep(cfg, tr, Arrive(1, 2, "x")); tr := tr + [Arrive(1, 2, "x")];
    ReachStep(cfg, tr, LookUp(1, 3, true)); tr := tr + [LookUp(1, 3, true)];
    ReachStep(cfg, tr, Deduct(1, Fine)); tr := tr + [Deduct(1, Fine)];
    SecondMessage(Reach(cfg, tr));
    ReachStep(cfg, tr, Mint(1, 10, "v", 4, Fine)); tr := tr + [Mint(1, 10, "v", 4, Fine)];
    ReachStep(cfg, tr, Append(1)); tr := tr + [Append(1)];
  }

  lemma SecondMessage(s: Sys)
    requires Shape(Tiny(), s) && |s.reqs| == 2 && s.reqs[0].order.Some? && s.reqs[0].order.value.id == 9
    requires s.reqs[1] == Req(1, 2, "x", Deducted(ACTIVITY, 3, 3), Some(3), None, None, None)
    requires s.minted == {"u"} && s.log == [[Message(FIRST)]]
    ensures var s' := Next(Tiny(), Next(Tiny(), s, Mint(1, 10, "v", 4, Fine)), Append(1));
            && |s'.reqs| == 2 && s'.reqs[1].order.Some? && s'.reqs[1].order.value.id == 10
            && s'.reqs[1].qtok == Some(Uuid("v")) && s'.reqs[1].user == 2
            && s'.log == [[Message(FIRST), Message(SECOND)]]
            && s'.pos == s.pos && s'.stage == s.stage && s'.dbs == s.dbs
  {
    var s1 := Next(Tiny(), s, Mint(1, 10, "v", 4, Fine));
    assert s1.reqs[1].msg == Some(SECOND) && s1.log == s.log && s1.pos == s.pos && s1.stage == s.stage
        && s1.dbs == s.dbs;
    assert Tiny().part(2) == 0 && SECOND.userId == 2;
    assert s.log[0] + [Message(SECOND)] == [Message(FIRST), Message(SECOND)];
    var s2 := Next(Tiny(), s1, Append(1));
    assert s2.log == s.log[0 := s.log[0] + [Message(SECOND)]];
  }

  lemma Rebuy(s: Sys)
    requires Shape(Tiny(), s) && |s.reqs| == 1
    requires s.acts == map[1 := ACTIVITY] && s.redis == Redis(map[1 := 4], map[(1, 2) := 1])
    ensures var s' := Next(Tiny(), Next(Tiny(), Next(Tiny(), s, Arrive(1, 2, "x")), LookUp(1, 3, true)),
                          Deduct(1, Fine));
            s' == s.(redis := s'.redis,
                     reqs := s.reqs + [Req(1, 2, "x", Deducted(ACTIVITY, 3, 3), Some(3), None, None, None)])
  {
    var s1 := Next(Tiny(), s, Arrive(1, 2, "x"));
    assert s1 == s.(reqs := s.reqs + [Req(1, 2, "x", Arrived, None, None, None, None)]);
    var s2 := Next(Tiny(), s1, LookUp(1, 3, true));
    assert s2 == s.(reqs := s.reqs + [Req(1, 2, "x", Checked(ACTIVITY, 3), None, None, None, None)]);
  }

  /** success:{id} does not always name the stored row: the second delivery finds the first
      one's row under its key, and reports its own id. */
  lemma SuccessNamesNoRow() returns (tr: seq<Step>)
    ensures ValidConfig(Tiny())
    ensures var s := Reach(Tiny(), tr);
            && Reads(s, Uuid("v"), Success(10)) && s.dbs == [[OrderOf(FIRST)]]
            && |s.reqs| == 2 && s.reqs[1].qtok == Some(Uuid("v")) && !HasId(Home(s.dbs, s.reqs[1].user), 10)
  {
    var cfg := Tiny();
    tr := PublishTwice();
    DeliverFirst(Reach(cfg, tr));
    ReachStep(cfg, tr, Fetch(0)); tr := tr + [Fetch(0)];
    ReachStep(cfg, tr, TryInsert(0, Fine)); tr := tr + [TryInsert(0, Fine)];
    ReachStep(cfg, tr, PutSuccess(0, Fine)); tr := tr + [PutSuccess(0, Fine)];
    ReachStep(cfg, tr, Commit(0, Fine)); tr := tr + [Commit(0, Fine)];
    Redeliver(Reach(cfg, tr));
    ReachStep(cfg, tr, Fetch(0)); tr := tr + [Fetch(0)];
    ReachStep(cfg, tr, TryInsert(0, Fine)); tr := tr + [TryInsert(0, Fine)];
    ReachStep(cfg, tr, PutSuccess(0, Fine)); tr := tr + [PutSuccess(0, Fine)];
  }

  lemma DeliverFirst(s: Sys)
    requires Shape(Tiny(), s) && s.log == [[Message(FIRST), Message(SECOND)]]
    requires s.pos == [0] && s.stage == [Idle] && s.dbs == [[]]
    ensures var stored := Next(Tiny(), Next(Tiny(), s, Fetch(0)), TryInsert(0, Fine));
            var s' := Next(Tiny(), Next(Tiny(), stored, PutSuccess(0, Fine)), Commit(0, Fine));
            && s'.log == s.log && s'.pos == [1] && s'.stage == [Idle] && s'.dbs == [[OrderOf(FIRST)]]
            && s'.reqs == s.reqs
  {
    Materialise(s);
    var s2 := Next(Tiny(), Next(Tiny(), s, Fetch(0)), TryInsert(0, Fine));
    assert s2.reqs == s.reqs;
    var s3 := Next(Tiny(), s2, PutSuccess(0, Fine));
    assert s3 == s2.(queue := s3.queue, stage := [Committing]);
  }

  lemma Redeliver(s: Sys)
    requires Shape(Tiny(), s) && s.log == [[Message(FIRST), Message(SECOND)]]
    requires s.pos == [1] && s.stage == [Idle] && s.dbs == [[OrderOf(FIRST)]]
    ensures var s' := Next(Tiny(), Next(Tiny(), Next(Tiny(), s, Fetch(0)), TryInsert(0, Fine)), PutSuccess(0, Fine));
            s'.dbs == s.dbs && s'.reqs == s.reqs && Reads(s', Uuid("v"), Success(10))
  {
    var s1 := Next(Tiny(), s, Fetch(0));
    assert s1.stage == [Attempt(0)] && s1.log == s.log && s1.pos == [1] && s1.dbs == s.dbs;
    assert Home(s1.dbs, 2) == [OrderOf(FIRST)] && SameKey([OrderOf(FIRST)][0], OrderOf(SECOND));
    var s2 := Next(Tiny(), s1, TryInsert(0, Fine));
    assert s2.dbs == s.dbs && s2.stage == [Stored(0)];
  }
}
