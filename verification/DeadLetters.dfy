/** The dead-letter topic: what reaches it in a run, and when a message that was handed to the
    callback is missing from it. */
module DeadLetters {
  import opened Domain
  import opened Protocol
  import opened RowInvariants
  import opened ConsumerInvariants
  import opened Invariants
  import Tokens

  /** A send of message m to the dead-letter topic that succeeds. */
  ghost predicate Sends(cfg: Config, s: Sys, st: Step, m: OrderMessage)
    requires Shape(cfg, s)
  {
    && st.SendDead? && st.sent && Enabled(cfg, s, st)
    && m.orderId != 0 && PayloadOf(s.log[st.p][s.pos[st.p]]) == m
  }

  ghost predicate SentAt(cfg: Config, tr: seq<Step>, k: nat, m: OrderMessage)
    requires ValidConfig(cfg)
  {
    k < |tr| && Sends(cfg, Reach(cfg, tr[..k]), tr[k], m)
  }

  lemma TopicStep(cfg: Config, s: Sys, st: Step, m: OrderMessage)
    requires Shape(cfg, s)
    ensures m in Next(cfg, s, st).dlqTopic <==> m in s.dlqTopic || Sends(cfg, s, st, m)
  {
  }

  /** Exactly what is in the topic after a run: the messages of the sends that succeeded. */
  lemma {:induction false} TopicIff(cfg: Config, tr: seq<Step>, m: OrderMessage)
    requires ValidConfig(cfg)
    ensures m in Reach(cfg, tr).dlqTopic <==> exists k: nat :: SentAt(cfg, tr, k, m)
    decreases |tr|
  {
    if tr != [] {
      var n := |tr| - 1;
      TopicIff(cfg, tr[..n], m);
      assert Reach(cfg, tr) == Next(cfg, Reach(cfg, tr[..n]), tr[n]);
      TopicStep(cfg, Reach(cfg, tr[..n]), tr[n], m);
      assert SentAt(cfg, tr, n, m) <==> Sends(cfg, Reach(cfg, tr[..n]), tr[n], m);
      forall k: nat ensures SentAt(cfg, tr, k, m) <==> SentAt(cfg, tr[..n], k, m) || (k == n && SentAt(cfg, tr, n, m)) {
        if k < n {
          assert tr[..n][..k] == tr[..k];
        }
      }
    }
  }

  // ---------- Each callback and its send ----------

  /** Step j of a schedule is a step of partition p's consumer that takes place. */
  ghost predicate OwnAt(cfg: Config, tr: seq<Step>, j: nat, p: nat)
    requires ValidConfig(cfg)
  {
    j < |tr| && Consumes(tr[j]) && tr[j].p == p && Enabled(cfg, Reach(cfg, tr[..j]), tr[j])
  }

  /** The next step of the consumer after step k is step l. */
  ghost predicate NextOwn(cfg: Config, tr: seq<Step>, k: nat, l: nat, p: nat)
    requires ValidConfig(cfg)
  {
    k < l && OwnAt(cfg, tr, l, p) && forall j: nat :: k < j < l ==> !OwnAt(cfg, tr, j, p)
  }

  lemma SamePast(cfg: Config, tr: seq<Step>, l: nat, j: nat, p: nat)
    requires ValidConfig(cfg) && j < l <= |tr|
    ensures OwnAt(cfg, tr[..l], j, p) <==> OwnAt(cfg, tr, j, p)
  {
    assert tr[..l][..j] == tr[..j];
  }

  lemma SendStage(cfg: Config, s: Sys, st: Step, p: nat)
    requires Shape(cfg, s) && p < cfg.parts && Next(cfg, s, st).stage[p].SendDlq?
    ensures var own := Consumes(st) && st.p == p && Enabled(cfg, s, st);
            && (own ==> st.MarkDead?)
            && (!own ==> s.stage[p].SendDlq?)
            && Next(cfg, s, st).pos[p] == s.pos[p]
  {
    if !Consumes(st) || st.p != p {
      OnlyOwnPartition(cfg, s, st, p);
    }
  }

  /** A consumer that is about to send is one whose last step was a call of the callback, for
      the entry it still stands at. */
  lemma {:induction false} SendIsDue(cfg: Config, tr: seq<Step>, p: nat) returns (k: nat)
    requires ValidConfig(cfg) && p < cfg.parts && Reach(cfg, tr).stage[p].SendDlq?
    ensures Tokens.CallbackAt(cfg, tr, k, p, Reach(cfg, tr).pos[p])
    ensures forall j: nat :: k < j ==> !OwnAt(cfg, tr, j, p)
    decreases |tr|
  {
    var n := |tr| - 1;
    assert Reach(cfg, tr) == Next(cfg, Reach(cfg, tr[..n]), tr[n]);
    SendStage(cfg, Reach(cfg, tr[..n]), tr[n], p);
    if OwnAt(cfg, tr, n, p) {
      k := n;
    } else {
      k := SendIsDue(cfg, tr[..n], p);
      assert tr[..n][..k] == tr[..k];
      forall j: nat | k < j ensures !OwnAt(cfg, tr, j, p) {
        if j < n {
          SamePast(cfg, tr, n, j, p);
        }
      }
    }
  }

  /** Between the callback and the consumer's next step nothing moves its partition. */
  lemma {:induction false} StaysDue(cfg: Config, tr: seq<Step>, k: nat, p: nat, off: nat)
    requires ValidConfig(cfg) && p < cfg.parts && Tokens.CallbackAt(cfg, tr, k, p, off)
    requires forall j: nat :: k < j ==> !OwnAt(cfg, tr, j, p)
    ensures Reach(cfg, tr).stage[p].SendDlq? && Reach(cfg, tr).pos[p] == off
    decreases |tr|
  {
    var n := |tr| - 1;
    var s := Reach(cfg, tr[..n]);
    assert Reach(cfg, tr) == Next(cfg, s, tr[n]);
    if k < n {
      assert tr[..n][..k] == tr[..k];
      forall j: nat | k < j ensures !OwnAt(cfg, tr[..n], j, p) {
        if j < n {
          SamePast(cfg, tr, n, j, p);
        }
      }
      StaysDue(cfg, tr[..n], k, p, off);
      assert !OwnAt(cfg, tr, n, p);
      KeptByOthers(cfg, s, tr[n], p);
    }
  }

  lemma KeptByOthers(cfg: Config, s: Sys, st: Step, p: nat)
    requires Shape(cfg, s) && p < cfg.parts && !(Consumes(st) && st.p == p && Enabled(cfg, s, st))
    ensures Next(cfg, s, st).stage[p] == s.stage[p] && Next(cfg, s, st).pos[p] == s.pos[p]
  {
    if !Consumes(st) || st.p != p {
      OnlyOwnPartition(cfg, s, st, p);
    }
  }

  /** The message a call of the callback is about. */
  ghost function MessageAt(cfg: Config, tr: seq<Step>, p: nat, off: nat): OrderMessage
    requires ValidConfig(cfg) && p < cfg.parts && off < |Reach(cfg, tr).log[p]|
  {
    PayloadOf(Reach(cfg, tr).log[p][off])
  }

  /** After a call of the callback the consumer's next step is the send or a crash, and the
      message of the entry is sent then exactly when the send succeeds and names an order. */
  lemma CallbackConcludes(cfg: Config, tr: seq<Step>, k: nat, l: nat, p: nat, off: nat)
    requires ValidConfig(cfg) && p < cfg.parts && Tokens.CallbackAt(cfg, tr, k, p, off) && NextOwn(cfg, tr, k, l, p)
    ensures tr[l].SendDead? || tr[l].Crash?
    ensures off < |Reach(cfg, tr).log[p]|
    ensures var m := MessageAt(cfg, tr, p, off);
            SentAt(cfg, tr, l, m) <==> tr[l] == SendDead(p, true) && m.orderId != 0
  {
    var before := tr[..l];
    assert before[..k] == tr[..k];
    forall j: nat | k < j ensures !OwnAt(cfg, before, j, p) {
      if j < l {
        SamePast(cfg, tr, l, j, p);
      }
    }
    StaysDue(cfg, before, k, p, off);
    Always(cfg, before);
    DueStep(cfg, Reach(cfg, before), tr[l], p);
    Tokens.LogKept(cfg, tr, l, p, off);
  }

  lemma DueStep(cfg: Config, s: Sys, st: Step, p: nat)
    requires Inv(cfg, s) && p < cfg.parts && s.stage[p].SendDlq?
    requires Consumes(st) && st.p == p && Enabled(cfg, s, st)
    ensures st.SendDead? || st.Crash?
    ensures s.pos[p] < |s.log[p]|
    ensures var m := PayloadOf(s.log[p][s.pos[p]]);
            Sends(cfg, s, st, m) <==> st == SendDead(p, true) && m.orderId != 0
  {
    assert PartOk(cfg, s.log, s.dbs, s.dead, p, s.committed[p], s.pos[p], s.stage[p]);
  }

  /** Every send that succeeds concludes a call of the callback. */
  lemma SendConcludes(cfg: Config, tr: seq<Step>, l: nat, m: OrderMessage) returns (k: nat, p: nat, off: nat)
    requires ValidConfig(cfg) && SentAt(cfg, tr, l, m)
    ensures p < cfg.parts && Tokens.CallbackAt(cfg, tr, k, p, off) && NextOwn(cfg, tr, k, l, p)
    ensures tr[l] == SendDead(p, true)
    ensures off < |Reach(cfg, tr).log[p]| && MessageAt(cfg, tr, p, off) == m && m.orderId != 0
  {
    p := tr[l].p;
    var before := tr[..l];
    off := Reach(cfg, before).pos[p];
    k := SendIsDue(cfg, before, p);
    assert before[..k] == tr[..k];
    forall j: nat | k < j < l ensures !OwnAt(cfg, tr, j, p) {
      SamePast(cfg, tr, l, j, p);
    }
    Tokens.LogKept(cfg, tr, l, p, off);
  }

  /** A call of the callback about m whose send succeeds. */
  ghost predicate Delivered(cfg: Config, tr: seq<Step>, k: nat, l: nat, p: nat, off: nat, m: OrderMessage)
    requires ValidConfig(cfg)
  {
    && p < cfg.parts && Tokens.CallbackAt(cfg, tr, k, p, off) && NextOwn(cfg, tr, k, l, p) && tr[l] == SendDead(p, true)
    && off < |Reach(cfg, tr).log[p]| && MessageAt(cfg, tr, p, off) == m
  }

  /** An entry that was handed to the callback is in the topic exactly when it names an order
      and, after some call of the callback about its message, the consumer's next step is a send
      that succeeds: neither a send that fails, nor a crash, nor still to come. */
  lemma HandedInTopicIff(cfg: Config, tr: seq<Step>, p: nat, off: nat)
    requires ValidConfig(cfg) && p < cfg.parts && Handed(Reach(cfg, tr).dead, p, off)
    ensures off < |Reach(cfg, tr).log[p]|
    ensures var m := MessageAt(cfg, tr, p, off);
            m in Reach(cfg, tr).dlqTopic
            <==> m.orderId != 0 && exists k: nat, l: nat, q: nat, o: nat :: Delivered(cfg, tr, k, l, q, o, m)
  {
    Always(cfg, tr);
    var s := Reach(cfg, tr);
    var f :| DeadLetter(p, off, f) in s.dead;
    assert DeadLetter(p, off, f).p == p && DeadLetter(p, off, f).off == off;
    var m := MessageAt(cfg, tr, p, off);
    TopicIff(cfg, tr, m);
    if m in s.dlqTopic {
      var l: nat :| SentAt(cfg, tr, l, m);
      var k, q, o := SendConcludes(cfg, tr, l, m);
      assert Delivered(cfg, tr, k, l, q, o, m);
    }
    if k: nat, l: nat, q: nat, o: nat :| Delivered(cfg, tr, k, l, q, o, m) && m.orderId != 0 {
      CallbackConcludes(cfg, tr, k, l, q, o);
      assert SentAt(cfg, tr, l, m);
    }
  }

  // ---------- Runs that lose nothing ----------

  /** A step that loses a dead letter: the send fails, or the process dies between the two
      halves of the callback. */
  ghost predicate Loses(cfg: Config, s: Sys, st: Step)
    requires Shape(cfg, s)
  {
    Enabled(cfg, s, st) && ((st.SendDead? && !st.sent) || (st.Crash? && s.stage[st.p].SendDlq?))
  }

  ghost predicate LosesNothing(cfg: Config, tr: seq<Step>)
    requires ValidConfig(cfg)
  {
    forall k: nat :: k < |tr| ==> !Loses(cfg, Reach(cfg, tr[..k]), tr[k])
  }

  /** Every handed entry that names an order is in the topic, or its send is due. */
  ghost predicate TopicOk(cfg: Config, s: Sys)
    requires Shape(cfg, s)
  {
    forall x :: x in s.dead && x.p < cfg.parts && x.off < |s.log[x.p]| && PayloadOf(s.log[x.p][x.off]).orderId != 0 ==>
      PayloadOf(s.log[x.p][x.off]) in s.dlqTopic || (s.pos[x.p] == x.off && s.stage[x.p].SendDlq?)
  }

  lemma TopicOkStep(cfg: Config, s: Sys, st: Step)
    requires Inv(cfg, s) && TopicOk(cfg, s) && !Loses(cfg, s, st)
    ensures TopicOk(cfg, Next(cfg, s, st))
  {
    var s' := Next(cfg, s, st);
    GrowStep(cfg, s, st);
    forall x | x in s'.dead && x.p < cfg.parts && x.off < |s'.log[x.p]| && PayloadOf(s'.log[x.p][x.off]).orderId != 0
      ensures PayloadOf(s'.log[x.p][x.off]) in s'.dlqTopic || (s'.pos[x.p] == x.off && s'.stage[x.p].SendDlq?)
    {
      TopicStep(cfg, s, st, PayloadOf(s'.log[x.p][x.off]));
      if x in s.dead {
        assert s.log[x.p] <= s'.log[x.p];
        KeptDeadLetter(cfg, s, st, x);
      }
    }
  }

  lemma KeptDeadLetter(cfg: Config, s: Sys, st: Step, x: DeadLetter)
    requires Shape(cfg, s) && ConsumerOk(cfg, s) && TopicOk(cfg, s) && !Loses(cfg, s, st)
    requires x in s.dead && x.p < cfg.parts && x.off < |s.log[x.p]| && PayloadOf(s.log[x.p][x.off]).orderId != 0
    ensures var s' := Next(cfg, s, st);
            || PayloadOf(s.log[x.p][x.off]) in s.dlqTopic
            || Sends(cfg, s, st, PayloadOf(s.log[x.p][x.off]))
            || (s'.pos[x.p] == x.off && s'.stage[x.p].SendDlq?)
  {
    if !Consumes(st) || st.p != x.p {
      OnlyOwnPartition(cfg, s, st, x.p);
    }
  }

  /** As long as no send fails and no process dies between the two halves of the callback,
      every handed entry that names an order is in the topic or about to be sent; an entry
      behind the position is in it. */
  lemma {:induction false} HandedReachesTopic(cfg: Config, tr: seq<Step>)
    requires ValidConfig(cfg) && LosesNothing(cfg, tr)
    ensures TopicOk(cfg, Reach(cfg, tr))
    decreases |tr|
  {
    if tr != [] {
      var n := |tr| - 1;
      forall k: nat | k < n ensures !Loses(cfg, Reach(cfg, tr[..n][..k]), tr[..n][k]) {
        assert tr[..n][..k] == tr[..k];
      }
      HandedReachesTopic(cfg, tr[..n]);
      Always(cfg, tr[..n]);
      assert Reach(cfg, tr) == Next(cfg, Reach(cfg, tr[..n]), tr[n]);
      TopicOkStep(cfg, Reach(cfg, tr[..n]), tr[n]);
    }
  }
}
