/** The queue token a client polls, over every schedule. */
module Tokens {
  import opened Domain
  import opened Orders
  import opened Protocol
  import opened ApiInvariants
  import opened RowInvariants
  import opened ConsumerInvariants
  import opened Invariants
  import ShardKey

  ghost predicate Reads(s: Sys, t: QueueToken, v: TokenState) {
    t in s.queue && s.queue[t] == v
  }

  lemma {:induction false} TablesGrowRun(cfg: Config, s: Sys, more: seq<Step>)
    requires Shape(cfg, s)
    ensures TablesGrow(s.dbs, Run(cfg, s, more).dbs)
    decreases |more|
  {
    if more != [] {
      TablesGrowRun(cfg, s, more[..|more| - 1]);
      var mid := Run(cfg, s, more[..|more| - 1]);
      GrowStep(cfg, mid, more[|more| - 1]);
      var last := Run(cfg, s, more);
      forall d | 0 <= d < |s.dbs| ensures s.dbs[d] <= last.dbs[d] {
        assert s.dbs[d] <= mid.dbs[d] && mid.dbs[d] <= last.dbs[d];
      }
    }
  }

  /** Whenever a token reads success(id), id is the order id of the one request the token was
      given to, and a row with that request's key is in its user's shard, now and for ever. */
  lemma SuccessIsSound(cfg: Config, tr: seq<Step>, more: seq<Step>, t: QueueToken, id: int)
    requires ValidConfig(cfg) && Reads(Reach(cfg, tr), t, Success(id))
    ensures var s := Reach(cfg, tr);
            var s' := Reach(cfg, tr + more);
            exists i :: && 0 <= i < |s.reqs| && s.reqs[i].qtok == Some(t)
                        && s.reqs[i].order.Some? && s.reqs[i].order.value.id == id
                        && HasKey(Home(s.dbs, s.reqs[i].user), s.reqs[i].order.value)
                        && HasKey(Home(s'.dbs, s.reqs[i].user), s.reqs[i].order.value)
                        && (forall j :: 0 <= j < |s.reqs| && s.reqs[j].qtok == Some(t) ==> j == i)
  {
    Always(cfg, tr);
    var s := Reach(cfg, tr);
    var i :| 0 <= i < |s.reqs| && SuccessFor(s.reqs[i], t, id, s.dbs);
    RunAppend(cfg, Init(cfg), tr, more);
    TablesGrowRun(cfg, s, more);
    HasKeyGrows(Home(s.dbs, s.reqs[i].user), Home(Reach(cfg, tr + more).dbs, s.reqs[i].user), s.reqs[i].order.value);
    forall j | 0 <= j < |s.reqs| && s.reqs[j].qtok == Some(t) ensures j == i {
      OneHolder(cfg, s, i, j);
    }
  }

  lemma OneHolder(cfg: Config, s: Sys, i: nat, j: nat)
    requires Inv(cfg, s) && i < |s.reqs| && j < |s.reqs|
    requires s.reqs[i].qtok.Some? && s.reqs[i].qtok == s.reqs[j].qtok
    ensures i == j
  {
    assert ReqOk(cfg, s.acts, s.reqs[i]) && ReqOk(cfg, s.acts, s.reqs[j]);
    assert Apart(s.reqs[i], s.reqs[j]) || i == j;
  }

  /** The token is in use and does not read "queued". */
  ghost predicate Past(s: Sys, t: QueueToken) {
    (t.Uuid? ==> t.text in s.minted) && !Reads(s, t, Waiting)
  }

  lemma PastStep(cfg: Config, s: Sys, st: Step, t: QueueToken)
    requires Shape(cfg, s) && Past(s, t)
    ensures Past(Next(cfg, s, st), t)
  {
  }

  lemma {:induction false} PastRun(cfg: Config, s: Sys, more: seq<Step>, t: QueueToken)
    requires Shape(cfg, s) && Past(s, t)
    ensures Past(Run(cfg, s, more), t)
    decreases |more|
  {
    if more != [] {
      PastRun(cfg, s, more[..|more| - 1], t);
      PastStep(cfg, Run(cfg, s, more[..|more| - 1]), more[|more| - 1], t);
    }
  }

  /** Once a token has read success or failed it never reads queued again, not even after its
      key expired in between: "queued" is only written under a fresh UUID. */
  lemma NeverQueuedAgain(cfg: Config, tr: seq<Step>, more: seq<Step>, t: QueueToken)
    requires ValidConfig(cfg) && t in Reach(cfg, tr).queue && Reach(cfg, tr).queue[t] != Waiting
    ensures !Reads(Reach(cfg, tr + more), t, Waiting)
  {
    Always(cfg, tr);
    RunAppend(cfg, Init(cfg), tr, more);
    PastRun(cfg, Reach(cfg, tr), more, t);
  }

  // ---------- When a token reads "queued" ----------

  /** The entry the consumer of a step looks at, when that is a message with this token. */
  ghost predicate Carries(s: Sys, p: nat, t: QueueToken) {
    AtMessage(s, p) && s.log[p][s.pos[p]].m.queueToken == t
  }

  /** A step that replaces or removes the token's value. */
  ghost predicate Overwrites(cfg: Config, s: Sys, st: Step, t: QueueToken)
    requires Shape(cfg, s)
  {
    && Enabled(cfg, s, st)
    && (st == Expire(t)
        || (st.PutSuccess? && st.link != Unreached && Carries(s, st.p, t))
        || (st.MarkDead? && st.link != Unreached && t != NoToken && Carries(s, st.p, t)))
  }

  ghost predicate Mints(cfg: Config, s: Sys, st: Step, t: QueueToken)
    requires Shape(cfg, s)
  {
    Enabled(cfg, s, st) && st.Mint? && st.link != Unreached && Uuid(st.uuid) == t
  }

  lemma QueueFrame(cfg: Config, s: Sys, st: Step)
    requires Shape(cfg, s) && !st.Mint? && !st.PutSuccess? && !st.MarkDead? && !st.Expire?
    ensures Next(cfg, s, st).queue == s.queue
  {
  }

  lemma QueuedStep(cfg: Config, s: Sys, st: Step, t: QueueToken)
    requires Shape(cfg, s)
    ensures Reads(Next(cfg, s, st), t, Waiting)
            <==> Mints(cfg, s, st, t) || (Reads(s, t, Waiting) && !Overwrites(cfg, s, st, t))
  {
    if !st.Mint? && !st.PutSuccess? && !st.MarkDead? && !st.Expire? {
      QueueFrame(cfg, s, st);
    }
  }

  // The same of step k of a schedule.

  ghost predicate OverwrittenAt(cfg: Config, tr: seq<Step>, k: nat, t: QueueToken)
    requires ValidConfig(cfg)
  {
    k < |tr| && Overwrites(cfg, Reach(cfg, tr[..k]), tr[k], t)
  }

  ghost predicate MintedAt(cfg: Config, tr: seq<Step>, k: nat, t: QueueToken)
    requires ValidConfig(cfg)
  {
    k < |tr| && Mints(cfg, Reach(cfg, tr[..k]), tr[k], t)
  }

  lemma SamePast(cfg: Config, tr: seq<Step>, k: nat, t: QueueToken)
    requires ValidConfig(cfg) && k < |tr| - 1
    ensures OverwrittenAt(cfg, tr, k, t) <==> OverwrittenAt(cfg, tr[..|tr| - 1], k, t)
    ensures MintedAt(cfg, tr, k, t) <==> MintedAt(cfg, tr[..|tr| - 1], k, t)
  {
    assert tr[..|tr| - 1][..k] == tr[..k];
  }

  ghost predicate QueuedSince(cfg: Config, tr: seq<Step>, t: QueueToken, k: nat)
    requires ValidConfig(cfg)
  {
    MintedAt(cfg, tr, k, t) && forall l: nat :: k < l ==> !OverwrittenAt(cfg, tr, l, t)
  }

  /** Exactly when a token reads queued: it was written so, and since then its key has not
      expired and no write of the consumer to it took effect. */
  lemma {:induction false} QueuedIff(cfg: Config, tr: seq<Step>, t: QueueToken)
    requires ValidConfig(cfg)
    ensures Reads(Reach(cfg, tr), t, Waiting) <==> exists k: nat :: QueuedSince(cfg, tr, t, k)
    decreases |tr|
  {
    if tr != [] {
      var n := |tr| - 1;
      QueuedIff(cfg, tr[..n], t);
      assert Reach(cfg, tr) == Next(cfg, Reach(cfg, tr[..n]), tr[n]);
      QueuedStep(cfg, Reach(cfg, tr[..n]), tr[n], t);
      forall k: nat ensures QueuedSince(cfg, tr, t, k) <==>
        if k < n then QueuedSince(cfg, tr[..n], t, k) && !OverwrittenAt(cfg, tr, n, t)
        else k == n && MintedAt(cfg, tr, n, t)
      {
        QueuedSinceStep(cfg, tr, t, k);
      }
      if MintedAt(cfg, tr, n, t) {
        assert QueuedSince(cfg, tr, t, n);
      }
      if k: nat :| QueuedSince(cfg, tr[..n], t, k) {
        assert k < n;
        assert !OverwrittenAt(cfg, tr, n, t) ==> QueuedSince(cfg, tr, t, k);
      }
    }
  }

  lemma QueuedSinceStep(cfg: Config, tr: seq<Step>, t: QueueToken, k: nat)
    requires ValidConfig(cfg) && tr != []
    ensures var n := |tr| - 1;
            QueuedSince(cfg, tr, t, k) <==>
              if k < n then QueuedSince(cfg, tr[..n], t, k) && !OverwrittenAt(cfg, tr, n, t)
              else k == n && MintedAt(cfg, tr, n, t)
  {
    var n := |tr| - 1;
    if k < n {
      SamePast(cfg, tr, k, t);
      forall l: nat | k < l && l != n ensures OverwrittenAt(cfg, tr, l, t) <==> OverwrittenAt(cfg, tr[..n], l, t) {
        if l < n {
          SamePast(cfg, tr, l, t);
        }
      }
      assert !OverwrittenAt(cfg, tr[..n], n, t);
    }
  }

  /** Behind the position, a token that still reads queued was handed to the callback. */
  ghost predicate WaitOk(cfg: Config, s: Sys)
    requires Shape(cfg, s)
  {
    forall p, off :: 0 <= p < cfg.parts && 0 <= off < |s.log[p]| && s.log[p][off].Message?
                     && Reads(s, s.log[p][off].m.queueToken, Waiting)
                     && (off < s.pos[p] || (off == s.pos[p] && s.stage[p] == Committing))
      ==> Handed(s.dead, p, off)
  }

  lemma WaitStep(cfg: Config, s: Sys, st: Step)
    requires Inv(cfg, s) && WaitOk(cfg, s)
    ensures WaitOk(cfg, Next(cfg, s, st))
  {
    var s' := Next(cfg, s, st);
    GrowStep(cfg, s, st);
    DeadGrows(cfg, s, st);
    LogTokens(cfg, s);
    forall p, off | 0 <= p < cfg.parts && 0 <= off < |s'.log[p]| && s'.log[p][off].Message?
      && Reads(s', s'.log[p][off].m.queueToken, Waiting)
      && (off < s'.pos[p] || (off == s'.pos[p] && s'.stage[p] == Committing))
      ensures Handed(s'.dead, p, off)
    {
      WaitStepAt(cfg, s, st, p, off);
      var f :| DeadLetter(p, off, f) in s.dead;
      assert DeadLetter(p, off, f) in s'.dead;
    }
  }

  lemma WaitStepAt(cfg: Config, s: Sys, st: Step, p: nat, off: nat)
    requires Shape(cfg, s) && ConsumerOk(cfg, s) && WaitOk(cfg, s) && LogTokensMinted(s.log, s.minted)
    requires LogGrows(s.log, Next(cfg, s, st).log)
    requires var s' := Next(cfg, s, st);
             && p < cfg.parts && off < |s'.log[p]| && s'.log[p][off].Message?
             && Reads(s', s'.log[p][off].m.queueToken, Waiting)
             && (off < s'.pos[p] || (off == s'.pos[p] && s'.stage[p] == Committing))
    ensures Handed(s.dead, p, off)
  {
    var s' := Next(cfg, s, st);
    assert PartOk(cfg, s.log, s.dbs, s.dead, p, s.committed[p], s.pos[p], s.stage[p]);
    assert s.log[p] <= s'.log[p];
    if Consumes(st) && st.p == p {
      WaitOwn(cfg, s, st, off);
    } else {
      OnlyOwnPartition(cfg, s, st, p);
      QueuedStep(cfg, s, st, s'.log[p][off].m.queueToken);
    }
  }

  lemma WaitOwn(cfg: Config, s: Sys, st: Step, off: nat)
    requires Shape(cfg, s) && WaitOk(cfg, s) && Consumes(st) && st.p < cfg.parts && off < |s.log[st.p]|
    requires PartOk(cfg, s.log, s.dbs, s.dead, st.p, s.committed[st.p], s.pos[st.p], s.stage[st.p])
    requires var s' := Next(cfg, s, st);
             && s.log[st.p][off].Message? && Reads(s', s.log[st.p][off].m.queueToken, Waiting)
             && (off < s'.pos[st.p] || (off == s'.pos[st.p] && s'.stage[st.p] == Committing))
    ensures Handed(s.dead, st.p, off)
  {
    QueuedStep(cfg, s, st, s.log[st.p][off].m.queueToken);
  }

  lemma {:induction false} WaitRun(cfg: Config, tr: seq<Step>)
    requires ValidConfig(cfg)
    ensures WaitOk(cfg, Reach(cfg, tr))
    decreases |tr|
  {
    if tr != [] {
      var init := tr[..|tr| - 1];
      WaitRun(cfg, init);
      Always(cfg, init);
      WaitStep(cfg, Reach(cfg, init), tr[|tr| - 1]);
    }
  }

  /** The call of the DLQ callback at step k, for the entry at (p, off). */
  ghost predicate CallbackAt(cfg: Config, tr: seq<Step>, k: nat, p: nat, off: nat)
    requires ValidConfig(cfg)
  {
    && k < |tr| && tr[k].MarkDead? && tr[k].p == p && Enabled(cfg, Reach(cfg, tr[..k]), tr[k])
    && Reach(cfg, tr[..k]).pos[p] == off
  }

  lemma {:induction false} HandedByCallback(cfg: Config, tr: seq<Step>, x: DeadLetter) returns (k: nat)
    requires ValidConfig(cfg) && x in Reach(cfg, tr).dead
    ensures CallbackAt(cfg, tr, k, x.p, x.off)
    decreases |tr|
  {
    var n := |tr| - 1;
    var s := Reach(cfg, tr[..n]);
    assert Reach(cfg, tr) == Next(cfg, s, tr[n]);
    if x in s.dead {
      k := HandedByCallback(cfg, tr[..n], x);
      assert tr[..n][..k] == tr[..k];
    } else {
      k := n;
    }
  }

  /** Entries stay where they are. */
  lemma {:induction false} LogKept(cfg: Config, tr: seq<Step>, k: nat, p: nat, off: nat)
    requires ValidConfig(cfg) && k <= |tr| && p < cfg.parts && off < |Reach(cfg, tr[..k]).log[p]|
    ensures off < |Reach(cfg, tr).log[p]| && Reach(cfg, tr).log[p][off] == Reach(cfg, tr[..k]).log[p][off]
    decreases |tr|
  {
    if k == |tr| {
      assert tr[..k] == tr;
    } else {
      var n := |tr| - 1;
      assert tr[..n][..k] == tr[..k];
      LogKept(cfg, tr[..n], k, p, off);
      var s := Reach(cfg, tr[..n]);
      GrowStep(cfg, s, tr[n]);
      assert s.log[p] <= Reach(cfg, tr).log[p];
    }
  }

  lemma OverwrittenPast(cfg: Config, s: Sys, st: Step, t: QueueToken)
    requires Inv(cfg, s) && Overwrites(cfg, s, st, t) && !st.Expire?
    ensures Past(Next(cfg, s, st), t)
  {
    LogTokens(cfg, s);
    QueuedStep(cfg, s, st, t);
    MintedGrows(cfg, s, st);
  }

  lemma MintedGrows(cfg: Config, s: Sys, st: Step)
    requires Shape(cfg, s)
    ensures s.minted <= Next(cfg, s, st).minted
  {
  }

  lemma OverwrittenForGood(cfg: Config, tr: seq<Step>, k: nat, t: QueueToken)
    requires ValidConfig(cfg) && OverwrittenAt(cfg, tr, k, t) && !tr[k].Expire?
    ensures !Reads(Reach(cfg, tr), t, Waiting)
  {
    Always(cfg, tr[..k]);
    ReachStep(cfg, tr[..k], tr[k]);
    OverwrittenPast(cfg, Reach(cfg, tr[..k]), tr[k], t);
    var head, rest := tr[..k] + [tr[k]], tr[k + 1..];
    assert tr == head + rest;
    RunAppend(cfg, Init(cfg), head, rest);
    PastRun(cfg, Reach(cfg, head), rest, t);
  }

  /** A write to the token that took effect would have ended "queued" for good. */
  lemma OnlyExpiryBefore(cfg: Config, tr: seq<Step>, t: QueueToken)
    requires ValidConfig(cfg) && Reads(Reach(cfg, tr), t, Waiting)
    ensures t.Uuid? && forall k: nat :: OverwrittenAt(cfg, tr, k, t) ==> tr[k].Expire?
  {
    QueuedIff(cfg, tr, t);
    var j: nat :| QueuedSince(cfg, tr, t, j);
    forall k: nat | OverwrittenAt(cfg, tr, k, t) ensures tr[k].Expire? {
      if !tr[k].Expire? {
        OverwrittenForGood(cfg, tr, k, t);
      }
    }
  }

  /** A client that polls "queued" after its message was consumed is one whose message was
      handed to the DLQ callback while every write to its token, the callback's included, was
      lost. */
  lemma StuckQueued(cfg: Config, tr: seq<Step>, p: nat, off: nat)
    requires ValidConfig(cfg) && p < cfg.parts && off < Reach(cfg, tr).pos[p] && off < |Reach(cfg, tr).log[p]|
    requires Reach(cfg, tr).log[p][off].Message?
    requires Reads(Reach(cfg, tr), Reach(cfg, tr).log[p][off].m.queueToken, Waiting)
    ensures Handed(Reach(cfg, tr).dead, p, off)
    ensures exists k: nat :: CallbackAt(cfg, tr, k, p, off) && tr[k].link == Unreached
    ensures forall k: nat :: OverwrittenAt(cfg, tr, k, Reach(cfg, tr).log[p][off].m.queueToken) ==> tr[k].Expire?
  {
    var s := Reach(cfg, tr);
    WaitRun(cfg, tr);
    var f :| DeadLetter(p, off, f) in s.dead;
    var k := HandedByCallback(cfg, tr, DeadLetter(p, off, f));
    LogKept(cfg, tr, k, p, off);
    OnlyExpiryBefore(cfg, tr, s.log[p][off].m.queueToken);
    assert !OverwrittenAt(cfg, tr, k, s.log[p][off].m.queueToken);
  }

  // ---------- "success" is not final ----------

  /** The one step that turns success into failed: the DLQ callback for a message that carries
      the token, after all its attempts failed. */
  lemma SuccessFlipsIff(cfg: Config, s: Sys, st: Step, t: QueueToken, id: int)
    requires Inv(cfg, s) && Reads(s, t, Success(id))
    ensures var s' := Next(cfg, s, st);
            (t in s'.queue && s'.queue[t].Failed?)
            <==> (&& st.MarkDead? && Enabled(cfg, s, st) && st.link != Unreached
                  && s.log[st.p][s.pos[st.p]].Message? && s.log[st.p][s.pos[st.p]].m.queueToken == t)
  {
    var i :| 0 <= i < |s.reqs| && SuccessFor(s.reqs[i], t, id, s.dbs);
    assert ReqOk(cfg, s.acts, s.reqs[i]);
    if st.MarkDead? {
      MarkingFlipsIff(cfg, s, st, t);
    } else {
      OnlyMarkingFails(cfg, s, st, t);
    }
  }

  lemma MarkingFlipsIff(cfg: Config, s: Sys, st: Step, t: QueueToken)
    requires Shape(cfg, s) && st.MarkDead? && t != NoToken && t in s.queue && !s.queue[t].Failed?
    ensures var s' := Next(cfg, s, st);
            (t in s'.queue && s'.queue[t].Failed?)
            <==> (&& Enabled(cfg, s, st) && st.link != Unreached
                  && s.log[st.p][s.pos[st.p]].Message? && s.log[st.p][s.pos[st.p]].m.queueToken == t)
  {
  }

  lemma OnlyMarkingFails(cfg: Config, s: Sys, st: Step, t: QueueToken)
    requires Shape(cfg, s) && !st.MarkDead?
    ensures var s' := Next(cfg, s, st); t in s'.queue && s'.queue[t].Failed? ==> t in s.queue && s.queue[t].Failed?
  {
  }

  /** Whatever the retry budget: on the last attempt, a token write that takes effect and
      reports an error is followed by a callback that overwrites it. */
  lemma LostReplyFlips(cfg: Config, s: Sys, p: nat, reason: string)
    requires Shape(cfg, s) && p < cfg.parts && s.pos[p] < |s.log[p]| && s.log[p][s.pos[p]].Message?
    requires s.stage[p] == Stored(cfg.maxRetries) && s.log[p][s.pos[p]].m.queueToken != NoToken
    ensures var m := s.log[p][s.pos[p]].m;
            var s1 := Next(cfg, s, PutSuccess(p, LostReply));
            && Reads(s1, m.queueToken, Success(m.orderId))
            && Reads(Next(cfg, s1, MarkDead(p, reason, Fine)), m.queueToken, Failed(reason))
  {
  }

  // ---------- Whose id a success names ----------

  /** The request behind a row. */
  lemma RowAuthor(cfg: Config, s: Sys, user: int, k: nat) returns (j: nat)
    requires Inv(cfg, s) && k < |Home(s.dbs, user)|
    ensures j < |s.reqs| && s.reqs[j].order.Some? && Backs(s.reqs[j], Home(s.dbs, user)[k])
    ensures var row := Home(s.dbs, user)[k];
            && s.reqs[j].order.value.id == row.id && SameKey(row, s.reqs[j].order.value)
            && s.reqs[j].user == row.userId && (row.userId == user ==> Owns(s.reqs[j], s.dbs))
  {
    var d := ShardKey.DBIndex(user, |s.dbs|);
    assert Backed(s.reqs, s.dbs[d][k]);
    j :| 0 <= j < |s.reqs| && Backs(s.reqs[j], s.dbs[d][k]);
    assert ReqOk(cfg, s.acts, s.reqs[j]);
  }

  /** A row with a request's id holds the request's key. */
  lemma OwnRow(cfg: Config, s: Sys, i: nat) returns (k: nat)
    requires Inv(cfg, s) && i < |s.reqs| && Owns(s.reqs[i], s.dbs)
    ensures var h := Home(s.dbs, s.reqs[i].user);
            k < |h| && h[k].id == s.reqs[i].order.value.id && SameKey(h[k], s.reqs[i].order.value)
  {
    var h := Home(s.dbs, s.reqs[i].user);
    k :| 0 <= k < |h| && h[k].id == s.reqs[i].order.value.id;
    var j := RowAuthor(cfg, s, s.reqs[i].user, k);
    assert Apart(s.reqs[i], s.reqs[j]) || i == j;
  }

  /** Another request with the same key whose row took the place. */
  ghost predicate Displaced(s: Sys, i: nat)
    requires i < |s.reqs| && ShardCount(|s.dbs|)
  {
    exists j :: 0 <= j < |s.reqs| && j != i && SameRequest(s.reqs[i], s.reqs[j]) && Owns(s.reqs[j], s.dbs)
  }

  predicate SameRequest(r: Req, r': Req) {
    r.act == r'.act && r.user == r'.user && r.token == r'.token
  }

  /** success:{id} names the id of a stored row exactly when no other request with the same
      (activity, user, token) has its row there. */
  lemma SuccessNamesRowIff(cfg: Config, tr: seq<Step>, t: QueueToken, id: int, i: nat)
    requires ValidConfig(cfg) && Reads(Reach(cfg, tr), t, Success(id))
    requires i < |Reach(cfg, tr).reqs| && Reach(cfg, tr).reqs[i].qtok == Some(t)
    ensures var s := Reach(cfg, tr);
            HasId(Home(s.dbs, s.reqs[i].user), id) <==> !Displaced(s, i)
  {
    Always(cfg, tr);
    var s := Reach(cfg, tr);
    var w :| 0 <= w < |s.reqs| && SuccessFor(s.reqs[w], t, id, s.dbs);
    OneHolder(cfg, s, i, w);
    if HasId(Home(s.dbs, s.reqs[i].user), id) {
      OwnersShareNothing(cfg, s, i);
    } else {
      var h := Home(s.dbs, s.reqs[i].user);
      var k :| 0 <= k < |h| && SameKey(h[k], s.reqs[i].order.value);
      var j := RowAuthor(cfg, s, s.reqs[i].user, k);
      assert ReqOk(cfg, s.acts, s.reqs[i]) && ReqOk(cfg, s.acts, s.reqs[j]);
      assert SameRequest(s.reqs[i], s.reqs[j]) && j != i;
    }
  }

  lemma OwnersShareNothing(cfg: Config, s: Sys, i: nat)
    requires Inv(cfg, s) && i < |s.reqs| && Owns(s.reqs[i], s.dbs)
    ensures !Displaced(s, i)
  {
    forall j | 0 <= j < |s.reqs| && j != i && SameRequest(s.reqs[i], s.reqs[j])
      ensures !Owns(s.reqs[j], s.dbs)
    {
      if Owns(s.reqs[j], s.dbs) {
        OneOwner(cfg, s, i, j);
      }
    }
  }

  lemma OneOwner(cfg: Config, s: Sys, i: nat, j: nat)
    requires Inv(cfg, s) && i < |s.reqs| && j < |s.reqs| && SameRequest(s.reqs[i], s.reqs[j])
    requires Owns(s.reqs[i], s.dbs) && Owns(s.reqs[j], s.dbs)
    ensures i == j
  {
    var k := OwnRow(cfg, s, i);
    var l := OwnRow(cfg, s, j);
    assert ReqOk(cfg, s.acts, s.reqs[i]) && ReqOk(cfg, s.acts, s.reqs[j]);
    UniqueKey(Home(s.dbs, s.reqs[i].user), k, l);
    assert Apart(s.reqs[i], s.reqs[j]) || i == j;
  }

  lemma UniqueKey(t: Table, k: nat, l: nat)
    requires Unique(t) && k < |t| && l < |t| && SameKey(t[k], t[l])
    ensures k == l
  {
  }
}
