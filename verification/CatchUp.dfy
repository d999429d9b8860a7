/** Once crashes, failed commits and new publications stop, the consumers finish, whatever else
    goes on and even if every handler call keeps failing. */
module CatchUp {
  import opened Domain
  import opened Protocol
  import opened ConsumerInvariants
  import opened Invariants
  import opened Delivery

  /** A consumer step other than a crash or a commit that did not take effect. Failed inserts,
      an open breaker, failed token writes and a failed DLQ send are all allowed. */
  predicate Faultless(st: Step) {
    Consumes(st) && !st.Crash? && (st.Commit? ==> st.link != Unreached)
  }

  /** How far a delivery has come. */
  function Rank(cfg: Config, g: Stage): nat {
    match g
    case Idle => 0
    case Attempt(k) => 1 + 2 * k
    case Stored(k) => 2 + 2 * k
    case CallDlq(_) => 2 * cfg.maxRetries + 3
    case SendDlq(_) => 2 * cfg.maxRetries + 4
    case Committing => 2 * cfg.maxRetries + 5
  }

  /** Entries still to consume first, then stages left in the present delivery. */
  function PartMeasure(cfg: Config, n: nat, pos: nat, g: Stage): int {
    (n - pos) * (2 * cfg.maxRetries + 6) - Rank(cfg, g)
  }

  ghost function Measure(cfg: Config, s: Sys, upto: nat): int
    requires Shape(cfg, s) && upto <= cfg.parts
  {
    if upto == 0 then 0
    else Measure(cfg, s, upto - 1) + PartMeasure(cfg, |s.log[upto - 1]|, s.pos[upto - 1], s.stage[upto - 1])
  }

  lemma TimesAtLeast(k: int, w: int)
    requires k >= 1 && w >= 0
    ensures k * w >= w
  {
    assert k * w == (k - 1) * w + w;
    assert (k - 1) * w >= 0;
  }

  lemma PartMeasureNonNegative(cfg: Config, s: Sys, p: nat)
    requires Inv(cfg, s) && p < cfg.parts
    ensures PartMeasure(cfg, |s.log[p]|, s.pos[p], s.stage[p]) >= 0
    ensures s.pos[p] < |s.log[p]| ==> PartMeasure(cfg, |s.log[p]|, s.pos[p], s.stage[p]) > 0
  {
    assert PartOk(cfg, s.log, s.dbs, s.dead, p, s.committed[p], s.pos[p], s.stage[p]);
    if s.pos[p] < |s.log[p]| {
      TimesAtLeast(|s.log[p]| - s.pos[p], 2 * cfg.maxRetries + 6);
    }
  }

  lemma {:induction false} MeasureNonNegative(cfg: Config, s: Sys, upto: nat)
    requires Inv(cfg, s) && upto <= cfg.parts
    ensures Measure(cfg, s, upto) >= 0
  {
    if upto > 0 {
      MeasureNonNegative(cfg, s, upto - 1);
      PartMeasureNonNegative(cfg, s, upto - 1);
    }
  }

  /** A faultless step moves its delivery to a later stage, or on to the next entry. */
  lemma StageAdvances(cfg: Config, s: Sys, st: Step)
    requires Shape(cfg, s) && ConsumerOk(cfg, s) && Faultless(st) && Enabled(cfg, s, st)
    ensures var s' := Apply(cfg, s, st);
            && s'.log == s.log && s.pos[st.p] < |s.log[st.p]|
            && (!st.Commit? ==> s'.pos[st.p] == s.pos[st.p] && Rank(cfg, s'.stage[st.p]) > Rank(cfg, s.stage[st.p]))
            && (st.Commit? ==> s'.pos[st.p] == s.pos[st.p] + 1 && s'.stage[st.p] == Idle)
    ensures Rank(cfg, s.stage[st.p]) < 2 * cfg.maxRetries + 6
  {
    assert PartOk(cfg, s.log, s.dbs, s.dead, st.p, s.committed[st.p], s.pos[st.p], s.stage[st.p]);
  }

  /** A faultless step brings its own partition closer to the end. */
  lemma OwnMeasureFalls(cfg: Config, s: Sys, st: Step)
    requires Shape(cfg, s) && ConsumerOk(cfg, s) && Faultless(st) && Enabled(cfg, s, st)
    ensures var s' := Apply(cfg, s, st);
            && s'.log == s.log
            && PartMeasure(cfg, |s'.log[st.p]|, s'.pos[st.p], s'.stage[st.p])
               < PartMeasure(cfg, |s.log[st.p]|, s.pos[st.p], s.stage[st.p])
  {
    StageAdvances(cfg, s, st);
    if st.Commit? {
      NextEntry(|s.log[st.p]| - s.pos[st.p], 2 * cfg.maxRetries + 6);
    }
  }

  lemma NextEntry(n: int, w: int)
    ensures (n - 1) * w == n * w - w
  {
  }

  /** Between two states that differ in partition p alone, and there by coming closer. */
  lemma {:induction false} MeasureFalls(cfg: Config, s: Sys, s': Sys, p: nat, upto: nat)
    requires Shape(cfg, s) && Shape(cfg, s') && p < cfg.parts && upto <= cfg.parts && s'.log == s.log
    requires forall q :: 0 <= q < cfg.parts && q != p ==> s'.pos[q] == s.pos[q] && s'.stage[q] == s.stage[q]
    requires PartMeasure(cfg, |s.log[p]|, s'.pos[p], s'.stage[p]) < PartMeasure(cfg, |s.log[p]|, s.pos[p], s.stage[p])
    ensures Measure(cfg, s', upto) <= Measure(cfg, s, upto) - (if p < upto then 1 else 0)
  {
    if upto > 0 {
      MeasureFalls(cfg, s, s', p, upto - 1);
    }
  }

  lemma StepMeasureFalls(cfg: Config, s: Sys, st: Step)
    requires Shape(cfg, s) && ConsumerOk(cfg, s) && Faultless(st) && Enabled(cfg, s, st)
    ensures Apply(cfg, s, st).log == s.log
    ensures Measure(cfg, Apply(cfg, s, st), cfg.parts) < Measure(cfg, s, cfg.parts)
  {
    var s' := Apply(cfg, s, st);
    OwnMeasureFalls(cfg, s, st);
    forall q | 0 <= q < cfg.parts && q != st.p ensures s'.pos[q] == s.pos[q] && s'.stage[q] == s.stage[q] {
      OnlyOwnPartition(cfg, s, st, q);
    }
    MeasureFalls(cfg, s, s', st.p, cfg.parts);
  }

  // ---------- Whatever else goes on ----------

  /** Any step but a publication, a crash and a commit that did not take effect: requests come
      and go, activities are warmed, tokens expire, calls fail. */
  predicate Harmless(st: Step) {
    !st.Append? && !st.Junk? && !st.Crash? && !(st.Commit? && st.link == Unreached)
  }

  ghost predicate AllHarmless(ks: seq<Step>) {
    forall k :: 0 <= k < |ks| ==> Harmless(ks[k])
  }

  /** The consumer steps of a schedule that take place. */
  ghost function Work(cfg: Config, s: Sys, ks: seq<Step>): nat
    requires Shape(cfg, s)
    decreases |ks|
  {
    if ks == [] then 0
    else
      var n := |ks| - 1;
      Work(cfg, s, ks[..n]) + (if Consumes(ks[n]) && Enabled(cfg, Run(cfg, s, ks[..n]), ks[n]) then 1 else 0)
  }

  /** Nobody else touches log, positions and stages. */
  lemma OthersIdle(cfg: Config, s: Sys, st: Step)
    requires Shape(cfg, s) && Harmless(st) && !Consumes(st)
    ensures var s' := Next(cfg, s, st); s'.log == s.log && s'.pos == s.pos && s'.stage == s.stage
  {
  }

  lemma {:induction false} SameMeasure(cfg: Config, s: Sys, s': Sys, upto: nat)
    requires Shape(cfg, s) && Shape(cfg, s') && upto <= cfg.parts
    requires s'.log == s.log && s'.pos == s.pos && s'.stage == s.stage
    ensures Measure(cfg, s', upto) == Measure(cfg, s, upto)
  {
    if upto > 0 {
      SameMeasure(cfg, s, s', upto - 1);
    }
  }

  lemma HarmlessStep(cfg: Config, s: Sys, st: Step)
    requires Inv(cfg, s) && Harmless(st)
    ensures Inv(cfg, Next(cfg, s, st)) && Next(cfg, s, st).log == s.log
    ensures Measure(cfg, Next(cfg, s, st), cfg.parts) + (if Consumes(st) && Enabled(cfg, s, st) then 1 else 0)
            <= Measure(cfg, s, cfg.parts)
  {
    StepInv(cfg, s, st);
    if Consumes(st) {
      if Enabled(cfg, s, st) {
        StepMeasureFalls(cfg, s, st);
      }
    } else {
      OthersIdle(cfg, s, st);
      SameMeasure(cfg, s, Next(cfg, s, st), cfg.parts);
    }
  }

  lemma {:induction false} WorkBounded(cfg: Config, s: Sys, ks: seq<Step>)
    requires Inv(cfg, s) && AllHarmless(ks)
    ensures Inv(cfg, Run(cfg, s, ks)) && Run(cfg, s, ks).log == s.log
    ensures Work(cfg, s, ks) <= Measure(cfg, s, cfg.parts) - Measure(cfg, Run(cfg, s, ks), cfg.parts)
    decreases |ks|
  {
    if ks != [] {
      var n := |ks| - 1;
      WorkBounded(cfg, s, ks[..n]);
      HarmlessStep(cfg, Run(cfg, s, ks[..n]), ks[n]);
    }
  }

  /** The step a fault-free consumer takes next. */
  function Proceed(p: nat, g: Stage): Step {
    match g
    case Idle => Fetch(p)
    case Attempt(_) => TryInsert(p, Fine)
    case Stored(_) => PutSuccess(p, Fine)
    case CallDlq(_) => MarkDead(p, "", Fine)
    case SendDlq(_) => SendDead(p, true)
    case Committing => Commit(p, Fine)
  }

  /** While a partition is not drained its consumer can move. */
  lemma NotStuck(cfg: Config, s: Sys, p: nat)
    requires Inv(cfg, s) && p < cfg.parts && s.pos[p] < |s.log[p]|
    ensures Faultless(Proceed(p, s.stage[p])) && Enabled(cfg, s, Proceed(p, s.stage[p]))
  {
    assert PartOk(cfg, s.log, s.dbs, s.dead, p, s.committed[p], s.pos[p], s.stage[p]);
  }

  /** Nothing is left of the measure only when nothing is left to consume. */
  lemma {:induction false} SpentIsDrained(cfg: Config, s: Sys, upto: nat)
    requires Inv(cfg, s) && upto <= cfg.parts && Measure(cfg, s, upto) <= 0
    ensures forall p :: 0 <= p < upto ==> s.pos[p] == |s.log[p]|
  {
    if upto > 0 {
      var p := upto - 1;
      MeasureNonNegative(cfg, s, p);
      PartMeasureNonNegative(cfg, s, p);
      SpentIsDrained(cfg, s, p);
      assert PartOk(cfg, s.log, s.dbs, s.dead, p, s.committed[p], s.pos[p], s.stage[p]);
    }
  }

  lemma StuckIsDrained(cfg: Config, s: Sys)
    requires Inv(cfg, s) && forall st :: Faultless(st) ==> !Enabled(cfg, s, st)
    ensures Drained(cfg, s)
  {
    forall p | 0 <= p < cfg.parts ensures s.pos[p] == |s.log[p]| {
      assert PartOk(cfg, s.log, s.dbs, s.dead, p, s.committed[p], s.pos[p], s.stage[p]);
      if s.pos[p] < |s.log[p]| {
        NotStuck(cfg, s, p);
      }
    }
  }

  lemma DrainedIsSettled(cfg: Config, s: Sys)
    requires Inv(cfg, s) && Drained(cfg, s)
    ensures forall p, off :: 0 <= p < cfg.parts && 0 <= off < |s.log[p]| ==> Settled(s.log, s.dbs, s.dead, p, off)
  {
    forall p, off | 0 <= p < cfg.parts && 0 <= off < |s.log[p]|
      ensures Settled(s.log, s.dbs, s.dead, p, off)
    {
      assert PartOk(cfg, s.log, s.dbs, s.dead, p, s.committed[p], s.pos[p], s.stage[p]);
    }
  }

  /** Catch-up: from any reachable state, while nothing is published, no consumer crashes and no
      commit fails, the consumers take at most Measure many steps, however these are mixed with
      steps of everybody else. When that many have taken place, or when no consumer can go on,
      every partition is consumed, and every entry has a row with its key or was handed to the
      DLQ callback. */
  lemma CatchUpTerminates(cfg: Config, tr: seq<Step>, ks: seq<Step>)
    requires ValidConfig(cfg) && AllHarmless(ks)
    ensures var s := Reach(cfg, tr);
            var s' := Reach(cfg, tr + ks);
            && Work(cfg, s, ks) <= Measure(cfg, s, cfg.parts)
            && s'.log == s.log
            && (Work(cfg, s, ks) == Measure(cfg, s, cfg.parts) || (forall st :: Faultless(st) ==> !Enabled(cfg, s', st))
                ==> && Drained(cfg, s')
                    && forall p, off :: 0 <= p < cfg.parts && 0 <= off < |s.log[p]| ==>
                         Settled(s'.log, s'.dbs, s'.dead, p, off))
  {
    Always(cfg, tr);
    var s := Reach(cfg, tr);
    RunAppend(cfg, Init(cfg), tr, ks);
    WorkBounded(cfg, s, ks);
    var s' := Reach(cfg, tr + ks);
    MeasureNonNegative(cfg, s', cfg.parts);
    if Work(cfg, s, ks) == Measure(cfg, s, cfg.parts) {
      SpentIsDrained(cfg, s', cfg.parts);
      DrainedIsSettled(cfg, s');
    } else if forall st :: Faultless(st) ==> !Enabled(cfg, s', st) {
      StuckIsDrained(cfg, s');
      DrainedIsSettled(cfg, s');
    }
  }

  lemma StepFalls(cfg: Config, s: Sys) returns (st: Step)
    requires Inv(cfg, s) && !Drained(cfg, s)
    ensures Faultless(st) && Enabled(cfg, s, st) && Inv(cfg, Next(cfg, s, st))
    ensures 0 <= Measure(cfg, Next(cfg, s, st), cfg.parts) < Measure(cfg, s, cfg.parts)
  {
    var p :| 0 <= p < cfg.parts && s.pos[p] != |s.log[p]|;
    assert PartOk(cfg, s.log, s.dbs, s.dead, p, s.committed[p], s.pos[p], s.stage[p]);
    NotStuck(cfg, s, p);
    st := Proceed(p, s.stage[p]);
    HarmlessStep(cfg, s, st);
    MeasureNonNegative(cfg, Next(cfg, s, st), cfg.parts);
  }

  lemma RunCons(cfg: Config, s: Sys, st: Step, rest: seq<Step>)
    requires Shape(cfg, s)
    ensures Run(cfg, s, [st] + rest) == Run(cfg, Next(cfg, s, st), rest)
  {
    RunAppend(cfg, s, [st], rest);
    assert [st][..0] == [];
  }

  predicate AllFaultless(ks: seq<Step>) {
    forall k :: 0 <= k < |ks| ==> Faultless(ks[k])
  }

  /** Such a run exists: a schedule of consumer steps, no longer than the measure, that drains
      every partition. */
  lemma {:induction false} DrainingRun(cfg: Config, s: Sys) returns (ks: seq<Step>)
    requires Inv(cfg, s)
    ensures AllFaultless(ks) && Drained(cfg, Run(cfg, s, ks))
    ensures |ks| <= Measure(cfg, s, cfg.parts)
    decreases Measure(cfg, s, cfg.parts)
  {
    MeasureNonNegative(cfg, s, cfg.parts);
    if Drained(cfg, s) {
      ks := [];
    } else {
      var st := StepFalls(cfg, s);
      var rest := DrainingRun(cfg, Next(cfg, s, st));
      RunCons(cfg, s, st, rest);
      ks := [st] + rest;
    }
  }
}
