/** The invariant of the whole protocol, and that every schedule keeps it. */
module Invariants {
  import opened Orders
  import opened Protocol
  import opened ApiInvariants
  import opened RowInvariants
  import opened ConsumerInvariants

  ghost predicate Inv(cfg: Config, s: Sys) {
    && Shape(cfg, s)
    && ReqsOk(cfg, s.acts, s.reqs)
    && Distinct(s.reqs)
    && TokensMinted(s.reqs, s.queue, s.minted)
    && Accounts(s.acts, s.redis, s.reqs)
    && Tickets(s.acts, s.redis, s.reqs)
    && LogOk(cfg, s.reqs, s.log)
    && RowsOk(s.reqs, s.dbs)
    && OwnCount(s.reqs, s.dbs)
    && AnswersOk(cfg, s.reqs, s.log, s.dbs)
    && ConsumerOk(cfg, s)
    && SrcOk(cfg, s)
    && SuccessOk(s.reqs, s.queue, s.dbs)
  }

  lemma InitInv(cfg: Config)
    requires ValidConfig(cfg)
    ensures Inv(cfg, Init(cfg))
  {
    var s := Init(cfg);
    forall sc ensures Own(s.reqs, s.dbs, sc) == {} && CountAll(s.dbs, sc) == 0 {
      CountEmpty(cfg.shards, sc);
    }
    forall sc ensures Reserved(s.reqs, sc) == {} {
    }
  }

  lemma StepInv(cfg: Config, s: Sys, st: Step)
    requires Inv(cfg, s)
    ensures Inv(cfg, Next(cfg, s, st))
  {
    ReqsOkStep(cfg, s, st);
    LogTokens(cfg, s);
    TokensMintedStep(cfg, s, st);
    DistinctStep(cfg, s, st);
    AccountsStep(cfg, s, st);
    TicketsStep(cfg, s, st);
    LogOkStep(cfg, s, st);
    RowsOkStep(cfg, s, st);
    OwnCountStep(cfg, s, st);
    AnswersOkStep(cfg, s, st);
    ConsumerStep(cfg, s, st);
    SrcStep(cfg, s, st);
    SuccessStep(cfg, s, st);
  }

  lemma {:induction false} RunInv(cfg: Config, s: Sys, tr: seq<Step>)
    requires Inv(cfg, s)
    ensures Inv(cfg, Run(cfg, s, tr))
    decreases |tr|
  {
    if tr != [] {
      RunInv(cfg, s, tr[..|tr| - 1]);
      StepInv(cfg, Run(cfg, s, tr[..|tr| - 1]), tr[|tr| - 1]);
    }
  }

  /** Every state of every schedule satisfies the invariant. */
  lemma Always(cfg: Config, tr: seq<Step>)
    requires ValidConfig(cfg)
    ensures Inv(cfg, Reach(cfg, tr))
  {
    InitInv(cfg);
    RunInv(cfg, Init(cfg), tr);
  }
}
