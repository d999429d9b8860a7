/** The idempotency middleware in front of the protocol: for one (activity, user, token), what
    the two layers guarantee together. */
module FrontDoor {
  import opened Domain
  import opened Orders
  import opened Protocol
  import opened ApiInvariants
  import opened RowInvariants
  import opened Invariants
  import Idempotency
  import Tokens

  /** What the middleware's key is made of. */
  datatype Ident = Ident(act: int, user: int, token: string)

  predicate IsFor(r: Req, id: Ident) {
    r.act == id.act && r.user == id.user && r.token == id.token
  }

  ghost function Calls(reqs: seq<Req>, id: Ident): set<int> {
    set i | 0 <= i < |reqs| && IsFor(reqs[i], id)
  }

  ghost function Reservations(reqs: seq<Req>, id: Ident): set<int> {
    set i | 0 <= i < |reqs| && IsFor(reqs[i], id) && reqs[i].left.Some?
  }

  /** A step of the middleware on this key, or a step of the system behind it. */
  datatype Move = Front(front: Idempotency.Step) | Back(back: Step)

  function Fronts(ms: seq<Move>): seq<Idempotency.Step> {
    if ms == [] then []
    else
      var before := Fronts(ms[..|ms| - 1]);
      match ms[|ms| - 1]
      case Front(st) => before + [st]
      case Back(_) => before
  }

  predicate CallsFor(st: Step, id: Ident) {
    st.Arrive? && st.act == id.act && st.user == id.user && st.token == id.token
  }

  /** The steps behind the middleware that take place: Seckill is called for this key by a run
      of the handler, and each run calls it at most once. Everything else goes on as it likes. */
  ghost function Backs(cfg: Config, json: Idempotency.Compact, id: Ident, ms: seq<Move>): seq<Step>
    requires ValidConfig(cfg)
    decreases |ms|
  {
    if ms == [] then []
    else
      var init := ms[..|ms| - 1];
      var before := Backs(cfg, json, id, init);
      match ms[|ms| - 1]
      case Front(_) => before
      case Back(st) =>
        if CallsFor(st, id)
           && |Calls(Reach(cfg, before).reqs, id)| >= Idempotency.Runs(Idempotency.Reach(json, Fronts(init)).clients)
        then before
        else before + [st]
  }

  lemma RunsGrow(json: Idempotency.Compact, s: Idempotency.Shared, st: Idempotency.Step)
    ensures Idempotency.Runs(Idempotency.Next(json, s, st).clients) >= Idempotency.Runs(s.clients)
  {
    if Idempotency.Enabled(s, st) {
      if st.Come? {
        assert (s.clients + [Idempotency.Arrived])[..|s.clients|] == s.clients;
      } else if !st.Lapse? {
        Idempotency.RunsUpdate(s.clients, st.i, Idempotency.Move(json, s.cell, s.clients[st.i], st));
      }
    }
  }

  /** Only Arrive adds a call. */
  lemma CallsStep(cfg: Config, s: Sys, st: Step, id: Ident)
    requires Inv(cfg, s)
    ensures |Calls(Next(cfg, s, st).reqs, id)| == |Calls(s.reqs, id)| + (if CallsFor(st, id) then 1 else 0)
  {
    var was, now := Calls(s.reqs, id), Calls(Next(cfg, s, st).reqs, id);
    if st.Arrive? {
      var n := |s.reqs|;
      assert now - {n as int} == was;
      GainsOne(was, now, n, CallsFor(st, id));
    } else {
      SameRequests(cfg, s, st);
      assert now == was;
    }
  }

  lemma SameRequests(cfg: Config, s: Sys, st: Step)
    requires Inv(cfg, s) && !st.Arrive?
    ensures var s' := Next(cfg, s, st);
            && |s'.reqs| == |s.reqs|
            && forall i, id :: 0 <= i < |s.reqs| ==> (IsFor(s'.reqs[i], id) <==> IsFor(s.reqs[i], id))
  {
    var s' := Next(cfg, s, st);
    ReqsGrowStep(cfg, s, st);
    forall i, id | 0 <= i < |s.reqs| ensures IsFor(s'.reqs[i], id) <==> IsFor(s.reqs[i], id) {
      assert Keeps(s.reqs[i], s'.reqs[i]);
    }
  }

  /** There are never more calls than handler runs. */
  lemma {:induction false} CallsFollowRuns(cfg: Config, json: Idempotency.Compact, id: Ident, ms: seq<Move>)
    requires ValidConfig(cfg)
    ensures |Calls(Reach(cfg, Backs(cfg, json, id, ms)).reqs, id)|
            <= Idempotency.Runs(Idempotency.Reach(json, Fronts(ms)).clients)
    decreases |ms|
  {
    if ms == [] {
      assert Calls(Reach(cfg, []).reqs, id) == {};
    } else {
      var init := ms[..|ms| - 1];
      CallsFollowRuns(cfg, json, id, init);
      match ms[|ms| - 1] {
        case Front(st) =>
          Idempotency.ReachStep(json, Fronts(init), st);
          RunsGrow(json, Idempotency.Reach(json, Fronts(init)), st);
        case Back(st) =>
          var before := Backs(cfg, json, id, init);
          Always(cfg, before);
          ReachStep(cfg, before, st);
          CallsStep(cfg, Reach(cfg, before), st, id);
      }
    }
  }

  lemma SubsetIsSmaller(a: set<int>, b: set<int>)
    requires a <= b
    ensures |a| <= |b|
  {
    assert b == a + (b - a);
  }

  /** Whatever fails and however the two layers interleave: one (activity, user, token) reserves
      at most once, plus once per slip of its middleware key; it has at most one row, and a row
      only with a reservation. */
  lemma ReservedPerToken(cfg: Config, json: Idempotency.Compact, id: Ident, ms: seq<Move>)
    requires ValidConfig(cfg)
    ensures var s := Reach(cfg, Backs(cfg, json, id, ms));
            && |Reservations(s.reqs, id)| <= |Calls(s.reqs, id)| <= 1 + Idempotency.Slips(json, Fronts(ms))
            && (forall d, k :: 0 <= d < |s.dbs| && 0 <= k < |s.dbs[d]| && RowFor(s.dbs[d][k], id) ==>
                  && Reservations(s.reqs, id) != {}
                  && forall e, l :: 0 <= e < |s.dbs| && 0 <= l < |s.dbs[e]| && RowFor(s.dbs[e][l], id)
                                    ==> e == d && l == k)
  {
    var s := Reach(cfg, Backs(cfg, json, id, ms));
    Always(cfg, Backs(cfg, json, id, ms));
    CallsFollowRuns(cfg, json, id, ms);
    Idempotency.RunsBounded(json, Fronts(ms));
    SubsetIsSmaller(Reservations(s.reqs, id), Calls(s.reqs, id));
    forall d, k | 0 <= d < |s.dbs| && 0 <= k < |s.dbs[d]| && RowFor(s.dbs[d][k], id)
      ensures Reservations(s.reqs, id) != {}
      ensures forall e, l :: 0 <= e < |s.dbs| && 0 <= l < |s.dbs[e]| && RowFor(s.dbs[e][l], id) ==> e == d && l == k
    {
      RowIsReserved(cfg, s, id, d, k);
      forall e, l | 0 <= e < |s.dbs| && 0 <= l < |s.dbs[e]| && RowFor(s.dbs[e][l], id) ensures e == d && l == k {
        KeysAreGlobal(s.dbs, d, k, e, l);
      }
    }
  }

  predicate RowFor(o: Order, id: Ident) {
    o.activityId == id.act && o.userId == id.user && o.token == id.token
  }

  lemma RowIsReserved(cfg: Config, s: Sys, id: Ident, d: nat, k: nat)
    requires Inv(cfg, s) && d < |s.dbs| && k < |s.dbs[d]| && RowFor(s.dbs[d][k], id)
    ensures Reservations(s.reqs, id) != {}
  {
    assert Backed(s.reqs, s.dbs[d][k]);
    var i :| 0 <= i < |s.reqs| && RowInvariants.Backs(s.reqs[i], s.dbs[d][k]);
    assert ReqOk(cfg, s.acts, s.reqs[i]);
    assert i in Reservations(s.reqs, id);
  }

  /** While the key lives and SETNX does not fail: at most one reservation, and a success names
      the row of the very purchase the client polls for. */
  lemma SteadyFront(cfg: Config, json: Idempotency.Compact, id: Ident, ms: seq<Move>)
    requires ValidConfig(cfg) && Idempotency.Steady(Fronts(ms))
    ensures var s := Reach(cfg, Backs(cfg, json, id, ms));
            && |Reservations(s.reqs, id)| <= 1
            && forall i, t, n :: 0 <= i < |s.reqs| && IsFor(s.reqs[i], id) && s.reqs[i].qtok == Some(t)
                                 && Tokens.Reads(s, t, Success(n))
                 ==> HasId(Home(s.dbs, id.user), n)
  {
    var tr := Backs(cfg, json, id, ms);
    var s := Reach(cfg, tr);
    Idempotency.SteadyRun(json, Fronts(ms));
    ReservedPerToken(cfg, json, id, ms);
    forall i, t, n | 0 <= i < |s.reqs| && IsFor(s.reqs[i], id) && s.reqs[i].qtok == Some(t)
      && Tokens.Reads(s, t, Success(n))
      ensures HasId(Home(s.dbs, id.user), n)
    {
      Always(cfg, tr);
      Alone(s, id, i);
      Tokens.SuccessNamesRowIff(cfg, tr, t, n, i);
    }
  }

  lemma Alone(s: Sys, id: Ident, i: nat)
    requires ShardCount(|s.dbs|) && |Calls(s.reqs, id)| <= 1 && i < |s.reqs| && IsFor(s.reqs[i], id)
    ensures !Tokens.Displaced(s, i)
  {
    forall j | 0 <= j < |s.reqs| && j != i ensures !Tokens.SameRequest(s.reqs[i], s.reqs[j]) {
      if Tokens.SameRequest(s.reqs[i], s.reqs[j]) {
        SubsetIsSmaller({i as int, j as int}, Calls(s.reqs, id));
      }
    }
  }
}
