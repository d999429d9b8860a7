/** The per-user request limit (internal/middleware/ratelimit.go): a Redis counter with a
    one-minute lifetime that starts with its first increment. Times are milliseconds of the
    Redis clock. */
module RateLimit {
  import opened Domain

  const MINUTE := 60_000

  /** ratelimit:user:{id}: the count, and the deadline once EXPIRE has set one; a key without
      a deadline lives for ever. `gen` and `born` are history: how many times the key has been
      created, and when it was last. */
  datatype Counter = Counter(n: nat, deadline: Option<int>, gen: nat, born: int)

  const FRESH := Counter(0, None, 0, 0)

  function Of(cs: map<string, Counter>, user: string): Counter {
    if user in cs then cs[user] else FRESH
  }

  /** There is no such key any more once its deadline has come. */
  predicate Gone(c: Counter, now: int) {
    c.n == 0 || (c.deadline.Some? && now >= c.deadline.value)
  }

  function Incr(c: Counter, now: int): Counter {
    if Gone(c, now) then Counter(1, None, c.gen + 1, now) else c.(n := c.n + 1)
  }

  function SetDeadline(c: Counter, now: int): Counter {
    if Gone(c, now) then c else c.(deadline := Some(now + MINUTE))
  }

  /** What reaches Redis, in its order. EXPIRE is its own event: it may come late, not at all,
      or twice. An INCR may fail with or without having counted; either way the request is let
      through. */
  datatype Event = Request(user: string, at: int, link: Link) | Expire(user: string, at: int)

  /** One request in the record: the generation and rank it drew, if it saw a count. */
  datatype Hit = Hit(user: string, at: int, gen: nat, rank: nat, counted: bool, passed: bool)

  // ---------- Whole runs ----------

  function StepCounter(c: Counter, e: Event): Counter {
    match e
    case Request(_, at, link) => if link == Unreached then c else Incr(c, at)
    case Expire(_, at) => SetDeadline(c, at)
  }

  /** All users' counters after a run. */
  function Counters(es: seq<Event>): map<string, Counter> {
    if es == [] then map[]
    else
      var cs := Counters(es[..|es| - 1]);
      var e := es[|es| - 1];
      cs[e.user := StepCounter(Of(cs, e.user), e)]
  }

  function Record(c: Counter, e: Event, limit: int): Hit
    requires e.Request?
  {
    var c' := StepCounter(c, e);
    if e.link == Fine then Hit(e.user, e.at, c'.gen, c'.n, true, c'.n <= limit)
    else Hit(e.user, e.at, c'.gen, 0, false, true)
  }

  function Hits(es: seq<Event>, limit: int): seq<Hit> {
    if es == [] then []
    else
      var init, e := es[..|es| - 1], es[|es| - 1];
      var before := Hits(init, limit);
      if e.Request? then before + [Record(Of(Counters(init), e.user), e, limit)] else before
  }

  /** Redis executes commands in the order of its clock. */
  ghost predicate InOrder(es: seq<Event>) {
    forall i, j :: 0 <= i < j < |es| ==> es[i].at <= es[j].at
  }

  /** Every INCR answered. */
  ghost predicate AllAnswered(es: seq<Event>) {
    forall i :: 0 <= i < |es| && es[i].Request? ==> es[i].link == Fine
  }

  lemma HitsAppend(es: seq<Event>, e: Event, limit: int)
    ensures Counters(es + [e]) == Counters(es)[e.user := StepCounter(Of(Counters(es), e.user), e)]
    ensures Hits(es + [e], limit)
            == if e.Request? then Hits(es, limit) + [Record(Of(Counters(es), e.user), e, limit)] else Hits(es, limit)
  {
    assert (es + [e])[..|es|] == es;
  }

  lemma StoreFollows(cs: map<string, Counter>, cs': map<string, Counter>, es: seq<Event>, e: Event)
    requires forall u :: Of(cs, u) == Of(Counters(es), u)
    requires Of(cs', e.user) == StepCounter(Of(cs, e.user), e)
    requires forall u :: u != e.user ==> Of(cs', u) == Of(cs, u)
    ensures forall u :: Of(cs', u) == Of(Counters(es + [e]), u)
  {
    HitsAppend(es, e, 0);
    forall u ensures Of(cs', u) == Of(Counters(es + [e]), u) {
      assert Of(cs, u) == Of(Counters(es), u);
    }
  }

  // ---------- The middleware ----------

  class RateLimiter {
    const limit: int
    var counters: map<string, Counter>
    /** Everything that has reached Redis. */
    ghost var events: seq<Event>

    constructor (limit: int)
      ensures Valid() && this.limit == limit && events == []
    {
      this.limit, counters, events := limit, map[], [];
    }

    ghost predicate Valid()
      reads this
    {
      forall u :: Of(counters, u) == Of(Counters(events), u)
    }

    method IncrKey(user: string, at: int, link: Link) returns (r: Option<nat>)
      requires Valid()
      modifies this
      ensures Valid() && events == old(events) + [Request(user, at, link)]
      ensures r == if link == Fine then Some(Incr(Of(old(counters), user), at).n) else None
    {
      ghost var cs := counters;
      if link != Unreached {
        var c := Of(counters, user);
        if Gone(c, at) {
          counters := counters[user := Counter(1, None, c.gen + 1, at)];
        } else {
          counters := counters[user := c.(n := c.n + 1)];
        }
      }
      StoreFollows(cs, counters, events, Request(user, at, link));
      events := events + [Request(user, at, link)];
      r := if link == Fine then Some(counters[user].n) else None;
    }

    method ExpireKey(user: string, at: int)
      requires Valid()
      modifies this
      ensures Valid() && events == old(events) + [Expire(user, at)]
    {
      ghost var cs := counters;
      if !Gone(Of(counters, user), at) {
        counters := counters[user := counters[user].(deadline := Some(at + MINUTE))];
      }
      StoreFollows(cs, counters, events, Expire(user, at));
      events := events + [Expire(user, at)];
    }

    /** Commands of other requests, of this user too, that run between INCR and EXPIRE. */
    method Others(es: seq<Event>)
      requires Valid()
      modifies this
      ensures Valid() && events == old(events) + es
    {
      for i := 0 to |es|
        invariant Valid() && events == old(events) + es[..i]
      {
        match es[i] {
          case Request(user, at, link) => var _ := IncrKey(user, at, link);
          case Expire(user, at) => ExpireKey(user, at);
        }
        assert es[..i + 1] == es[..i] + [es[i]];
      }
      assert es[..|es|] == es;
    }

    /** One pass of the middleware for a request with a user header: the answer is the one the
        record gives to this request, and only the request that creates the key sends EXPIRE. */
    method Allow(user: string, at: int, link: Link, between: seq<Event>, expireAt: Option<int>) returns (pass: bool)
      requires Valid()
      modifies this
      ensures Valid()
      ensures var me := Request(user, at, link);
              var hit := Record(Of(old(Counters(events)), user), me, limit);
              && pass == hit.passed
              && Hits(old(events) + [me], limit) == Hits(old(events), limit) + [hit]
              && events == old(events) + [me]
                           + (if hit.counted && hit.rank == 1 then between else [])
                           + (if hit.counted && hit.rank == 1 && expireAt.Some?
                              then [Expire(user, expireAt.value)] else [])
    {
      HitsAppend(events, Request(user, at, link), limit);
      var cur := IncrKey(user, at, link);
      if cur.None? {
        return true;
      }
      if cur.value == 1 {
        Others(between);
        if expireAt.Some? {
          ExpireKey(user, expireAt.value);
        }
      }
      if cur.value > limit {
        return false;
      }
      return true;
    }
  }

  // ---------- Counting hits ----------

  function CountHits(hs: seq<Hit>, want: Hit -> bool): nat {
    if hs == [] then 0 else CountHits(hs[..|hs| - 1], want) + (if want(hs[|hs| - 1]) then 1 else 0)
  }

  function OfGeneration(user: string, g: nat): Hit -> bool {
    (h: Hit) => h.user == user && h.gen == g
  }

  function PassedOfGeneration(user: string, g: nat): Hit -> bool {
    (h: Hit) => h.user == user && h.gen == g && h.passed
  }

  /** Passed by the counter, in the half-open minute from `from`. */
  function PassedIn(user: string, from: int): Hit -> bool {
    (h: Hit) => h.user == user && from <= h.at < from + MINUTE && h.passed && h.counted
  }

  function FailedIn(user: string, from: int): Hit -> bool {
    (h: Hit) => h.user == user && from <= h.at < from + MINUTE && !h.counted
  }

  function AnyPassIn(user: string, from: int): Hit -> bool {
    (h: Hit) => h.user == user && from <= h.at < from + MINUTE && h.passed
  }

  lemma CountAppend(hs: seq<Hit>, h: Hit, want: Hit -> bool)
    ensures CountHits(hs + [h], want) == CountHits(hs, want) + (if want(h) then 1 else 0)
  {
    assert (hs + [h])[..|hs|] == hs;
  }

  /** A deadline is at least a minute after the birth of the generation it belongs to, however
      late EXPIRE came. */
  ghost predicate Lasting(c: Counter) {
    && (c.n == 0 <==> c.gen == 0)
    && (c.deadline.Some? ==> c.deadline.value >= c.born + MINUTE)
  }

  lemma {:induction false} LastingRun(es: seq<Event>, user: string)
    requires InOrder(es)
    ensures var c := Of(Counters(es), user);
            Lasting(c) && (c.gen > 0 ==> es != [] && c.born <= es[|es| - 1].at)
  {
    if es != [] {
      LastingRun(es[..|es| - 1], user);
    }
  }

  // ---------- One generation ----------

  /** The record of a user up to here: nothing from later generations, and of the present one
      as many hits as the counter says. */
  ghost predicate Tally(hs: seq<Hit>, user: string, limit: int, c: Counter) {
    && (forall g :: CountHits(hs, PassedOfGeneration(user, g))
                    == Min(CountHits(hs, OfGeneration(user, g)), Max0(limit)))
    && (forall g :: g > c.gen ==> CountHits(hs, OfGeneration(user, g)) == 0)
    && (c.n > 0 ==> CountHits(hs, OfGeneration(user, c.gen)) == c.n)
  }

  lemma TallyRequest(hs: seq<Hit>, user: string, limit: int, c: Counter, at: int)
    requires Tally(hs, user, limit, c) && Lasting(c)
    ensures var e := Request(user, at, Fine);
            Tally(hs + [Record(c, e, limit)], user, limit, StepCounter(c, e))
  {
    var e := Request(user, at, Fine);
    var h, c' := Record(c, e, limit), StepCounter(c, e);
    forall g: nat
      ensures CountHits(hs + [h], PassedOfGeneration(user, g))
              == Min(CountHits(hs + [h], OfGeneration(user, g)), Max0(limit))
      ensures g > c'.gen ==> CountHits(hs + [h], OfGeneration(user, g)) == 0
    {
      CountAppend(hs, h, PassedOfGeneration(user, g));
      CountAppend(hs, h, OfGeneration(user, g));
    }
    CountAppend(hs, h, OfGeneration(user, c'.gen));
  }

  /** Each generation of k requests passes exactly min(k, limit) of them. */
  lemma {:induction false} GenerationExact(es: seq<Event>, limit: int, user: string)
    requires InOrder(es) && AllAnswered(es)
    ensures Tally(Hits(es, limit), user, limit, Of(Counters(es), user))
  {
    if es != [] {
      var n := |es| - 1;
      var init, e := es[..n], es[n];
      GenerationExact(init, limit, user);
      LastingRun(init, user);
      var c := Of(Counters(init), user);
      if e.Request? {
        if e.user == user {
          TallyRequest(Hits(init, limit), user, limit, c, e.at);
        } else {
          OtherUser(Hits(init, limit), Record(Of(Counters(init), e.user), e, limit), user, limit, c);
        }
      }
    }
  }

  lemma OtherUser(hs: seq<Hit>, h: Hit, user: string, limit: int, c: Counter)
    requires Tally(hs, user, limit, c) && h.user != user
    ensures Tally(hs + [h], user, limit, c)
  {
    forall g: nat
      ensures CountHits(hs + [h], PassedOfGeneration(user, g)) == CountHits(hs, PassedOfGeneration(user, g))
      ensures CountHits(hs + [h], OfGeneration(user, g)) == CountHits(hs, OfGeneration(user, g))
    {
      CountAppend(hs, h, PassedOfGeneration(user, g));
      CountAppend(hs, h, OfGeneration(user, g));
    }
  }

  // ---------- Generations lie apart ----------

  /** Births of a user's generations, recorded where rank 1 was drawn: a later one is at least
      a minute later for every generation in between. */
  lemma {:induction false} BirthsApart(es: seq<Event>, limit: int, i: nat, j: nat)
    requires InOrder(es) && AllAnswered(es)
    requires i < j < |Hits(es, limit)|
    requires Hits(es, limit)[i].user == Hits(es, limit)[j].user
    requires Hits(es, limit)[i].rank == Hits(es, limit)[j].rank == 1
    ensures var a, b := Hits(es, limit)[i], Hits(es, limit)[j];
            a.gen < b.gen && b.at >= a.at + MINUTE * (b.gen - a.gen)
  {
    var n := |es| - 1;
    var init, e := es[..n], es[n];
    var hs := Hits(init, limit);
    if j < |hs| {
      BirthsApart(init, limit, i, j);
    } else {
      BirthBehind(init, limit, i);
      LastingRun(init, e.user);
      OneMinuteMore(Of(Counters(init), e.user).gen - Hits(es, limit)[i].gen);
    }
  }

  lemma OneMinuteMore(k: int)
    ensures MINUTE * (k + 1) == MINUTE * k + MINUTE
  {
  }

  /** A recorded birth is the present generation's or lies whole minutes before it. */
  lemma {:induction false} BirthBehind(es: seq<Event>, limit: int, i: nat)
    requires InOrder(es) && AllAnswered(es)
    requires i < |Hits(es, limit)| && Hits(es, limit)[i].rank == 1
    ensures var h := Hits(es, limit)[i];
            var c := Of(Counters(es), h.user);
            0 < h.gen <= c.gen && c.born >= h.at + MINUTE * (c.gen - h.gen)
  {
    var n := |es| - 1;
    var init, e := es[..n], es[n];
    var h := Hits(es, limit)[i];
    LastingRun(init, e.user);
    if i < |Hits(init, limit)| {
      BirthBehind(init, limit, i);
      OneMinuteMore(Of(Counters(init), h.user).gen - h.gen);
    }
  }

  // ---------- Any minute ----------

  /** How many the counter has passed in a minute so far, by where its generation was born. A
      generation born before the minute drew its first rank before it too. */
  ghost predicate Window(w: nat, limit: int, c: Counter, from: int) {
    var l := Max0(limit);
    if c.gen == 0 then w == 0
    else if c.born < from then w <= Max0(Min(c.n, l) - 1)
    else if c.born < from + MINUTE then w <= Max0(l - 1) + Min(c.n, l)
    else w <= Max0(l - 1) + l
  }

  lemma WindowStep(w: nat, limit: int, c: Counter, from: int, e: Event)
    requires Window(w, limit, c, from) && Lasting(c)
    requires (c.gen > 0 ==> c.born <= e.at) && (w > 0 ==> from <= e.at)
    ensures Window(w + (if Passes(c, e, limit, e.user, from) then 1 else 0), limit, StepCounter(c, e), from)
  {
  }

  /** Whether an event is a request of this user that the counter passes in the minute. */
  predicate Passes(c: Counter, e: Event, limit: int, user: string, from: int) {
    && e.user == user && e.Request? && e.link == Fine
    && StepCounter(c, e).n <= limit && from <= e.at < from + MINUTE
  }

  /** What one more event does to a user's counter and to what has passed in the minute. */
  lemma PassedStep(es: seq<Event>, e: Event, limit: int, user: string, from: int)
    ensures var c := Of(Counters(es), user);
            && Of(Counters(es + [e]), user) == (if e.user == user then StepCounter(c, e) else c)
            && CountHits(Hits(es + [e], limit), PassedIn(user, from))
               == CountHits(Hits(es, limit), PassedIn(user, from)) + (if Passes(c, e, limit, user, from) then 1 else 0)
  {
    HitsAppend(es, e, limit);
    if e.Request? {
      CountAppend(Hits(es, limit), Record(Of(Counters(es), e.user), e, limit), PassedIn(user, from));
    }
  }

  lemma {:induction false} WindowRun(es: seq<Event>, limit: int, user: string, from: int)
    requires InOrder(es)
    ensures var w := CountHits(Hits(es, limit), PassedIn(user, from));
            Window(w, limit, Of(Counters(es), user), from) && (w > 0 ==> from <= es[|es| - 1].at)
  {
    if es != [] {
      var n := |es| - 1;
      var init, e := es[..n], es[n];
      assert es == init + [e];
      WindowRun(init, limit, user, from);
      LastingRun(init, user);
      PassedStep(init, e, limit, user, from);
      if e.user == user {
        WindowStep(CountHits(Hits(init, limit), PassedIn(user, from)), limit, Of(Counters(init), user), from, e);
      }
    }
  }

  lemma {:induction false} PassSplit(hs: seq<Hit>, user: string, from: int)
    requires forall i :: 0 <= i < |hs| && !hs[i].counted ==> hs[i].passed
    ensures CountHits(hs, AnyPassIn(user, from))
            == CountHits(hs, PassedIn(user, from)) + CountHits(hs, FailedIn(user, from))
  {
    if hs != [] {
      PassSplit(hs[..|hs| - 1], user, from);
    }
  }

  lemma {:induction false} FailuresPass(es: seq<Event>, limit: int)
    ensures forall i :: 0 <= i < |Hits(es, limit)| && !Hits(es, limit)[i].counted ==> Hits(es, limit)[i].passed
  {
    if es != [] {
      FailuresPass(es[..|es| - 1], limit);
    }
  }

  /** The most a user gets through in one minute while Redis answers. */
  function Most(limit: int): nat {
    Max0(limit - 1) + Max0(limit)
  }

  /** In any half-open minute at most 2 * limit - 1 requests of a user pass, plus those whose
      INCR failed: two generations can meet inside a minute, but only the later one with its
      first request, and three cannot. This holds for every order of users and for EXPIREs
      that are late, lost or repeated. */
  lemma MinuteBound(es: seq<Event>, limit: int, user: string, from: int)
    requires InOrder(es)
    ensures var hs := Hits(es, limit);
            CountHits(hs, AnyPassIn(user, from)) <= Most(limit) + CountHits(hs, FailedIn(user, from))
  {
    WindowRun(es, limit, user, from);
    FailuresPass(es, limit);
    PassSplit(Hits(es, limit), user, from);
  }

  // ---------- The bound is reached ----------

  /** A run in order in which nothing is later than `last`. */
  ghost predicate UpTo(es: seq<Event>, last: int) {
    InOrder(es) && forall i :: 0 <= i < |es| ==> es[i].at <= last
  }

  /** `next` goes on from `es`, in order and at `from` or later. */
  ghost predicate Continues(es: seq<Event>, next: seq<Event>, from: int) {
    es <= next && InOrder(next) && forall i :: |es| <= i < |next| ==> next[i].at >= from
  }

  /** The same with every INCR answering. */
  ghost predicate GoesOn(es: seq<Event>, next: seq<Event>, from: int) {
    Continues(es, next, from) && forall i :: |es| <= i < |next| && next[i].Request? ==> next[i].link == Fine
  }

  lemma OnePasses(es: seq<Event>, limit: int, user: string, at: int, from: int)
    requires Incr(Of(Counters(es), user), at).n <= limit
    ensures var next := es + [Request(user, at, Fine)];
            && Of(Counters(next), user) == Incr(Of(Counters(es), user), at)
            && CountHits(Hits(next, limit), PassedIn(user, from))
               == CountHits(Hits(es, limit), PassedIn(user, from)) + (if from <= at < from + MINUTE then 1 else 0)
  {
    var e := Request(user, at, Fine);
    HitsAppend(es, e, limit);
    CountAppend(Hits(es, limit), Record(Of(Counters(es), user), e, limit), PassedIn(user, from));
  }

  /** k requests at one moment. */
  function Copies(user: string, at: int, k: nat): seq<Event> {
    seq(k, i => Request(user, at, Fine))
  }

  lemma OneMoreCopy(es: seq<Event>, user: string, at: int, k: nat)
    ensures es + Copies(user, at, k) + [Request(user, at, Fine)] == es + Copies(user, at, k + 1)
    ensures es + Copies(user, at, 0) == es
  {
  }

  lemma CopiesGoOn(es: seq<Event>, last: int, user: string, at: int, k: nat)
    requires UpTo(es, last) && last <= at
    ensures GoesOn(es, es + Copies(user, at, k), at) && UpTo(es + Copies(user, at, k), at)
  {
  }

  /** They all pass while the key is there and the limit is not reached. */
  lemma {:induction false} Burst(es: seq<Event>, limit: int, user: string, at: int, k: nat, from: int)
    returns (next: seq<Event>)
    requires from <= at < from + MINUTE
    requires var c := Of(Counters(es), user); !Gone(c, at) && c.n + k <= limit
    ensures next == es + Copies(user, at, k)
    ensures Of(Counters(next), user) == Of(Counters(es), user).(n := Of(Counters(es), user).n + k)
    ensures CountHits(Hits(next, limit), PassedIn(user, from)) == CountHits(Hits(es, limit), PassedIn(user, from)) + k
  {
    if k == 0 {
      next := es;
      OneMoreCopy(es, user, at, 0);
    } else {
      var before := Burst(es, limit, user, at, k - 1, from);
      OnePasses(before, limit, user, at, from);
      next := before + [Request(user, at, Fine)];
      OneMoreCopy(es, user, at, k - 1);
    }
  }

  /** A whole lifetime at one moment at which the key is gone. */
  lemma Lifetime(es: seq<Event>, limit: int, user: string, at: int, from: int) returns (next: seq<Event>)
    requires limit > 0 && from <= at < from + MINUTE && Gone(Of(Counters(es), user), at)
    ensures next == es + Copies(user, at, limit)
    ensures CountHits(Hits(next, limit), PassedIn(user, from))
            == CountHits(Hits(es, limit), PassedIn(user, from)) + limit
    ensures var c := Of(Counters(next), user); c.n == limit && c.deadline.None?
  {
    var one := es + [Request(user, at, Fine)];
    OnePasses(es, limit, user, at, from);
    next := Burst(one, limit, user, at, limit - 1, from);
    FirstCopy(es, user, at, limit);
  }

  lemma FirstCopy(es: seq<Event>, user: string, at: int, k: nat)
    requires k > 0
    ensures es + [Request(user, at, Fine)] + Copies(user, at, k - 1) == es + Copies(user, at, k)
  {
  }

  /** One request and its EXPIRE at time 0. */
  lemma Opening(limit: int, user: string) returns (es: seq<Event>)
    requires limit > 0
    ensures Of(Counters(es), user) == Counter(1, Some(MINUTE), 1, 0)
    ensures CountHits(Hits(es, limit), PassedIn(user, MINUTE - 1)) == 0
    ensures UpTo(es, 0) && AllAnswered(es)
  {
    es := [];
    OnePasses(es, limit, user, 0, MINUTE - 1);
    es := es + [Request(user, 0, Fine)];
    HitsAppend(es, Expire(user, 0), limit);
    es := es + [Expire(user, 0)];
  }

  /** For every positive limit some user reaches the bound: one request, the rest of the first
      lifetime just before it ends, and a whole second lifetime right after. */
  lemma MinuteBoundIsReached(limit: int, user: string) returns (es: seq<Event>, from: int)
    requires limit > 0
    ensures InOrder(es) && AllAnswered(es)
    ensures CountHits(Hits(es, limit), PassedIn(user, from)) == Most(limit)
  {
    from := MINUTE - 1;
    var opening := Opening(limit, user);
    var first := Burst(opening, limit, user, MINUTE - 1, limit - 1, from);
    CopiesGoOn(opening, 0, user, MINUTE - 1, limit - 1);
    es := Lifetime(first, limit, user, MINUTE, from);
    CopiesGoOn(first, MINUTE - 1, user, MINUTE, limit);
  }

  // ---------- When a minute passes more than the limit ----------

  /** The key will lapse inside the minute, and has been used but not used up. */
  predicate Splits(c: Counter, limit: int, from: int) {
    0 < c.n < limit && c.deadline.Some? && from < c.deadline.value < from + MINUTE
  }

  /** What the counter has passed in the minute so far, when nothing like that is ahead: only
      one lifetime contributes. */
  ghost predicate OneLifetime(w: nat, limit: int, c: Counter, from: int) {
    if c.gen == 0 then w == 0
    else if c.born < from then
      && w <= Min(c.n, limit) && !Splits(c, limit, from)
      && (w > 0 ==> c.deadline.None? || c.deadline.value >= from + MINUTE)
    else if c.born < from + MINUTE then w <= Min(c.n, limit)
    else w <= limit
  }

  lemma OneLifetimeStep(w: nat, limit: int, c: Counter, from: int, e: Event)
    requires limit > 0 && OneLifetime(w, limit, c, from) && Lasting(c) && e.at >= from
    requires c.gen > 0 ==> c.born <= e.at
    ensures OneLifetime(w + (if Passes(c, e, limit, e.user, from) then 1 else 0), limit, StepCounter(c, e), from)
  {
  }

  lemma {:induction false} OneLifetimeRun(es: seq<Event>, next: seq<Event>, limit: int, user: string, from: int)
    requires limit > 0 && UpTo(es, from - 1) && !Splits(Of(Counters(es), user), limit, from)
    requires Continues(es, next, from)
    ensures OneLifetime(CountHits(Hits(next, limit), PassedIn(user, from)), limit, Of(Counters(next), user), from)
    decreases |next|
  {
    if |next| == |es| {
      assert next == es;
      WindowRun(es, limit, user, from);
      LastingRun(es, user);
    } else {
      var n := |next| - 1;
      var init, e := next[..n], next[n];
      assert next == init + [e];
      OneLifetimeRun(es, init, limit, user, from);
      LastingRun(init, user);
      PassedStep(init, e, limit, user, from);
      OneLifetimeStep(CountHits(Hits(init, limit), PassedIn(user, from)), limit, Of(Counters(init), user), from, e);
    }
  }

  /** Some continuation passes more than the limit in the minute from `from`. */
  ghost predicate CanExceed(es: seq<Event>, limit: int, user: string, from: int) {
    exists next :: Continues(es, next, from) && CountHits(Hits(next, limit), PassedIn(user, from)) > limit
  }

  /** Use up the old lifetime at once and the new one when it lapses. */
  lemma Exceed(es: seq<Event>, limit: int, user: string, from: int)
    requires limit > 0 && UpTo(es, from - 1) && Splits(Of(Counters(es), user), limit, from)
    ensures CanExceed(es, limit, user, from)
  {
    var c := Of(Counters(es), user);
    var at := c.deadline.value;
    var mid := Burst(es, limit, user, from, limit - c.n, from);
    var next := Lifetime(mid, limit, user, at, from);
    SplitMinute(es, mid, next, user, from, limit - c.n, at, limit);
    WindowRun(es, limit, user, from);
  }

  lemma SplitMinute(es: seq<Event>, mid: seq<Event>, next: seq<Event>, user: string, from: int, k: nat, at: int, l: nat)
    requires UpTo(es, from - 1) && from <= at
    requires mid == es + Copies(user, from, k) && next == mid + Copies(user, at, l)
    ensures Continues(es, next, from)
  {
    CopiesGoOn(es, from - 1, user, from, k);
    CopiesGoOn(mid, from, user, at, l);
    ContinuesChain(es, mid, next, from, at);
  }

  lemma ContinuesChain(a: seq<Event>, b: seq<Event>, c: seq<Event>, from: int, at: int)
    requires Continues(a, b, from) && Continues(b, c, at) && from <= at
    ensures Continues(a, c, from)
  {
  }

  /** The window is not a sliding one: exactly when, at the start of a minute, the user's key
      will lapse inside it and is used but not used up, more than the limit can pass in it. */
  lemma ExceedsIff(es: seq<Event>, limit: int, user: string, from: int)
    requires limit > 0 && UpTo(es, from - 1)
    ensures CanExceed(es, limit, user, from) <==> Splits(Of(Counters(es), user), limit, from)
  {
    var c := Of(Counters(es), user);
    if Splits(c, limit, from) {
      Exceed(es, limit, user, from);
    } else {
      forall next | Continues(es, next, from)
        ensures CountHits(Hits(next, limit), PassedIn(user, from)) <= limit
      {
        OneLifetimeRun(es, next, limit, user, from);
      }
    }
  }

  // ---------- A lost EXPIRE ----------

  ghost predicate NoExpireFor(es: seq<Event>, user: string) {
    forall i :: 0 <= i < |es| ==> !(es[i].Expire? && es[i].user == user)
  }

  predicate Full(c: Counter, limit: int) {
    c.n > 0 && c.n >= limit && c.deadline.None?
  }

  lemma FullStays(es: seq<Event>, e: Event, limit: int, user: string)
    requires Full(Of(Counters(es), user), limit) && !(e.Expire? && e.user == user)
    ensures Full(Of(Counters(es + [e]), user), limit)
  {
    HitsAppend(es, e, limit);
  }

  lemma {:induction false} FullForEver(es: seq<Event>, more: seq<Event>, limit: int, user: string)
    requires NoExpireFor(more, user) && Full(Of(Counters(es), user), limit)
    ensures Full(Of(Counters(es + more), user), limit)
  {
    if more == [] {
      assert es + more == es;
    } else {
      var n := |more| - 1;
      assert es + more == es + more[..n] + [more[n]];
      FullForEver(es, more[..n], limit, user);
      FullStays(es + more[..n], more[n], limit, user);
    }
  }

  /** Whether a request with an answering INCR passes after this run. */
  ghost predicate LetThrough(es: seq<Event>, limit: int, user: string, at: int) {
    var hs := Hits(es + [Request(user, at, Fine)], limit);
    hs != [] && hs[|hs| - 1].user == user && hs[|hs| - 1].passed
  }

  lemma LetThroughIff(es: seq<Event>, limit: int, user: string, at: int)
    requires limit > 0
    ensures var c := Of(Counters(es), user);
            LetThrough(es, limit, user, at) <==> Gone(c, at) || c.n < limit
  {
    HitsAppend(es, Request(user, at, Fine), limit);
  }

  /** No request of the user passes in any continuation without an EXPIRE for the key. */
  ghost predicate LockedOut(es: seq<Event>, limit: int, user: string) {
    forall more: seq<Event>, at ::
      NoExpireFor(more, user) && InOrder(es + more + [Request(user, at, Fine)])
      ==> !LetThrough(es + more, limit, user, at)
  }

  /** The window is a minute only if some EXPIRE arrives: exactly a full counter without a
      deadline refuses its user at every later time until one does. */
  lemma LockedOutIff(es: seq<Event>, limit: int, user: string)
    requires limit > 0 && InOrder(es)
    ensures var c := Of(Counters(es), user);
            LockedOut(es, limit, user) <==> c.n >= limit && c.deadline.None?
  {
    var c := Of(Counters(es), user);
    if c.n >= limit && c.deadline.None? {
      forall more: seq<Event>, at | NoExpireFor(more, user) && InOrder(es + more + [Request(user, at, Fine)])
        ensures !LetThrough(es + more, limit, user, at)
      {
        FullForEver(es, more, limit, user);
        LetThroughIff(es + more, limit, user, at);
      }
    } else {
      // The user comes back at the deadline, if there is one, or at once.
      var last := if es == [] then 0 else es[|es| - 1].at;
      var at := if c.deadline.Some? && c.deadline.value > last then c.deadline.value else last;
      LetThroughIff(es, limit, user, at);
      var none: seq<Event> := [];
      assert es + none == es;
      assert NoExpireFor(none, user) && InOrder(es + none + [Request(user, at, Fine)]);
      assert LetThrough(es + none, limit, user, at);
    }
  }

  /** Such a counter is reached by limit requests and no EXPIRE, for every positive limit. */
  lemma LockoutIsReached(limit: int, user: string) returns (es: seq<Event>)
    requires limit > 0
    ensures InOrder(es) && AllAnswered(es) && LockedOut(es, limit, user)
    ensures CountHits(Hits(es, limit), PassedIn(user, 0)) == limit
  {
    var none: seq<Event> := [];
    es := Lifetime(none, limit, user, 0, 0);
    CopiesGoOn(none, 0, user, 0, limit);
    LockedOutIff(es, limit, user);
  }

  /** An EXPIRE that finds the key, however late, ends it: with no later EXPIRE, and the user
      away from the deadline on, the next request after it passes. */
  lemma ExpireEndsLockout(es: seq<Event>, more: seq<Event>, limit: int, user: string, t: int, at: int)
    requires limit > 0 && !Gone(Of(Counters(es), user), t) && NoExpireFor(more, user)
    requires forall i :: 0 <= i < |more| && more[i].user == user ==> more[i].at < t + MINUTE
    requires at >= t + MINUTE
    ensures LetThrough(es + [Expire(user, t)] + more, limit, user, at)
  {
    HitsAppend(es, Expire(user, t), limit);
    DeadlineKept(es + [Expire(user, t)], more, limit, user, t + MINUTE);
    LetThroughIff(es + [Expire(user, t)] + more, limit, user, at);
  }

  lemma {:induction false} DeadlineKept(es: seq<Event>, more: seq<Event>, limit: int, user: string, d: int)
    requires NoExpireFor(more, user)
    requires forall i :: 0 <= i < |more| && more[i].user == user ==> more[i].at < d
    requires var c := Of(Counters(es), user); c.n > 0 && c.deadline == Some(d)
    ensures var c := Of(Counters(es + more), user); c.n > 0 && c.deadline == Some(d)
  {
    if more == [] {
      assert es + more == es;
    } else {
      var n := |more| - 1;
      assert es + more == es + more[..n] + [more[n]];
      DeadlineKept(es, more[..n], limit, user, d);
      HitsAppend(es + more[..n], more[n], limit);
    }
  }
}
