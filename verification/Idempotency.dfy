/** The idempotency middleware (internal/middleware/idempotency.go): one Redis key per
    (activity, user, token), shared by any number of concurrent requests, and the response
    writer that captures the first answer. */
module Idempotency {
  import opened Domain

  newtype Byte = x: int | 0 <= x < 256

  type Bytes = seq<Byte>

  const MAX_REQUEST := 4 * 1024
  const MAX_CACHED := 16 * 1024

  // ---------- The response writer ----------

  /** bodyWriter's buffer. `touched` tells an empty slice from a nil one: it becomes true with
      the first byte that is buffered and survives Reset. */
  datatype Buf = Buf(bytes: Bytes, touched: bool, overflow: bool)

  function Absorb(b: Buf, p: Bytes, max: nat): Buf {
    if b.overflow then b
    else if |b.bytes| + |p| > max then Buf([], b.touched, true)
    else Buf(b.bytes + p, b.touched || p != [], false)
  }

  /** The buffer after a list of Write calls. */
  function Buffered(chunks: seq<Bytes>, max: nat): Buf {
    if chunks == [] then Buf([], false, false)
    else Absorb(Buffered(chunks[..|chunks| - 1], max), chunks[|chunks| - 1], max)
  }

  function Flat(chunks: seq<Bytes>): Bytes {
    if chunks == [] then [] else Flat(chunks[..|chunks| - 1]) + chunks[|chunks| - 1]
  }

  /** For any chunking: the writer overflows exactly when the total exceeds the cap, else it
      holds exactly the bytes written; after an overflow it holds none, for good. */
  lemma {:induction false} AnyChunking(chunks: seq<Bytes>, max: nat)
    ensures var b := Buffered(chunks, max);
            && (b.overflow <==> |Flat(chunks)| > max)
            && b.bytes == (if b.overflow then [] else Flat(chunks))
            && (!b.overflow ==> (b.touched <==> Flat(chunks) != []))
  {
    if chunks != [] {
      AnyChunking(chunks[..|chunks| - 1], max);
    }
  }

  class BodyWriter {
    const max: nat
    var buf: Bytes
    var touched: bool
    var overflow: bool
    /** What the client received. */
    var sent: Bytes
    ghost var chunks: seq<Bytes>

    constructor (max: nat)
      ensures Valid() && this.max == max && chunks == []
    {
      this.max, buf, touched, overflow, sent, chunks := max, [], false, false, [], [];
    }

    ghost predicate Valid()
      reads this
    {
      Buf(buf, touched, overflow) == Buffered(chunks, max) && sent == Flat(chunks)
    }

    /** Whatever happens to the buffer, the client gets every byte. */
    method Write(p: Bytes)
      requires Valid()
      modifies this
      ensures Valid() && chunks == old(chunks) + [p] && sent == old(sent) + p
    {
      assert (chunks + [p])[..|chunks|] == chunks;
      if !overflow {
        if |buf| + |p| > max {
          overflow := true;
          buf := [];
        } else {
          buf := buf + p;
          touched := touched || p != [];
        }
      }
      sent := sent + p;
      chunks := chunks + [p];
    }
  }

  // ---------- What is stored and what is replayed ----------

  /** The value under the key. `Broken` is a value that does not decode: the empty string that
      is stored when encoding the response failed. */
  datatype Cell = Absent | Processing | Cached(status: int, body: Bytes) | Broken

  /** What the middleware answers, or hands to c.Data. */
  datatype Reply = TooLarge | Conflict | ServerError | Response(status: int, body: Bytes) | Aborted

  /** What json.Marshal makes of a raw message: the compact form of valid JSON, else an error. */
  type Compact = Bytes -> Option<Bytes>

  /** "null", which a nil raw message becomes. */
  const NULL: Bytes := [110, 117, 108, 108]

  function Stored(json: Compact, status: int, b: Buf): Cell {
    if b.bytes == [] then (if b.touched then Broken else Cached(status, NULL))
    else match json(b.bytes)
         case Some(c) => Cached(status, c)
         case None => Broken
  }

  /** The answer to a request that finds this value. */
  function Answer(c: Cell): Reply
    requires !c.Absent?
  {
    match c
    case Processing => Conflict
    case Cached(status, body) => Response(status, body)
    case Broken => ServerError
  }

  /** A replay shows the first run's status and bytes exactly when the body is non-empty, at
      most 16 KiB and its own compact form. */
  lemma ReplayExactIff(json: Compact, status: int, chunks: seq<Bytes>)
    ensures Answer(Stored(json, status, Buffered(chunks, MAX_CACHED))) == Response(status, Flat(chunks))
            <==> 0 < |Flat(chunks)| <= MAX_CACHED && json(Flat(chunks)) == Some(Flat(chunks))
  {
    AnyChunking(chunks, MAX_CACHED);
  }

  /** Some bytes, but not too many, had been written after k calls. */
  ghost predicate Captured(chunks: seq<Bytes>, max: nat, k: nat) {
    k <= |chunks| && 0 < |Flat(chunks[..k])| <= max
  }

  lemma {:induction false} TouchedIff(chunks: seq<Bytes>, max: nat)
    ensures Buffered(chunks, max).touched <==> exists k: nat :: Captured(chunks, max, k)
  {
    AnyChunking(chunks, max);
    assert chunks[..|chunks|] == chunks;
    if chunks == [] {
      assert forall k: nat :: k <= 0 ==> chunks[..k] == [];
    } else {
      var n := |chunks| - 1;
      TouchedIff(chunks[..n], max);
      AnyChunking(chunks[..n], max);
      forall k: nat
        ensures Captured(chunks, max, k)
                <==> Captured(chunks[..n], max, k) || (k == n + 1 && Captured(chunks, max, n + 1))
      {
        if k <= n {
          assert chunks[..n][..k] == chunks[..k];
        }
      }
      assert Captured(chunks, max, n + 1) <==> 0 < |Flat(chunks)| <= max;
    }
  }

  /** What is replayed for a body that was captured: the first status and the compact form, or an
      error when there is none. */
  lemma CapturedBodyReplay(json: Compact, status: int, chunks: seq<Bytes>)
    requires 0 < |Flat(chunks)| <= MAX_CACHED
    ensures Answer(Stored(json, status, Buffered(chunks, MAX_CACHED)))
            == match json(Flat(chunks))
               case Some(c) => Response(status, c)
               case None => ServerError
  {
    AnyChunking(chunks, MAX_CACHED);
  }

  /** What is replayed for a body that was not captured: "null" when nothing was written or the
      very first bytes were too many, else an error. */
  lemma LostBodyReplay(json: Compact, status: int, chunks: seq<Bytes>)
    requires Flat(chunks) == [] || |Flat(chunks)| > MAX_CACHED
    ensures Answer(Stored(json, status, Buffered(chunks, MAX_CACHED)))
            == if exists k: nat :: Captured(chunks, MAX_CACHED, k) then ServerError else Response(status, NULL)
  {
    AnyChunking(chunks, MAX_CACHED);
    TouchedIff(chunks, MAX_CACHED);
  }

  // ---------- One key, many requests ----------

  /** Where one request with this key stands. `owner` marks the one whose SETNX created it. */
  datatype Client =
    | Arrived
    | Lost
    | Handling(owner: bool, chunks: seq<Bytes>)
    | Storing(status: int, chunks: seq<Bytes>)
    | Served(owner: bool, status: int, chunks: seq<Bytes>)
    | Panicked(owner: bool)
    | Turned(reply: Reply)

  predicate Ran(c: Client) {
    c.Handling? || c.Storing? || c.Served? || c.Panicked?
  }

  datatype Shared = Shared(cell: Cell, clients: seq<Client>)

  datatype Step =
    | Come
    | SetNx(i: nat, link: Link)
    | SetNxTwice(i: nat)
    | GetKey(i: nat, up: bool)
    | Emit(i: nat, chunk: Bytes)
    | Return(i: nat, status: int)
    | Panic(i: nat)
    | Store(i: nat, link: Link)
    | Lapse

  predicate Enabled(s: Shared, st: Step) {
    match st
    case Come => true
    case Lapse => !s.cell.Absent?
    case SetNx(i, _) => i < |s.clients| && s.clients[i].Arrived?
    case SetNxTwice(i) => i < |s.clients| && s.clients[i].Arrived?
    case GetKey(i, _) => i < |s.clients| && s.clients[i].Lost?
    case Emit(i, _) => i < |s.clients| && s.clients[i].Handling?
    case Return(i, _) => i < |s.clients| && s.clients[i].Handling?
    case Panic(i) => i < |s.clients| && s.clients[i].Handling?
    case Store(i, _) => i < |s.clients| && s.clients[i].Storing?
  }

  /** The request's own move. A failed SETNX fails open; one that the client library sent twice
      sees the answer to the second, so the creator takes itself for a loser; a panic skips the
      cache write. */
  function Move(json: Compact, cell: Cell, c: Client, st: Step): Client
    requires !st.Come? && !st.Lapse?
    requires ((st.SetNx? || st.SetNxTwice?) && c.Arrived?) || (st.GetKey? && c.Lost?) || (st.Store? && c.Storing?)
             || ((st.Emit? || st.Return? || st.Panic?) && c.Handling?)
  {
    match st
    case SetNx(_, link) =>
      if link != Fine then Handling(false, [])
      else if cell.Absent? then Handling(true, [])
      else Lost
    case SetNxTwice(_) => Lost
    case GetKey(_, up) =>
      if !up then Turned(ServerError)
      else if cell.Absent? then Handling(false, [])
      else Turned(Answer(cell))
    case Emit(_, chunk) => Handling(c.owner, c.chunks + [chunk])
    case Return(_, status) => if c.owner then Storing(status, c.chunks) else Served(false, status, c.chunks)
    case Panic(_) => Panicked(c.owner)
    case Store(_, _) => Served(true, c.status, c.chunks)
  }

  function NextCell(json: Compact, s: Shared, st: Step): Cell
    requires Enabled(s, st)
  {
    match st
    case Lapse => Absent
    case SetNx(_, link) => if link != Unreached && s.cell.Absent? then Processing else s.cell
    case SetNxTwice(_) => if s.cell.Absent? then Processing else s.cell
    case Store(i, link) =>
      if link == Unreached then s.cell
      else Stored(json, s.clients[i].status, Buffered(s.clients[i].chunks, MAX_CACHED))
    case _ => s.cell
  }

  function Next(json: Compact, s: Shared, st: Step): Shared {
    if !Enabled(s, st) then s
    else Shared(NextCell(json, s, st),
                if st.Come? then s.clients + [Arrived]
                else if st.Lapse? then s.clients
                else s.clients[st.i := Move(json, s.cell, s.clients[st.i], st)])
  }

  function Reach(json: Compact, tr: seq<Step>): Shared {
    if tr == [] then Shared(Absent, [])
    else Next(json, Reach(json, tr[..|tr| - 1]), tr[|tr| - 1])
  }

  lemma ReachStep(json: Compact, tr: seq<Step>, st: Step)
    ensures Reach(json, tr + [st]) == Next(json, Reach(json, tr), st)
  {
    assert (tr + [st])[..|tr|] == tr;
  }

  // ---------- How often the handler runs ----------

  function Runs(cs: seq<Client>): nat {
    if cs == [] then 0 else Runs(cs[..|cs| - 1]) + (if Ran(cs[|cs| - 1]) then 1 else 0)
  }

  lemma {:induction false} RunsUpdate(cs: seq<Client>, i: nat, c: Client)
    requires i < |cs|
    ensures Runs(cs[i := c]) == Runs(cs) - (if Ran(cs[i]) then 1 else 0) + (if Ran(c) then 1 else 0)
  {
    var n := |cs| - 1;
    if i < n {
      RunsUpdate(cs[..n], i, c);
      assert cs[i := c][..n] == cs[..n][i := c];
    } else {
      assert cs[i := c][..n] == cs[..n];
    }
  }

  lemma {:induction false} RunsPair(cs: seq<Client>, i: nat, j: nat)
    requires i < j < |cs| && Ran(cs[i]) && Ran(cs[j])
    ensures Runs(cs) >= 2
  {
    RunsUpdate(cs, i, Arrived);
    RunsUpdate(cs[i := Arrived], j, Arrived);
  }

  /** The events that let the handler run once more: a failed SETNX, a key that is gone when it
      is read, and the end of a key's life. */
  predicate Slip(s: Shared, st: Step) {
    Enabled(s, st) && (st.Lapse? || (st.SetNx? && st.link != Fine) || (st.GetKey? && st.up && s.cell.Absent?))
  }

  function Slips(json: Compact, tr: seq<Step>): nat {
    if tr == [] then 0
    else Slips(json, tr[..|tr| - 1]) + (if Slip(Reach(json, tr[..|tr| - 1]), tr[|tr| - 1]) then 1 else 0)
  }

  /** In every run of any number of requests the handler runs at most once, plus once per slip. */
  lemma {:induction false} RunsBounded(json: Compact, tr: seq<Step>)
    ensures var s := Reach(json, tr);
            Runs(s.clients) + (if s.cell.Absent? then 1 else 0) <= 1 + Slips(json, tr)
  {
    if tr != [] {
      var init, st := tr[..|tr| - 1], tr[|tr| - 1];
      RunsBounded(json, init);
      var s := Reach(json, init);
      if Enabled(s, st) {
        if st.Come? {
          assert (s.clients + [Arrived])[..|s.clients|] == s.clients;
        } else if !st.Lapse? {
          RunsUpdate(s.clients, st.i, Move(json, s.cell, s.clients[st.i], st));
        }
      }
    }
  }

  // ---------- Steady runs ----------

  /** The key lives and no SETNX fails. */
  ghost predicate Steady(tr: seq<Step>) {
    forall k :: 0 <= k < |tr| ==> !tr[k].Lapse? && (tr[k].SetNx? ==> tr[k].link == Fine)
  }

  /** What made the cell: the owner of the key, whose answer was stored. */
  predicate Source(json: Compact, c: Client, cell: Cell) {
    c.Served? && c.owner && cell == Stored(json, c.status, Buffered(c.chunks, MAX_CACHED))
  }

  predicate Filled(cell: Cell) {
    cell.Cached? || cell.Broken?
  }

  ghost predicate SteadyOk(json: Compact, s: Shared) {
    && Runs(s.clients) <= 1
    && (s.cell.Absent? ==> forall i :: 0 <= i < |s.clients| ==> s.clients[i].Arrived?)
    && (Filled(s.cell) ==> exists i :: 0 <= i < |s.clients| && Source(json, s.clients[i], s.cell))
  }

  /** A filled key is not written again: its writer is the only run, and it is done. */
  lemma FilledStays(json: Compact, s: Shared, st: Step)
    requires SteadyOk(json, s) && Filled(s.cell) && !st.Lapse?
    ensures Next(json, s, st).cell == s.cell
    ensures exists i :: 0 <= i < |s.clients| && Source(json, Next(json, s, st).clients[i], s.cell)
  {
    var s' := Next(json, s, st);
    var i :| 0 <= i < |s.clients| && Source(json, s.clients[i], s.cell);
    if Enabled(s, st) && st.Store? {
      RunsPair(s.clients, if i < st.i then i else st.i, if i < st.i then st.i else i);
    }
    assert Source(json, s'.clients[i], s.cell);
  }

  lemma SteadyStep(json: Compact, s: Shared, st: Step)
    requires SteadyOk(json, s) && !st.Lapse? && (st.SetNx? ==> st.link == Fine)
    ensures !Slip(s, st)
    ensures Runs(Next(json, s, st).clients) <= 1 ==> SteadyOk(json, Next(json, s, st))
  {
    var s' := Next(json, s, st);
    if Filled(s.cell) {
      FilledStays(json, s, st);
    } else if Enabled(s, st) && st.Store? && st.link != Unreached {
      assert Source(json, s'.clients[st.i], s'.cell);
    }
  }

  lemma {:induction false} SteadyRun(json: Compact, tr: seq<Step>)
    requires Steady(tr)
    ensures SteadyOk(json, Reach(json, tr)) && Slips(json, tr) == 0
  {
    if tr != [] {
      SteadyRun(json, tr[..|tr| - 1]);
      SteadyStep(json, Reach(json, tr[..|tr| - 1]), tr[|tr| - 1]);
      RunsBounded(json, tr);
    }
  }

  /** At most once: while the key lives and SETNX does not fail, however many requests arrive
      and however they interleave. */
  lemma AtMostOnce(json: Compact, tr: seq<Step>, i: nat, j: nat)
    requires Steady(tr) && i < j < |Reach(json, tr).clients|
    ensures !(Ran(Reach(json, tr).clients[i]) && Ran(Reach(json, tr).clients[j]))
    ensures Runs(Reach(json, tr).clients) <= 1
  {
    SteadyRun(json, tr);
    if Ran(Reach(json, tr).clients[i]) && Ran(Reach(json, tr).clients[j]) {
      RunsPair(Reach(json, tr).clients, i, j);
    }
  }

  /** Redis answers every GET. */
  ghost predicate GetsUp(tr: seq<Step>) {
    forall k :: 0 <= k < |tr| && tr[k].GetKey? ==> tr[k].up
  }

  /** Until the first answer is in the cache, everybody who was turned away was told 409. */
  lemma {:induction false} ConflictBeforeCache(json: Compact, tr: seq<Step>, i: nat)
    requires Steady(tr) && GetsUp(tr) && !Filled(Reach(json, tr).cell)
    requires i < |Reach(json, tr).clients| && Reach(json, tr).clients[i].Turned?
    ensures Reach(json, tr).clients[i].reply == Conflict
  {
    var init, st := tr[..|tr| - 1], tr[|tr| - 1];
    var s := Reach(json, init);
    SteadyRun(json, init);
    if Filled(s.cell) {
      FilledStays(json, s, st);
    }
    SteadyStep(json, s, st);
    if i < |s.clients| && s.clients[i].Turned? {
      ConflictBeforeCache(json, init, i);
    }
  }

  lemma {:induction false} CellKept(json: Compact, tr: seq<Step>, more: seq<Step>)
    requires Steady(tr + more) && Filled(Reach(json, tr).cell)
    ensures Reach(json, tr + more).cell == Reach(json, tr).cell
    decreases |more|
  {
    if more == [] {
      assert tr + more == tr;
    } else {
      var init, st := tr + more[..|more| - 1], more[|more| - 1];
      assert tr + more == init + [st] && (tr + more)[..|init|] == init && (tr + more)[|init|] == st;
      ReachStep(json, init, st);
      CellKept(json, tr, more[..|more| - 1]);
      SteadyRun(json, init);
      FilledStays(json, Reach(json, init), st);
    }
  }

  lemma TurnedByAnswer(json: Compact, s: Shared, st: Step, i: nat)
    requires !s.cell.Absent? && (st.GetKey? ==> st.up)
    requires i < |Next(json, s, st).clients| && Next(json, s, st).clients[i].Turned?
    ensures (i < |s.clients| && s.clients[i] == Next(json, s, st).clients[i])
            || Next(json, s, st).clients[i].reply == Answer(s.cell)
  {
  }

  /** Once it is there it stays, and everybody who is turned away from then on gets it. */
  lemma {:induction false} ReplayAfterCache(json: Compact, tr: seq<Step>, more: seq<Step>, i: nat)
    requires Steady(tr + more) && GetsUp(tr + more) && Filled(Reach(json, tr).cell)
    requires i < |Reach(json, tr + more).clients| && Reach(json, tr + more).clients[i].Turned?
    requires i < |Reach(json, tr).clients| ==> !Reach(json, tr).clients[i].Turned?
    ensures Reach(json, tr + more).clients[i].reply == Answer(Reach(json, tr).cell)
    decreases |more|
  {
    assert more != [] || tr + more == tr;
    var init, st := tr + more[..|more| - 1], more[|more| - 1];
    assert tr + more == init + [st] && (tr + more)[..|init|] == init && (tr + more)[|init|] == st;
    ReachStep(json, init, st);
    CellKept(json, tr, more[..|more| - 1]);
    var s := Reach(json, init);
    if i < |s.clients| && s.clients[i].Turned? {
      ReplayAfterCache(json, tr, more[..|more| - 1], i);
    }
    TurnedByAnswer(json, s, st, i);
  }

  /** The two halves together: after the cache write of the one handler run, everybody gets
      that run's status and bytes exactly when its body is non-empty, at most 16 KiB and
      compact, for any chunking of its writes. */
  lemma ReplayIsFirstRun(json: Compact, tr: seq<Step>, more: seq<Step>, i: nat) returns (w: nat)
    requires Steady(tr + more) && GetsUp(tr + more) && Filled(Reach(json, tr).cell)
    requires i < |Reach(json, tr + more).clients| && Reach(json, tr + more).clients[i].Turned?
    requires i < |Reach(json, tr).clients| ==> !Reach(json, tr).clients[i].Turned?
    ensures w < |Reach(json, tr).clients| && Reach(json, tr).clients[w].Served?
    ensures var first := Reach(json, tr).clients[w];
            Reach(json, tr + more).clients[i].reply == Response(first.status, Flat(first.chunks))
            <==> 0 < |Flat(first.chunks)| <= MAX_CACHED && json(Flat(first.chunks)) == Some(Flat(first.chunks))
  {
    assert Steady(tr) by { assert (tr + more)[..|tr|] == tr; }
    SteadyRun(json, tr);
    w :| 0 <= w < |Reach(json, tr).clients| && Source(json, Reach(json, tr).clients[w], Reach(json, tr).cell);
    ReplayAfterCache(json, tr, more, i);
    ReplayExactIff(json, Reach(json, tr).clients[w].status, Reach(json, tr).clients[w].chunks);
  }

  // ---------- A key nobody will fill ----------

  /** A request that is going to write the answer: the key's creator, with its handler at work
      or its cache write due. */
  predicate Writer(c: Client) {
    (c.Handling? && c.owner) || c.Storing?
  }

  /** The key says "processing" and nobody is left who would change that. */
  ghost predicate Abandoned(s: Shared) {
    s.cell.Processing? && forall i :: 0 <= i < |s.clients| ==> !Writer(s.clients[i])
  }

  /** Four ways there: the handler panics, the cache write is lost, SETNX creates the key but
      reports an error, or it is sent twice and its sender takes itself for a loser. */
  lemma AbandonedIsReached(json: Compact)
    ensures Abandoned(Reach(json, [Come, SetNx(0, Fine), Panic(0)]))
    ensures Abandoned(Reach(json, [Come, SetNx(0, Fine), Return(0, 200), Store(0, Unreached)]))
    ensures Abandoned(Reach(json, [Come, SetNx(0, LostReply)]))
    ensures Abandoned(Reach(json, [Come, SetNxTwice(0)]))
  {
    var created := [Come, SetNx(0, Fine)];
    FirstSteps(json);
    Then(json, created, Panic(0), [Come, SetNx(0, Fine), Panic(0)]);
    LostWrite(json);
  }

  lemma LostWrite(json: Compact)
    ensures Abandoned(Reach(json, [Come, SetNx(0, Fine), Return(0, 200), Store(0, Unreached)]))
  {
    var returned := [Come, SetNx(0, Fine), Return(0, 200)];
    FirstSteps(json);
    Then(json, [Come, SetNx(0, Fine)], Return(0, 200), returned);
    assert Reach(json, returned) == Shared(Processing, [Storing(200, [])]);
    Then(json, returned, Store(0, Unreached), [Come, SetNx(0, Fine), Return(0, 200), Store(0, Unreached)]);
  }

  lemma Then(json: Compact, tr: seq<Step>, st: Step, next: seq<Step>)
    requires next == tr + [st]
    ensures Reach(json, next) == Next(json, Reach(json, tr), st)
  {
    ReachStep(json, tr, st);
  }

  lemma FirstSteps(json: Compact)
    ensures Reach(json, [Come, SetNx(0, Fine)]) == Shared(Processing, [Handling(true, [])])
    ensures Reach(json, [Come, SetNx(0, LostReply)]) == Shared(Processing, [Handling(false, [])])
    ensures Reach(json, [Come, SetNxTwice(0)]) == Shared(Processing, [Lost])
  {
    Then(json, [], Come, [Come]);
    assert Reach(json, [Come]) == Shared(Absent, [Arrived]);
    Then(json, [Come], SetNx(0, Fine), [Come, SetNx(0, Fine)]);
    Then(json, [Come], SetNx(0, LostReply), [Come, SetNx(0, LostReply)]);
    Then(json, [Come], SetNxTwice(0), [Come, SetNxTwice(0)]);
  }

  /** Such a key stays as it is for the rest of its life: the handler is not run again, and
      everybody turned away from then on is told 409. */
  lemma {:induction false} AbandonedStays(json: Compact, tr: seq<Step>, more: seq<Step>)
    requires Steady(more) && Abandoned(Reach(json, tr))
    ensures Abandoned(Reach(json, tr + more))
    ensures Runs(Reach(json, tr + more).clients) == Runs(Reach(json, tr).clients)
    ensures GetsUp(more) ==>
              forall i :: 0 <= i < |Reach(json, tr + more).clients| && Reach(json, tr + more).clients[i].Turned?
                          && !(i < |Reach(json, tr).clients| && Reach(json, tr).clients[i].Turned?)
                ==> Reach(json, tr + more).clients[i].reply == Conflict
    decreases |more|
  {
    if more == [] {
      assert tr + more == tr;
    } else {
      var n := |more| - 1;
      assert tr + more == tr + more[..n] + [more[n]];
      AbandonedStays(json, tr, more[..n]);
      ReachStep(json, tr + more[..n], more[n]);
      var s := Reach(json, tr + more[..n]);
      AbandonedStep(json, s, more[n]);
      if GetsUp(more) {
        forall i | 0 <= i < |Reach(json, tr + more).clients| && Reach(json, tr + more).clients[i].Turned?
          ensures (i < |s.clients| && s.clients[i] == Reach(json, tr + more).clients[i])
                  || Reach(json, tr + more).clients[i].reply == Conflict
        {
          TurnedByAnswer(json, s, more[n], i);
        }
      }
    }
  }

  lemma AbandonedStep(json: Compact, s: Shared, st: Step)
    requires Abandoned(s) && !st.Lapse? && (st.SetNx? ==> st.link == Fine)
    ensures Abandoned(Next(json, s, st)) && Runs(Next(json, s, st).clients) == Runs(s.clients)
  {
    if Enabled(s, st) {
      if st.Come? {
        assert (s.clients + [Arrived])[..|s.clients|] == s.clients;
      } else {
        RunsUpdate(s.clients, st.i, Move(json, s.cell, s.clients[st.i], st));
      }
    }
  }

  /** From here on the key says "processing" as long as it lives. */
  ghost predicate Stuck(json: Compact, tr: seq<Step>) {
    forall more :: Steady(more) ==> Reach(json, tr + more).cell.Processing?
  }

  /** A key is stuck on "processing" exactly when nobody is left to write the answer. */
  lemma StuckIff(json: Compact, tr: seq<Step>)
    requires Reach(json, tr).cell.Processing?
    ensures Stuck(json, tr) <==> Abandoned(Reach(json, tr))
  {
    var s := Reach(json, tr);
    if Abandoned(s) {
      forall more | Steady(more) ensures Reach(json, tr + more).cell.Processing? {
        AbandonedStays(json, tr, more);
      }
    } else {
      var i :| 0 <= i < |s.clients| && Writer(s.clients[i]);
      var more := Finish(json, tr, i);
      assert !Reach(json, tr + more).cell.Processing?;
    }
  }

  /** The writer's own way to the cache. */
  lemma Finish(json: Compact, tr: seq<Step>, i: nat) returns (more: seq<Step>)
    requires i < |Reach(json, tr).clients| && Writer(Reach(json, tr).clients[i])
    ensures Steady(more) && Filled(Reach(json, tr + more).cell)
  {
    if Reach(json, tr).clients[i].Storing? {
      more := [Store(i, Fine)];
      ReachStep(json, tr, Store(i, Fine));
    } else {
      more := [Return(i, 200), Store(i, Fine)];
      ReachStep(json, tr, Return(i, 200));
      ReachStep(json, tr + [Return(i, 200)], Store(i, Fine));
      assert tr + more == tr + [Return(i, 200)] + [Store(i, Fine)];
    }
  }

  // ---------- The middleware ----------

  /** What the handler behind the middleware does with the request. */
  datatype HandlerRun = Returns(status: int, chunks: seq<Bytes>) | Panics(chunks: seq<Bytes>)

  function Shown(run: HandlerRun): Reply {
    match run
    case Returns(status, chunks) => Response(status, Flat(chunks))
    case Panics(_) => Aborted
  }

  function Mover(st: Step): Option<nat> {
    match st
    case Come => None
    case Lapse => None
    case SetNx(i, _) => Some(i)
    case SetNxTwice(i) => Some(i)
    case GetKey(i, _) => Some(i)
    case Emit(i, _) => Some(i)
    case Return(i, _) => Some(i)
    case Panic(i) => Some(i)
    case Store(i, _) => Some(i)
  }

  lemma {:induction false} OthersKeep(json: Compact, tr: seq<Step>, env: seq<Step>, i: nat)
    requires i < |Reach(json, tr).clients| && forall k :: 0 <= k < |env| ==> Mover(env[k]) != Some(i)
    ensures i < |Reach(json, tr + env).clients|
    ensures Reach(json, tr + env).clients[i] == Reach(json, tr).clients[i]
    decreases |env|
  {
    if env == [] {
      assert tr + env == tr;
    } else {
      var n := |env| - 1;
      assert tr + env == tr + env[..n] + [env[n]];
      OthersKeep(json, tr, env[..n], i);
      ReachStep(json, tr + env[..n], env[n]);
    }
  }

  /** A schedule and the state after it. */
  datatype Moment = Moment(trace: seq<Step>, s: Shared)

  /** The equation stays out of the solver's way until `MomentIff` brings it into view. */
  ghost predicate Real(json: Compact, m: Moment) {
    forall n: nat :: InView(n) ==> m.s == Reach(json, m.trace)
  }

  lemma MomentIff(json: Compact, m: Moment)
    ensures Real(json, m) <==> m.s == Reach(json, m.trace)
  {
    assert InView(0);
  }

  lemma RealStep(json: Compact, m: Moment, st: Step)
    requires Real(json, m)
    ensures Real(json, Moment(m.trace + [st], Next(json, m.s, st)))
  {
    MomentIff(json, m);
    ReachStep(json, m.trace, st);
    MomentIff(json, Moment(m.trace + [st], Next(json, m.s, st)));
  }

  /** The key in Redis, with the requests around it as history. */
  class IdemKey {
    const json: Compact
    var cell: Cell
    ghost var clients: seq<Client>
    ghost var trace: seq<Step>

    constructor (json: Compact)
      ensures Valid() && this.json == json && trace == []
    {
      this.json, cell, clients, trace := json, Absent, [], [];
    }

    ghost function Now(): Moment
      reads this
    {
      Moment(trace, Shared(cell, clients))
    }

    ghost predicate Valid()
      reads this
    {
      Real(json, Now())
    }

    /** Other requests move, and the key may lapse. The body is the quiet case; callers only know
        the contract. */
    method Turn(ghost i: nat) returns (ghost env: seq<Step>)
      requires Valid() && i < |clients|
      modifies this
      ensures Valid() && trace == old(trace) + env && forall k :: 0 <= k < |env| ==> Mover(env[k]) != Some(i)
      ensures i < |clients| && clients[i] == old(clients)[i]
    {
      env := [];
      MomentIff(json, Now());
      OthersKeep(json, trace, env, i);
    }

    ghost method Move(st: Step)
      requires Valid() && (st.Come? || st.Emit? || st.Return? || st.Panic?) && Enabled(Shared(cell, clients), st)
      modifies `clients, `trace
      ensures Valid() && trace == old(trace) + [st]
      ensures clients == Next(json, old(Shared(cell, clients)), st).clients
    {
      RealStep(json, Now(), st);
      clients := Next(json, Shared(cell, clients), st).clients;
      trace := trace + [st];
    }

    /** SETNX key "processing"; None is an error. `twice` means that the client library sent it
        again after losing the first answer. */
    method SetIfAbsent(ghost i: nat, link: Link, twice: bool) returns (set_: Option<bool>)
      requires Valid() && i < |clients| && clients[i].Arrived?
      modifies this
      ensures Valid() && trace == old(trace) + [if twice then SetNxTwice(i) else SetNx(i, link)]
      ensures cell == if (twice || link != Unreached) && old(cell).Absent? then Processing else old(cell)
      ensures set_ == if twice then Some(false) else if link == Fine then Some(old(cell).Absent?) else None
      ensures clients == old(clients)[i := if twice then Lost
                                           else if link != Fine then Handling(false, [])
                                           else if old(cell).Absent? then Handling(true, []) else Lost]
    {
      ghost var st := if twice then SetNxTwice(i) else SetNx(i, link);
      RealStep(json, Now(), st);
      set_ := if twice then Some(false) else if link == Fine then Some(cell.Absent?) else None;
      clients := clients[i := if twice then Lost
                              else if link != Fine then Handling(false, [])
                              else if cell.Absent? then Handling(true, []) else Lost];
      if (twice || link != Unreached) && cell.Absent? {
        cell := Processing;
      }
      trace := trace + [st];
    }

    /** GET key; None is an error, Absent the missing key. */
    method Get(ghost i: nat, up: bool) returns (v: Option<Cell>)
      requires Valid() && i < |clients| && clients[i].Lost?
      modifies `clients, `trace
      ensures Valid() && trace == old(trace) + [GetKey(i, up)]
      ensures v == if up then Some(old(cell)) else None
      ensures clients == old(clients)[i := if !up then Turned(ServerError)
                                           else if old(cell).Absent? then Handling(false, [])
                                           else Turned(Answer(old(cell)))]
    {
      RealStep(json, Now(), GetKey(i, up));
      v := if up then Some(cell) else None;
      clients := clients[i := if !up then Turned(ServerError)
                              else if cell.Absent? then Handling(false, []) else Turned(Answer(cell))];
      trace := trace + [GetKey(i, up)];
    }

    /** SET key; its error is ignored. */
    method Set(ghost i: nat, v: Cell, link: Link)
      requires Valid() && i < |clients| && clients[i].Storing?
      requires v == Stored(json, clients[i].status, Buffered(clients[i].chunks, MAX_CACHED))
      modifies this
      ensures Valid() && trace == old(trace) + [Store(i, link)]
      ensures cell == if link == Unreached then old(cell) else v
      ensures clients == old(clients)[i := Served(true, old(clients)[i].status, old(clients)[i].chunks)]
    {
      RealStep(json, Now(), Store(i, link));
      if link != Unreached {
        cell := v;
      }
      clients := clients[i := Served(true, clients[i].status, clients[i].chunks)];
      trace := trace + [Store(i, link)];
    }
  }

  /** What becomes of the commands of one request: SETNX, sent once or twice, GET and SET. */
  datatype Calls = Calls(setNx: Link, twice: bool, get: Link, set_: Link)

  /** This request creates the key it finds missing, and knows it. */
  predicate Creates(cell: Cell, calls: Calls) {
    !calls.twice && calls.setNx == Fine && cell.Absent?
  }

  /** This request takes itself for a loser and reads the key. */
  predicate Reads(cell: Cell, calls: Calls) {
    calls.twice || (calls.setNx == Fine && !cell.Absent?)
  }

  function AskStep(i: nat, calls: Calls): Step {
    if calls.twice then SetNxTwice(i) else SetNx(i, calls.setNx)
  }

  /** The answer, from the key at the SETNX and the key at the GET. */
  function Due(before: Cell, read: Cell, calls: Calls, run: HandlerRun): Reply {
    if !Reads(before, calls) then Shown(run)
    else if calls.get != Fine then ServerError
    else if read.Absent? then Shown(run)
    else Answer(read)
  }

  class Middleware {
    const k: IdemKey

    constructor (k: IdemKey)
      ensures this.k == k
    {
      this.k := k;
    }

    /** The recorded end of a request and the answer it was given. */
    static predicate Told(c: Client, run: HandlerRun, reply: Reply) {
      match c
      case Turned(r) => reply == r
      case Served(_, status, chunks) => run == Returns(status, chunks) && reply == Shown(run)
      case Panicked(_) => run.Panics? && reply == Shown(run)
      case _ => false
    }

    /** One request. A body that cannot be read, or is over 4 KiB, is refused; one without a
        readable token passes through and never touches the key. Any other ends as the run
        records it, with the answer due for the key as it was at its SETNX, after the schedule
        `before`, and at its GET, after the schedule `read`; the creator whose handler returned
        writes the answer, whatever becomes of that. */
    method Serve(readable: bool, size: nat, keyed: bool, calls: Calls, run: HandlerRun)
      returns (reply: Reply, ghost i: nat, ghost before: Moment, ghost read: Moment)
      requires k.Valid()
      modifies k
      ensures k.Valid()
      ensures !readable || size > 4096 ==> reply == TooLarge && k.trace == old(k.trace)
      ensures readable && size <= 4096 && !keyed ==> reply == Shown(run) && k.trace == old(k.trace)
      ensures readable && size <= 4096 && keyed ==>
                && i == |old(k.clients)| < |k.clients| && Told(k.clients[i], run, reply)
                && Real(k.json, before) && Real(k.json, read)
                && old(k.trace) <= before.trace <= read.trace <= k.trace
                && before.trace + [AskStep(i, calls)] <= k.trace
                && reply == Due(before.s.cell, read.s.cell, calls, run)
                && (Reads(before.s.cell, calls) ==>
                      && before.trace + [AskStep(i, calls)] <= read.trace
                      && read.trace + [GetKey(i, calls.get == Fine)] <= k.trace)
                && (Creates(before.s.cell, calls) && run.Returns? ==> Wrote(i, calls.set_, run.status, run.chunks))
    {
      i, before, read := |k.clients|, k.Now(), k.Now();
      if !readable || size > MAX_REQUEST {
        return TooLarge, i, before, read;
      }
      if !keyed {
        return Shown(run), i, before, read;
      }
      k.Move(Come);
      var _ := k.Turn(i);
      before, read := k.Now(), k.Now();
      var created := k.SetIfAbsent(i, calls.setNx, calls.twice);
      if created.None? {
        reply := PassThrough(i, run);
      } else if !created.value {
        reply, read := Loser(i, calls.get, run);
      } else {
        reply := Winner(i, calls.set_, run);
      }
    }

    /** The last thing that happened is this creator's cache write. */
    ghost predicate Wrote(i: nat, link: Link, status: int, chunks: seq<Bytes>)
      reads k
    {
      && k.trace != [] && k.trace[|k.trace| - 1] == Store(i, link)
      && i < |k.clients| && k.clients[i] == Served(true, status, chunks)
      && (link != Unreached ==> k.cell == Stored(k.json, status, Buffered(chunks, MAX_CACHED)))
    }

    method Loser(ghost i: nat, link: Link, run: HandlerRun) returns (reply: Reply, ghost read: Moment)
      requires k.Valid() && i < |k.clients| && k.clients[i].Lost?
      modifies k
      ensures k.Valid() && i < |k.clients| && Told(k.clients[i], run, reply)
      ensures Real(k.json, read) && old(k.trace) <= read.trace && read.trace + [GetKey(i, link == Fine)] <= k.trace
      ensures var cell := read.s.cell;
              reply == if link != Fine then ServerError else if cell.Absent? then Shown(run) else Answer(cell)
    {
      var _ := k.Turn(i);
      read := k.Now();
      var v := k.Get(i, link == Fine);
      if v == Some(Absent) {
        reply := PassThrough(i, run);
      } else if v.None? {
        reply := ServerError;
      } else if v == Some(Processing) {
        reply := Conflict;
      } else {
        match v.value {
          case Cached(status, body) => reply := Response(status, body);
          case _ => reply := ServerError;
        }
      }
    }

    /** The handler runs without a capturing writer. */
    method PassThrough(ghost i: nat, run: HandlerRun) returns (reply: Reply)
      requires k.Valid() && i < |k.clients| && k.clients[i] == Handling(false, [])
      modifies k
      ensures k.Valid() && old(k.trace) <= k.trace && i < |k.clients| && Told(k.clients[i], run, reply)
      ensures reply == Shown(run)
    {
      var n := 0;
      while n < |run.chunks|
        invariant 0 <= n <= |run.chunks| && k.Valid() && old(k.trace) <= k.trace
        invariant i < |k.clients| && k.clients[i] == Handling(false, run.chunks[..n])
      {
        var _ := k.Turn(i);
        k.Move(Emit(i, run.chunks[n]));
        n := n + 1;
      }
      match run {
        case Returns(status, _) => k.Move(Return(i, status));
        case Panics(_) => k.Move(Panic(i));
      }
      reply := Shown(run);
    }

    /** The handler runs behind the capturing writer, and its answer is stored unless it panics. */
    method Winner(ghost i: nat, link: Link, run: HandlerRun) returns (reply: Reply)
      requires k.Valid() && i < |k.clients| && k.clients[i] == Handling(true, [])
      modifies k
      ensures k.Valid() && old(k.trace) <= k.trace && i < |k.clients| && Told(k.clients[i], run, reply)
      ensures reply == Shown(run)
      ensures run.Returns? ==> Wrote(i, link, run.status, run.chunks)
    {
      var bw := Capture(i, run.chunks);
      match run {
        case Panics(_) =>
          k.Move(Panic(i));
          reply := Aborted;
        case Returns(status, _) =>
          k.Move(Return(i, status));
          var _ := k.Turn(i);
          k.Set(i, Stored(k.json, status, Buf(bw.buf, bw.touched, bw.overflow)), link);
          reply := Response(status, bw.sent);
      }
    }

    method Capture(ghost i: nat, chunks: seq<Bytes>) returns (bw: BodyWriter)
      requires k.Valid() && i < |k.clients| && k.clients[i] == Handling(true, [])
      modifies k
      ensures k.Valid() && old(k.trace) <= k.trace && i < |k.clients| && k.clients[i] == Handling(true, chunks)
      ensures fresh(bw) && bw.Valid() && bw.max == MAX_CACHED && bw.chunks == chunks
    {
      bw := new BodyWriter(MAX_CACHED);
      var n := 0;
      while n < |chunks|
        invariant 0 <= n <= |chunks| && k.Valid() && old(k.trace) <= k.trace
        invariant fresh(bw) && bw.Valid() && bw.max == MAX_CACHED && bw.chunks == chunks[..n]
        invariant i < |k.clients| && k.clients[i] == Handling(true, chunks[..n])
      {
        var _ := k.Turn(i);
        bw.Write(chunks[n]);
        k.Move(Emit(i, chunks[n]));
        n := n + 1;
      }
    }

    /** A request and its repetition, with any number of others around them. If the first one
        found no key (as when only arrivals precede it), its handler returned and its cache write
        took effect, then in a steady run the second, unless its GET fails, is told what was
        stored: the first response itself exactly when that is non-empty, at most 16 KiB and
        compact. */
    method ServeTwice(size: nat, size': nat, calls: Calls, calls': Calls, run: HandlerRun, run': HandlerRun)
      returns (reply: Reply, reply': Reply, ghost before: Moment)
      requires k.Valid() && size <= MAX_REQUEST && size' <= MAX_REQUEST
      modifies k
      ensures k.Valid() && Real(k.json, before) && old(k.trace) <= before.trace <= k.trace
      ensures old(k.cell).Absent? && (forall st :: st in before.trace[|old(k.trace)|..] ==> st.Come?) ==>
                before.s.cell.Absent?
      ensures Creates(before.s.cell, calls) && run.Returns? && calls.set_ != Unreached
              && Steady(k.trace) && (calls'.twice || calls'.setNx == Fine) && calls'.get == Fine ==>
                && reply == Response(run.status, Flat(run.chunks))
                && reply' == Answer(Stored(k.json, run.status, Buffered(run.chunks, MAX_CACHED)))
                && (reply' == reply <==> 0 < |Flat(run.chunks)| <= 16384
                                         && k.json(Flat(run.chunks)) == Some(Flat(run.chunks)))
    {
      ghost var was := k.Now();
      ghost var i, read;
      reply, i, before, read := Serve(true, size, true, calls, run);
      ghost var first := k.Now();
      ghost var before', read';
      reply', i, before', read' := Serve(true, size', true, calls', run');
      ArrivalsKeep(k.json, was, before);
      if run.Returns? && Creates(before.s.cell, calls) && calls.set_ != Unreached && Steady(k.trace) {
        DueSince(k.json, first, before', read', k.trace, calls', run');
        ReplayExactIff(k.json, run.status, run.chunks);
      }
    }
  }

  lemma ArrivalsKeep(json: Compact, was: Moment, now: Moment)
    requires Real(json, was) && Real(json, now) && was.trace <= now.trace
    ensures (forall st :: st in now.trace[|was.trace|..] ==> st.Come?) ==> now.s.cell == was.s.cell
  {
    MomentIff(json, was);
    MomentIff(json, now);
    OnlyArrivals(json, was.trace, now.trace);
  }

  lemma {:induction false} OnlyArrivals(json: Compact, was: seq<Step>, now: seq<Step>)
    requires was <= now
    ensures (forall st :: st in now[|was|..] ==> st.Come?) ==> Reach(json, now).cell == Reach(json, was).cell
    decreases |now|
  {
    if now != was {
      var n := |now| - 1;
      OnlyArrivals(json, was, now[..n]);
      assert now[|was|..][n - |was|] == now[n];
      assert forall st :: st in now[..n][|was|..] ==> st in now[|was|..];
    }
  }

  /** What is due after the cache write took effect. */
  lemma DueSince(json: Compact, was: Moment, before: Moment, read: Moment, end: seq<Step>, calls: Calls,
                 run: HandlerRun)
    requires Real(json, was) && Real(json, before) && Real(json, read)
    requires was.trace <= before.trace <= read.trace <= end && Steady(end) && Filled(was.s.cell)
    ensures (calls.twice || calls.setNx == Fine) && calls.get == Fine ==>
              Due(before.s.cell, read.s.cell, calls, run) == Answer(was.s.cell)
  {
    CellSince(json, was, before, end);
    CellSince(json, was, read, end);
  }

  lemma CellSince(json: Compact, was: Moment, now: Moment, end: seq<Step>)
    requires Real(json, was) && Real(json, now)
    requires was.trace <= now.trace <= end && Steady(end) && Filled(was.s.cell)
    ensures now.s.cell == was.s.cell
  {
    MomentIff(json, was);
    MomentIff(json, now);
    assert now.trace == was.trace + now.trace[|was.trace|..];
    CellKept(json, was.trace, now.trace[|was.trace|..]);
  }
}
