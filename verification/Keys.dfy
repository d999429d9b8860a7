/** The strings the services write to Redis: keys of five kinds and token states. Printing is
    injective and readers invert it, so the flat string store behaves as the typed maps that
    the rest of the model uses. */
module Keys {
  import opened Domain
  import opened Stock

  // ---------- %d ----------

  function DigitChar(d: nat): char
    requires d < 10
  {
    '0' + d as char
  }

  function Digits(n: nat): (s: string)
    ensures |s| > 0 && forall i :: 0 <= i < |s| ==> '0' <= s[i] <= '9'
  {
    if n < 10 then [DigitChar(n)] else Digits(n / 10) + [DigitChar(n % 10)]
  }

  function Decimal(x: int): string {
    if x < 0 then "-" + Digits(-x) else Digits(x)
  }

  function DigitsValue(s: string): nat {
    if s == [] then 0
    else
      var c := s[|s| - 1];
      DigitsValue(s[..|s| - 1]) * 10 + (if '0' <= c <= '9' then (c as int - '0' as int) else 0)
  }

  /** strconv.Atoi, Lua's tonumber and INCRBY on what `Decimal` printed. */
  function ParseInt(s: string): int {
    if s != [] && s[0] == '-' then -(DigitsValue(s[1..]) as int) else DigitsValue(s)
  }

  lemma {:induction false} DigitsValueOfDigits(n: nat)
    ensures DigitsValue(Digits(n)) == n
  {
    if n < 10 {
      assert Digits(n)[..0] == [];
    } else {
      DigitsValueOfDigits(n / 10);
      var s := Digits(n / 10) + [DigitChar(n % 10)];
      assert s[..|s| - 1] == Digits(n / 10);
    }
  }

  /** Reading a printed number gives it back. */
  lemma ParsePrinted(x: int)
    ensures ParseInt(Decimal(x)) == x
  {
    if x < 0 {
      DigitsValueOfDigits(-x);
      assert Decimal(x)[1..] == Digits(-x);
    } else {
      DigitsValueOfDigits(x);
    }
  }

  lemma DecimalInjective(x: int, y: int)
    requires Decimal(x) == Decimal(y)
    ensures x == y
  {
    ParsePrinted(x);
    ParsePrinted(y);
  }

  predicate NoColon(s: string) {
    forall i :: 0 <= i < |s| ==> s[i] != ':'
  }

  lemma DecimalNoColon(x: int)
    ensures NoColon(Decimal(x))
  {
  }

  // ---------- Keys ----------

  /** Every key the services touch. */
  datatype Key =
    | StockOf(act: int)
    | UserBuy(act: int, user: int)
    | Idem(act: int, user: int, token: string)
    | QueueOf(token: string)
    | RateOf(header: string)

  function Print(k: Key): string {
    match k
    case StockOf(act) => "stock:" + Decimal(act)
    case UserBuy(act, user) => "user_buy:" + Decimal(act) + ":" + Decimal(user)
    case Idem(act, user, token) => "idem:" + Decimal(act) + ":" + Decimal(user) + ":" + token
    case QueueOf(token) => "queue:" + token
    case RateOf(header) => "ratelimit:user:" + header
  }

  function FirstColon(s: string): nat {
    if s == [] || s[0] == ':' then 0 else 1 + FirstColon(s[1..])
  }

  lemma {:induction false} FirstColonAfter(a: string, x: string)
    requires NoColon(a)
    ensures FirstColon(a + ":" + x) == |a|
  {
    var s := a + ":" + x;
    if a == [] {
      assert s[0] == ':';
    } else {
      assert s[0] == a[0] && s[1..] == a[1..] + ":" + x;
      FirstColonAfter(a[1..], x);
    }
  }

  lemma SplitAtColon(a: string, x: string, b: string, y: string)
    requires NoColon(a) && NoColon(b) && a + ":" + x == b + ":" + y
    ensures a == b && x == y
  {
    FirstColonAfter(a, x);
    FirstColonAfter(b, y);
    var s, t := a + ":" + x, b + ":" + y;
    assert a == s[..|a|] && b == t[..|b|];
    assert x == s[|a| + 1..] && y == t[|b| + 1..];
  }

  lemma DropPrefix(p: string, x: string, y: string)
    requires p + x == p + y
    ensures x == y
  {
    assert x == (p + x)[|p|..] && y == (p + y)[|p|..];
  }

  lemma Regroup(p: string, a: string, b: string, c: string)
    ensures p + a + ":" + b + ":" + c == p + (a + ":" + (b + ":" + c))
    ensures p + a + ":" + b == p + (a + ":" + b)
  {
  }

  /** The two numbers at the front of a key body determine it together with its tail. */
  lemma TwoNumbers(a: int, u: int, x: string, b: int, v: int, y: string)
    requires Decimal(a) + ":" + (Decimal(u) + ":" + x) == Decimal(b) + ":" + (Decimal(v) + ":" + y)
    ensures a == b && u == v && x == y
  {
    DecimalNoColon(a); DecimalNoColon(b); DecimalNoColon(u); DecimalNoColon(v);
    SplitAtColon(Decimal(a), Decimal(u) + ":" + x, Decimal(b), Decimal(v) + ":" + y);
    SplitAtColon(Decimal(u), x, Decimal(v), y);
    DecimalInjective(a, b);
    DecimalInjective(u, v);
  }

  lemma UserBuyInjective(a: int, u: int, b: int, v: int)
    requires Print(UserBuy(a, u)) == Print(UserBuy(b, v))
    ensures a == b && u == v
  {
    var p := "user_buy:";
    Regroup(p, Decimal(a), Decimal(u), "");
    Regroup(p, Decimal(b), Decimal(v), "");
    DropPrefix(p, Decimal(a) + ":" + Decimal(u), Decimal(b) + ":" + Decimal(v));
    DecimalNoColon(a); DecimalNoColon(b);
    SplitAtColon(Decimal(a), Decimal(u), Decimal(b), Decimal(v));
    DecimalInjective(a, b);
    DecimalInjective(u, v);
  }

  lemma IdemInjective(a: int, u: int, x: string, b: int, v: int, y: string)
    requires Print(Idem(a, u, x)) == Print(Idem(b, v, y))
    ensures a == b && u == v && x == y
  {
    var p := "idem:";
    var s, t := Decimal(a) + ":" + (Decimal(u) + ":" + x), Decimal(b) + ":" + (Decimal(v) + ":" + y);
    Regroup(p, Decimal(a), Decimal(u), x);
    Regroup(p, Decimal(b), Decimal(v), y);
    DropPrefix(p, s, t);
    TwoNumbers(a, u, x, b, v, y);
  }

  /** The kind of a key is its first letter. */
  function Initial(k: Key): char {
    match k
    case StockOf(_) => 's'
    case UserBuy(_, _) => 'u'
    case Idem(_, _, _) => 'i'
    case QueueOf(_) => 'q'
    case RateOf(_) => 'r'
  }

  lemma InitialIsFirst(k: Key)
    ensures |Print(k)| > 0 && Print(k)[0] == Initial(k)
  {
  }

  /** Over all ids and all token strings, even ones with colons in them: no two keys share a
      string, within a kind or across kinds. */
  lemma KeysInjective(k: Key, l: Key)
    requires Print(k) == Print(l)
    ensures k == l
  {
    InitialIsFirst(k);
    InitialIsFirst(l);
    match k {
      case StockOf(a) =>
        DropPrefix("stock:", Decimal(a), Decimal(l.act));
        DecimalInjective(a, l.act);
      case UserBuy(a, u) => UserBuyInjective(a, u, l.act, l.user);
      case Idem(a, u, x) => IdemInjective(a, u, x, l.act, l.user, l.token);
      case QueueOf(x) => DropPrefix("queue:", x, l.token);
      case RateOf(x) => DropPrefix("ratelimit:user:", x, l.header);
    }
  }

  // ---------- The flat store ----------

  type Flat = map<string, string>

  function Get(flat: Flat, key: string): Option<string> {
    if key in flat then Some(flat[key]) else None
  }

  /** The typed maps: stock and user counters, token states, idempotency records, rate counts. */
  datatype Typed = Typed(
    redis: Redis, queue: map<string, TokenState>, idem: map<(int, int, string), string>, rate: map<string, int>)

  /** What the typed maps hold under a key. */
  function Cell(m: Typed, k: Key): Option<string> {
    match k
    case StockOf(a) => if a in m.redis.stock then Some(Decimal(m.redis.stock[a])) else None
    case UserBuy(a, u) => if (a, u) in m.redis.bought then Some(Decimal(m.redis.bought[(a, u)])) else None
    case Idem(a, u, t) => if (a, u, t) in m.idem then Some(m.idem[(a, u, t)]) else None
    case QueueOf(t) => if t in m.queue then Some(PrintState(m.queue[t])) else None
    case RateOf(h) => if h in m.rate then Some(Decimal(m.rate[h])) else None
  }

  /** The string store holds what the typed maps hold. */
  ghost predicate Represents(flat: Flat, m: Typed) {
    forall k: Key {:trigger Cell(m, k)} :: Get(flat, Print(k)) == Cell(m, k)
  }

  /** A write under one printed key is read back there and nowhere else. */
  lemma WriteOne(flat: Flat, w: Key, v: string, k: Key)
    ensures Get(flat[Print(w) := v], Print(k)) == if k == w then Some(v) else Get(flat, Print(k))
  {
    if Print(k) == Print(w) {
      KeysInjective(k, w);
    }
  }

  /** Under which key, and to what, an update of the typed maps writes. */
  lemma WriteCell(flat: Flat, m: Typed, m': Typed, w: Key, v: string)
    requires Represents(flat, m)
    requires Cell(m', w) == Some(v) && forall k {:trigger Cell(m', k)} :: k != w ==> Cell(m', k) == Cell(m, k)
    ensures Represents(flat[Print(w) := v], m')
  {
    forall k ensures Get(flat[Print(w) := v], Print(k)) == Cell(m', k) {
      assert Get(flat, Print(k)) == Cell(m, k);
      WriteOne(flat, w, v, k);
    }
  }

  lemma WriteStock(flat: Flat, m: Typed, act: int, v: int)
    requires Represents(flat, m)
    ensures Represents(flat[Print(StockOf(act)) := Decimal(v)],
                       m.(redis := Redis(m.redis.stock[act := v], m.redis.bought)))
  {
    WriteCell(flat, m, m.(redis := Redis(m.redis.stock[act := v], m.redis.bought)), StockOf(act), Decimal(v));
  }

  lemma WriteUserBuy(flat: Flat, m: Typed, act: int, user: int, v: int)
    requires Represents(flat, m)
    ensures Represents(flat[Print(UserBuy(act, user)) := Decimal(v)],
                       m.(redis := Redis(m.redis.stock, m.redis.bought[(act, user) := v])))
  {
    WriteCell(flat, m, m.(redis := Redis(m.redis.stock, m.redis.bought[(act, user) := v])),
              UserBuy(act, user), Decimal(v));
  }

  /** SET queue:{t} on strings is the update of the typed map. */
  lemma WriteToken(flat: Flat, m: Typed, t: string, v: TokenState)
    requires Represents(flat, m)
    ensures Represents(flat[Print(QueueOf(t)) := PrintState(v)], m.(queue := m.queue[t := v]))
  {
    WriteCell(flat, m, m.(queue := m.queue[t := v]), QueueOf(t), PrintState(v));
  }

  /** So is SETNX and SET of an idempotency record. */
  lemma WriteIdem(flat: Flat, m: Typed, act: int, user: int, token: string, v: string)
    requires Represents(flat, m)
    ensures Print(Idem(act, user, token)) in flat <==> (act, user, token) in m.idem
    ensures Represents(flat[Print(Idem(act, user, token)) := v], m.(idem := m.idem[(act, user, token) := v]))
  {
    assert Get(flat, Print(Idem(act, user, token))) == Cell(m, Idem(act, user, token));
    WriteCell(flat, m, m.(idem := m.idem[(act, user, token) := v]), Idem(act, user, token), v);
  }

  /** INCR on strings: read, parse, print. */
  function IncrString(flat: Flat, key: string): (Flat, int) {
    var n := (if key in flat then ParseInt(flat[key]) else 0) + 1;
    (flat[key := Decimal(n)], n)
  }

  /** And INCR of a rate counter. */
  lemma IncrRefines(flat: Flat, m: Typed, header: string)
    requires Represents(flat, m)
    ensures var n := (if header in m.rate then m.rate[header] else 0) + 1;
            var (flat', v) := IncrString(flat, Print(RateOf(header)));
            v == n && Represents(flat', m.(rate := m.rate[header := n]))
  {
    assert Get(flat, Print(RateOf(header))) == Cell(m, RateOf(header));
    if header in m.rate {
      ParsePrinted(m.rate[header]);
    }
    var n := (if header in m.rate then m.rate[header] else 0) + 1;
    WriteCell(flat, m, m.(rate := m.rate[header := n]), RateOf(header), Decimal(n));
  }

  /** A key that expires or is deleted takes nothing else with it. */
  lemma DropOne(flat: Flat, w: Key, k: Key)
    ensures Get(flat - {Print(w)}, Print(k)) == if k == w then None else Get(flat, Print(k))
  {
    if Print(k) == Print(w) {
      KeysInjective(k, w);
    }
  }

  /** The script as it runs: on strings, under the keys it is given. */
  function ScriptOnStrings(flat: Flat, stockKey: string, userKey: string, n: int, limit: int): (Flat, int) {
    if stockKey !in flat then (flat, -3)
    else
      var stock := ParseInt(flat[stockKey]);
      if stock < n then (flat, -1)
      else
        var bought := ParseInt(if userKey in flat then flat[userKey] else "0");
        if bought + n > limit then (flat, -2)
        else (flat[stockKey := Decimal(stock - n)][userKey := Decimal(bought + n)], stock - n)
  }

  /** What the script reads through printed keys is what the typed maps hold. */
  lemma ReadsAgree(flat: Flat, m: Typed, act: int, user: int)
    requires Represents(flat, m)
    ensures Print(StockOf(act)) in flat <==> act in m.redis.stock
    ensures act in m.redis.stock ==> ParseInt(flat[Print(StockOf(act))]) == m.redis.stock[act]
    ensures var key := Print(UserBuy(act, user));
            ParseInt(if key in flat then flat[key] else "0") == Bought(m.redis, act, user)
  {
    var r := m.redis;
    assert Get(flat, Print(StockOf(act))) == Cell(m, StockOf(act));
    assert Get(flat, Print(UserBuy(act, user))) == Cell(m, UserBuy(act, user));
    if act in r.stock {
      ParsePrinted(r.stock[act]);
    }
    ParsePrinted(Bought(r, act, user));
    assert Decimal(0) == "0";
    ParsePrinted(0);
  }

  /** The script's two writes. */
  function Granted(flat: Flat, act: int, user: int, left: int, bought: int): Flat {
    flat[Print(StockOf(act)) := Decimal(left)][Print(UserBuy(act, user)) := Decimal(bought)]
  }

  lemma GrantedRefines(flat: Flat, m: Typed, act: int, user: int, left: int, bought: int)
    requires Represents(flat, m)
    ensures Represents(Granted(flat, act, user, left, bought),
                       m.(redis := Redis(m.redis.stock[act := left], m.redis.bought[(act, user) := bought])))
  {
    WriteStock(flat, m, act, left);
    var half := m.(redis := Redis(m.redis.stock[act := left], m.redis.bought));
    WriteUserBuy(flat[Print(StockOf(act)) := Decimal(left)], half, act, user, bought);
  }

  predicate Grants(r: Redis, act: int, user: int, n: int, limit: int) {
    act in r.stock && r.stock[act] >= n && Bought(r, act, user) + n <= limit
  }

  lemma ScriptAgrees(flat: Flat, r: Redis, act: int, user: int, n: int, limit: int)
    requires Print(StockOf(act)) in flat <==> act in r.stock
    requires act in r.stock ==> ParseInt(flat[Print(StockOf(act))]) == r.stock[act]
    requires var key := Print(UserBuy(act, user));
             ParseInt(if key in flat then flat[key] else "0") == Bought(r, act, user)
    ensures var (flat', v) := ScriptOnStrings(flat, Print(StockOf(act)), Print(UserBuy(act, user)), n, limit);
            var (r', v') := Script(r, act, user, n, limit);
            && v == v'
            && (if Grants(r, act, user, n, limit) then
                  var left, bought := r.stock[act] - n, Bought(r, act, user) + n;
                  && flat' == Granted(flat, act, user, left, bought)
                  && r' == Redis(r.stock[act := left], r.bought[(act, user) := bought])
                else flat' == flat && r' == r)
  {
  }

  /** On the keys the repository prints, the script on strings does to the flat store what the
      typed script does to the typed counters, returns the same code, and changes nothing else. */
  lemma ScriptRefines(flat: Flat, m: Typed, act: int, user: int, n: int, limit: int)
    requires Represents(flat, m)
    ensures var (flat', v) := ScriptOnStrings(flat, Print(StockOf(act)), Print(UserBuy(act, user)), n, limit);
            var (r', v') := Script(m.redis, act, user, n, limit);
            v == v' && Represents(flat', m.(redis := r'))
  {
    var r := m.redis;
    ReadsAgree(flat, m, act, user);
    ScriptAgrees(flat, r, act, user, n, limit);
    var flat' := ScriptOnStrings(flat, Print(StockOf(act)), Print(UserBuy(act, user)), n, limit).0;
    var r' := Script(r, act, user, n, limit).0;
    if Grants(r, act, user, n, limit) {
      var left, bought := r.stock[act] - n, Bought(r, act, user) + n;
      GrantedRefines(flat, m, act, user, left, bought);
      assert flat' == Granted(flat, act, user, left, bought)
          && r' == Redis(r.stock[act := left], r.bought[(act, user) := bought]);
    } else {
      assert flat' == flat && m.(redis := r') == m;
    }
  }

  /** It leaves every other key alone: queue tokens, idempotency keys, rate counters, other
      activities and other users. */
  lemma ScriptFrame(flat: Flat, act: int, user: int, n: int, limit: int, k: Key)
    requires k != StockOf(act) && k != UserBuy(act, user)
    ensures var flat' := ScriptOnStrings(flat, Print(StockOf(act)), Print(UserBuy(act, user)), n, limit).0;
            Get(flat', Print(k)) == Get(flat, Print(k))
  {
    if Print(k) == Print(StockOf(act)) {
      KeysInjective(k, StockOf(act));
    } else if Print(k) == Print(UserBuy(act, user)) {
      KeysInjective(k, UserBuy(act, user));
    }
  }

  // ---------- Token states ----------

  function PrintState(s: TokenState): string {
    match s
    case Waiting => "queued"
    case Success(id) => "success:" + Decimal(id)
    case Failed(reason) => "failed:" + reason
  }

  /** The response of OrderByToken: one of the states, or an error status. */
  datatype View =
    | IsQueued | IsSuccess(orderId: string) | IsFailed(reason: string) | IsMissing | IsOther(state: string)
    | BadRequest | ServerError

  predicate HasPrefix(s: string, p: string) {
    p <= s
  }

  /** The switch of the handler. */
  function Decode(state: string): View {
    if state == "queued" then IsQueued
    else if HasPrefix(state, "success:") then IsSuccess(state[8..])
    else if HasPrefix(state, "failed:") then IsFailed(state[7..])
    else if state == "not_found" then IsMissing
    else IsOther(state)
  }

  /** QueueService.Get and the handler around it; `up` is false when the GET itself fails. */
  function Respond(flat: Flat, token: string, up: bool): View {
    if token == "" then BadRequest
    else if !up then ServerError
    else Decode(if Print(QueueOf(token)) in flat then flat[Print(QueueOf(token))] else "not_found")
  }

  lemma StateStarts(s: TokenState)
    ensures |PrintState(s)| > 0
    ensures PrintState(s)[0] == if s.Waiting? then 'q' else if s.Success? then 's' else 'f'
  {
  }

  /** Decoding a printed state returns the state, whatever a failure's reason says. */
  lemma DecodePrinted(s: TokenState)
    ensures Decode(PrintState(s)) == match s
                                     case Waiting => IsQueued
                                     case Success(id) => IsSuccess(Decimal(id))
                                     case Failed(reason) => IsFailed(reason)
  {
    var p := PrintState(s);
    StateStarts(s);
    match s {
      case Waiting =>
      case Success(id) =>
        assert p[8..] == Decimal(id);
      case Failed(reason) =>
        assert p[7..] == reason;
        assert HasPrefix(p, "failed:");
    }
  }

  /** What a client sees while Redis answers is the typed state of its token, and nothing else
      reads "missing"; a failed GET is never taken for a missing token. */
  lemma RespondShowsState(flat: Flat, m: Typed, t: string, up: bool)
    requires Represents(flat, m)
    ensures Respond(flat, t, up) == if t == "" then BadRequest
                                    else if !up then ServerError
                                    else if t !in m.queue then IsMissing
                                    else match m.queue[t]
                                         case Waiting => IsQueued
                                         case Success(id) => IsSuccess(Decimal(id))
                                         case Failed(reason) => IsFailed(reason)
  {
    assert Get(flat, Print(QueueOf(t))) == Cell(m, QueueOf(t));
    if t in m.queue {
      DecodePrinted(m.queue[t]);
    } else {
      assert "not_found"[0] == 'n';
    }
  }

  /** Reading the id back completes the round trip. */
  lemma SuccessIdReadsBack(id: int)
    ensures Decode(PrintState(Success(id))).IsSuccess?
    ensures ParseInt(Decode(PrintState(Success(id))).orderId) == id
  {
    DecodePrinted(Success(id));
    ParsePrinted(id);
  }

  // ---------- Tokens ----------

  /** The hex-and-dash format of section 4 of RFC 9562. */
  predicate IsUuid(s: string) {
    |s| == 36 && s[8] == s[13] == s[18] == s[23] == '-'
  }

  predicate WellFormed(t: QueueToken) {
    t.Uuid? ==> IsUuid(t.text)
  }

  function PrintToken(t: QueueToken): string {
    match t
    case NoToken => ""
    case Uuid(text) => text
    case OrderNo(id) => Decimal(id)
  }

  lemma DashOnlyInFront(x: int, i: nat)
    requires 0 < i < |Decimal(x)|
    ensures Decimal(x)[i] != '-'
  {
  }

  /** A printed order id is never a UUID, so the fallback token of one purchase cannot be the
      UUID token of another, and tokens may be told apart by their strings. */
  lemma TokensInjective(t: QueueToken, u: QueueToken)
    requires WellFormed(t) && WellFormed(u) && PrintToken(t) == PrintToken(u)
    ensures t == u
  {
    if t.OrderNo? && u.OrderNo? {
      DecimalInjective(t.id, u.id);
    } else if t.OrderNo? && u.Uuid? {
      DashOnlyInFront(t.id, 8);
    } else if t.Uuid? && u.OrderNo? {
      DashOnlyInFront(u.id, 8);
    }
  }
}
