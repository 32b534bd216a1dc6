/** Refresh-token rotation: login hands out a token, refresh exchanges it, and reuse ends every session of the user. */
module RefreshTokens {
  import opened Wrappers
  import Orders

  /** Tokens are known by their hashes; what they are made of does not matter here. */
  type Hash = int

  datatype Token = Token(user: int, hash: Hash, expires: int, revokedAt: Option<int>, replacedBy: Option<int>)

  datatype State = State(rows: map<int, Token>, nextId: int)

  predicate Live(s: State, id: int) {
    id in s.rows && s.rows[id].revokedAt.None?
  }

  // -------------------------------------------------------------- table rules

  predicate HashTaken(s: State, hash: Hash) {
    exists id :: id in s.rows && s.rows[id].hash == hash
  }

  /** The unique index on the hash and the positive user id. */
  predicate CanCreate(s: State, user: int, hash: Hash) {
    user > 0 && !HashTaken(s, hash)
  }

  function Created(s: State, user: int, hash: Hash, expires: int): State {
    State(s.rows[s.nextId := Token(user, hash, expires, None, None)], s.nextId + 1)
  }

  /** Only a row not yet revoked is touched. */
  function Revoke(t: Token, now: int, replacedBy: Option<int>): Token {
    if t.revokedAt.Some? then t
    else t.(revokedAt := Some(now), replacedBy := if replacedBy.Some? then replacedBy else t.replacedBy)
  }

  function Revoked(s: State, id: int, now: int, replacedBy: Option<int>): State {
    if id in s.rows then s.(rows := s.rows[id := Revoke(s.rows[id], now, replacedBy)]) else s
  }

  function RevokedFor(s: State, user: int, now: int): State {
    if user <= 0 then s
    else s.(rows := map id | id in s.rows ::
      if s.rows[id].user == user then Revoke(s.rows[id], now, None) else s.rows[id])
  }

  class TokenTable {
    var rows: map<int, Token>
    var nextId: int

    function Snapshot(): State
      reads this
    {
      State(rows, nextId)
    }

    constructor ()
      ensures Snapshot() == State(map[], 1)
    {
      rows, nextId := map[], 1;
    }

    method CreateRefreshToken(user: int, hash: Hash, expires: int) returns (id: Option<int>)
      modifies this
      ensures id == if CanCreate(old(Snapshot()), user, hash) then Some(old(nextId)) else None
      ensures Snapshot() == if id.Some? then Created(old(Snapshot()), user, hash, expires) else old(Snapshot())
    {
      if user <= 0 || HashTaken(Snapshot(), hash) {
        return None;
      }
      id := Some(nextId);
      rows := rows[nextId := Token(user, hash, expires, None, None)];
      nextId := nextId + 1;
    }

    method GetRefreshTokenByHash(hash: Hash) returns (id: Option<int>)
      requires Sound(Snapshot())
      ensures id == Find(Snapshot(), hash)
    {
      var todo := rows.Keys;
      while todo != {}
        invariant todo <= rows.Keys
        invariant forall k | k in rows && k !in todo :: rows[k].hash != hash
        decreases |todo|
      {
        Orders.HasMember(todo);
        var k: int :| k in todo;
        if rows[k].hash == hash {
          FindIs(Snapshot(), hash, k);
          return Some(k);
        }
        todo := todo - {k};
      }
      return None;
    }

    method RevokeRefreshToken(id: int, replacedBy: Option<int>, now: int)
      modifies this`rows
      ensures Snapshot() == Revoked(old(Snapshot()), id, now, replacedBy)
    {
      if id in rows && rows[id].revokedAt.None? {
        var row := rows[id].(revokedAt := Some(now));
        if replacedBy.Some? {
          row := row.(replacedBy := replacedBy);
        }
        rows := rows[id := row];
      } else if id in rows {
        assert rows == rows[id := rows[id]];
      }
    }

    method RevokeAllRefreshTokensForUser(user: int, now: int)
      modifies this`rows
      ensures Snapshot() == RevokedFor(old(Snapshot()), user, now)
    {
      if user <= 0 {
        return;
      }
      rows := map id | id in rows :: if rows[id].user == user then Revoke(rows[id], now, None) else rows[id];
    }
  }

  /** Keys, the unique index, and where replacement links lead. */
  ghost predicate Sound(s: State) {
    && s.nextId > 0
    && (forall id | id in s.rows :: 0 < id < s.nextId && s.rows[id].user > 0)
    && (forall i, j | i in s.rows && j in s.rows && s.rows[i].hash == s.rows[j].hash :: i == j)
    && (forall id | id in s.rows && s.rows[id].replacedBy.Some? :: Linked(s, id, s.rows[id].replacedBy.value))
    && (forall i, j | i in s.rows && j in s.rows && s.rows[i].replacedBy.Some?
                      && s.rows[i].replacedBy == s.rows[j].replacedBy :: i == j)
  }

  /** A replaced token is revoked, and replaced by a newer one of the same user. */
  predicate Linked(s: State, id: int, next: int)
    requires id in s.rows
  {
    s.rows[id].revokedAt.Some? && next in s.rows && id < next && s.rows[next].user == s.rows[id].user
  }

  /** The row with a hash, if there is one. */
  ghost function Find(s: State, hash: Hash): (r: Option<int>)
    ensures r.Some? ==> r.value in s.rows && s.rows[r.value].hash == hash
    ensures r.None? ==> !HashTaken(s, hash)
  {
    if HashTaken(s, hash) then
      var id :| id in s.rows && s.rows[id].hash == hash;
      Some(id)
    else None
  }

  lemma {:induction false} FindIs(s: State, hash: Hash, id: int)
    requires Sound(s) && id in s.rows && s.rows[id].hash == hash
    ensures Find(s, hash) == Some(id)
  {
  }

  // ------------------------------------------------------------------- steps

  /**
   A request and what it meets outside the table: the user the credentials belong to, whether the
   token's user still exists, the hash of the newly generated token (none if generating failed), the
   times. A presented token is none when the request carries none.
   */
  datatype Op =
    | Login(user: Option<int>, issued: Option<Hash>, expires: int)
    | Refresh(presented: Option<Hash>, userKnown: bool, issued: Option<Hash>, expires: int, now: int)
    | Logout(presented: Option<Hash>, now: int)

  datatype Reply = Granted(token: Hash) | Invalid | Unauthorized | Expired | UnknownUser | ServerError | NoContent

  ghost function LoginStep(s: State, op: Op): (State, Reply)
    requires op.Login?
  {
    if op.user.None? then (s, Unauthorized)
    else if op.issued.None? || !CanCreate(s, op.user.value, op.issued.value) then (s, ServerError)
    else (Created(s, op.user.value, op.issued.value, op.expires), Granted(op.issued.value))
  }

  ghost function RefreshStep(s: State, op: Op): (State, Reply)
    requires op.Refresh?
  {
    if op.presented.None? then (s, Invalid)
    else match Find(s, op.presented.value)
      case None => (s, Unauthorized)
      case Some(id) =>
        var row := s.rows[id];
        if row.revokedAt.Some? then (RevokedFor(s, row.user, op.now), Unauthorized)
        else if op.now > row.expires then (Revoked(s, id, op.now, None), Expired)
        else if !op.userKnown then (s, UnknownUser)
        else if op.issued.None? || !CanCreate(s, row.user, op.issued.value) then (s, ServerError)
        else (Revoked(Created(s, row.user, op.issued.value, op.expires), id, op.now, Some(s.nextId)),
          Granted(op.issued.value))
  }

  ghost function LogoutStep(s: State, op: Op): (State, Reply)
    requires op.Logout?
  {
    if op.presented.None? then (s, Invalid)
    else match Find(s, op.presented.value)
      case None => (s, NoContent)
      case Some(id) => (Revoked(s, id, op.now, None), NoContent)
  }

  ghost function Step(s: State, op: Op): (State, Reply) {
    match op
    case Login(_, _, _) => LoginStep(s, op)
    case Refresh(_, _, _, _, _) => RefreshStep(s, op)
    case Logout(_, _) => LogoutStep(s, op)
  }

  method HandleLogin(db: TokenTable, user: Option<int>, issued: Option<Hash>, expires: int) returns (reply: Reply)
    modifies db
    ensures (db.Snapshot(), reply) == LoginStep(old(db.Snapshot()), Login(user, issued, expires))
  {
    if user.None? {
      return Unauthorized;
    }
    if issued.None? {
      return ServerError;
    }
    var id := db.CreateRefreshToken(user.value, issued.value, expires);
    if id.None? {
      return ServerError;
    }
    return Granted(issued.value);
  }

  method HandleRefresh(
    db: TokenTable, presented: Option<Hash>, userKnown: bool, issued: Option<Hash>, expires: int, now: int)
    returns (reply: Reply)
    requires Sound(db.Snapshot())
    modifies db
    ensures (db.Snapshot(), reply) ==
      RefreshStep(old(db.Snapshot()), Refresh(presented, userKnown, issued, expires, now))
  {
    if presented.None? {
      return Invalid;
    }
    var id := db.GetRefreshTokenByHash(presented.value);
    if id.None? {
      return Unauthorized;
    }
    var row := db.rows[id.value];
    if row.revokedAt.Some? {
      db.RevokeAllRefreshTokensForUser(row.user, now);
      return Unauthorized;
    }
    if now > row.expires {
      db.RevokeRefreshToken(id.value, None, now);
      return Expired;
    }
    if !userKnown {
      return UnknownUser;
    }
    if issued.None? {
      return ServerError;
    }
    var renewed := db.CreateRefreshToken(row.user, issued.value, expires);
    if renewed.None? {
      return ServerError;
    }
    db.RevokeRefreshToken(id.value, renewed, now);
    return Granted(issued.value);
  }

  method HandleLogout(db: TokenTable, presented: Option<Hash>, now: int) returns (reply: Reply)
    requires Sound(db.Snapshot())
    modifies db
    ensures (db.Snapshot(), reply) == LogoutStep(old(db.Snapshot()), Logout(presented, now))
  {
    if presented.None? {
      return Invalid;
    }
    var id := db.GetRefreshTokenByHash(presented.value);
    if id.None? {
      return NoContent;
    }
    db.RevokeRefreshToken(id.value, None, now);
    return NoContent;
  }

  // ----------------------------------------------------- what each request does

  /** The rows differ in the given ones at most. */
  ghost predicate OnlyChanged(s: State, after: State, changed: set<int>) {
    && after.rows.Keys >= s.rows.Keys
    && forall id | id in after.rows && id !in changed :: id in s.rows && after.rows[id] == s.rows[id]
  }

  ghost predicate Names(s: State, presented: Option<Hash>, id: int) {
    id in s.rows && presented == Some(s.rows[id].hash)
  }

  lemma {:induction false} FoundIsNamed(s: State, hash: Hash)
    ensures Find(s, hash).Some? ==> Names(s, Some(hash), Find(s, hash).value)
  {
  }

  /** The row was just revoked, at this time and with this successor; all else about it is as it was. */
  predicate JustRevoked(was: Token, now: Token, at: int, next: Option<int>) {
    && now.revokedAt == Some(at) && now.replacedBy == next
    && now.user == was.user && now.hash == was.hash && now.expires == was.expires
  }

  /**
   Logging out revokes the token presented, for good and without a successor, unless it was revoked
   before; it touches nothing else, and with an unknown token nothing at all.
   */
  lemma {:induction false} LogoutRevokes(s: State, op: Op, id: int)
    requires Sound(s) && op.Logout?
    ensures op.presented.None? ==> Step(s, op) == (s, Invalid)
    ensures op.presented.Some? ==> Step(s, op).1 == NoContent
    ensures (forall k :: !Names(s, op.presented, k)) ==> Step(s, op).0 == s
    ensures Names(s, op.presented, id) ==>
      && id in Step(s, op).0.rows && !Live(Step(s, op).0, id)
      && OnlyChanged(s, Step(s, op).0, {id})
      && (Live(s, id) ==> JustRevoked(s.rows[id], Step(s, op).0.rows[id], op.now, None))
      && (!Live(s, id) ==> Step(s, op).0 == s)
  {
    if Names(s, op.presented, id) {
      FindIs(s, op.presented.value, id);
      if !Live(s, id) {
        assert s.rows[id := s.rows[id]] == s.rows;
      }
    } else if op.presented.Some? {
      FoundIsNamed(s, op.presented.value);
    }
  }

  /**
   A login is granted exactly if the credentials belong to a user and a token could be generated and
   stored. Then there is one more row, live, with the user, hash and expiry given.
   */
  lemma {:induction false} LoginAdds(s: State, op: Op)
    requires Sound(s) && op.Login?
    ensures var (after, reply) := Step(s, op);
      && (reply.Granted? <==>
            && op.user.Some? && op.user.value > 0 && op.issued.Some?
            && forall id | id in s.rows :: s.rows[id].hash != op.issued.value)
      && (reply.Granted? ==>
            && reply == Granted(op.issued.value) && s.nextId !in s.rows && OnlyChanged(s, after, {s.nextId})
            && s.nextId in after.rows
            && after.rows[s.nextId] == Token(op.user.value, op.issued.value, op.expires, None, None))
      && (!reply.Granted? ==> after == s && reply == if op.user.None? then Unauthorized else ServerError)
  {
  }

  /**
   What a refresh answers, and what it does: the first obstacle counts. A revoked token revokes all its
   user's tokens, an expired one is revoked itself, the other obstacles change nothing; and without
   any the token is revoked in favour of a new one with the hash and expiry given.
   */
  lemma {:induction false} RefreshAnswers(s: State, op: Op, id: int)
    requires Sound(s) && op.Refresh? && Names(s, op.presented, id)
    ensures var (after, reply) := Step(s, op);
      if !Live(s, id) then
        && reply == Unauthorized && after.rows.Keys == s.rows.Keys
        && forall k | k in s.rows ::
             if s.rows[k].user == s.rows[id].user && Live(s, k) then JustRevoked(s.rows[k], after.rows[k], op.now, None)
             else after.rows[k] == s.rows[k]
      else if op.now > s.rows[id].expires then
        && reply == Expired && after.rows.Keys == s.rows.Keys && OnlyChanged(s, after, {id})
        && JustRevoked(s.rows[id], after.rows[id], op.now, None)
      else if !op.userKnown then reply == UnknownUser && after == s
      else if op.issued.None? || (exists k :: k in s.rows && s.rows[k].hash == op.issued.value) then
        reply == ServerError && after == s
      else
        && reply == Granted(op.issued.value) && OnlyChanged(s, after, {id, s.nextId})
        && s.nextId !in s.rows && s.nextId in after.rows
        && after.rows[s.nextId] == Token(s.rows[id].user, op.issued.value, op.expires, None, None)
        && JustRevoked(s.rows[id], after.rows[id], op.now, Some(s.nextId))
  {
    FindIs(s, op.presented.value, id);
  }

  /** A refresh with no token, or with an unknown one, is refused and changes nothing. */
  lemma {:induction false} UnknownRefused(s: State, op: Op)
    requires Sound(s) && op.Refresh? && forall id :: !Names(s, op.presented, id)
    ensures Step(s, op) == (s, if op.presented.None? then Invalid else Unauthorized)
  {
    if op.presented.Some? {
      FoundIsNamed(s, op.presented.value);
    }
  }

  // -------------------------------------------------------------------- runs

  ghost function Run(s: State, ops: seq<Op>): State {
    if ops == [] then s else Step(Run(s, ops[..|ops| - 1]), ops[|ops| - 1]).0
  }

  const EMPTY := State(map[], 1)

  lemma {:induction false} CreatedIsSound(s: State, user: int, hash: Hash, expires: int)
    requires Sound(s) && CanCreate(s, user, hash)
    ensures Sound(Created(s, user, hash, expires))
  {
  }

  lemma {:induction false} RevokedIsSound(s: State, id: int, now: int, next: Option<int>)
    requires Sound(s)
    requires next.Some? && Live(s, id) ==>
      next.value in s.rows && id < next.value && s.rows[next.value].user == s.rows[id].user
    requires next.Some? ==> forall k | k in s.rows :: s.rows[k].replacedBy != next
    ensures Sound(Revoked(s, id, now, next))
  {
    var after := Revoked(s, id, now, next);
    if Live(s, id) {
      forall k | k in after.rows && after.rows[k].replacedBy.Some?
        ensures Linked(after, k, after.rows[k].replacedBy.value)
      {
        assert k != id ==> Linked(s, k, s.rows[k].replacedBy.value);
      }
    } else {
      assert after.rows == s.rows;
    }
  }

  lemma {:induction false} RevokedForIsSound(s: State, user: int, now: int)
    requires Sound(s)
    ensures Sound(RevokedFor(s, user, now))
  {
  }

  lemma {:induction false} StepIsSound(s: State, op: Op)
    requires Sound(s)
    ensures Sound(Step(s, op).0)
  {
    match op
    case Login(user, issued, expires) =>
      if user.Some? && issued.Some? && CanCreate(s, user.value, issued.value) {
        CreatedIsSound(s, user.value, issued.value, expires);
      }
    case Refresh(presented, _, issued, expires, now) =>
      if presented.Some? && Find(s, presented.value).Some? {
        var id := Find(s, presented.value).value;
        RevokedForIsSound(s, s.rows[id].user, now);
        RevokedIsSound(s, id, now, None);
        if issued.Some? && CanCreate(s, s.rows[id].user, issued.value) {
          CreatedIsSound(s, s.rows[id].user, issued.value, expires);
          RevokedIsSound(Created(s, s.rows[id].user, issued.value, expires), id, now, Some(s.nextId));
        }
      }
    case Logout(presented, now) =>
      if presented.Some? && Find(s, presented.value).Some? {
        RevokedIsSound(s, Find(s, presented.value).value, now, None);
      }
  }

  /** After any run, replacement links go injectively to newer tokens of the same user, and from revoked ones only. */
  lemma {:induction false} RunIsSound(s: State, ops: seq<Op>)
    requires Sound(s)
    ensures Sound(Run(s, ops))
  {
    if ops != [] {
      RunIsSound(s, ops[..|ops| - 1]);
      StepIsSound(Run(s, ops[..|ops| - 1]), ops[|ops| - 1]);
    }
  }

  /** Nothing is forgotten: rows stay, with user, hash and expiry; and a revoked row never changes again. */
  ghost predicate Keeps(s: State, after: State) {
    forall id | id in s.rows :: id in after.rows && RowKept(s.rows[id], after.rows[id])
  }

  predicate RowKept(was: Token, now: Token) {
    && now.user == was.user && now.hash == was.hash && now.expires == was.expires
    && (was.revokedAt.Some? ==> now == was)
  }

  lemma {:induction false} StepKeeps(s: State, op: Op)
    requires Sound(s)
    ensures Keeps(s, Step(s, op).0)
  {
  }

  /** Over any run, revoked tokens stay revoked, with their links. */
  lemma {:induction false} RunKeeps(s: State, ops: seq<Op>)
    requires Sound(s)
    ensures Keeps(s, Run(s, ops))
  {
    if ops != [] {
      var before := Run(s, ops[..|ops| - 1]);
      RunKeeps(s, ops[..|ops| - 1]);
      RunIsSound(s, ops[..|ops| - 1]);
      StepKeeps(before, ops[|ops| - 1]);
      forall id | id in s.rows
        ensures RowKept(s.rows[id], Step(before, ops[|ops| - 1]).0.rows[id])
      {
        assert RowKept(s.rows[id], before.rows[id]);
      }
    }
  }

  /** Over any run after a token was presented to a logout, no refresh with it is granted. */
  lemma {:induction false} LoggedOutForGood(s: State, logout: Op, between: seq<Op>, later: Op)
    requires Sound(s) && logout.Logout? && later.Refresh?
    requires later.presented == logout.presented && exists id :: Names(s, logout.presented, id)
    ensures !Step(Run(Step(s, logout).0, between), later).1.Granted?
  {
    var id :| Names(s, logout.presented, id);
    LogoutRevokes(s, logout, id);
    var after := Step(s, logout).0;
    StepIsSound(s, logout);
    StepKeeps(s, logout);
    RunKeeps(after, between);
    RunIsSound(after, between);
    var reached := Run(after, between);
    assert RowKept(s.rows[id], after.rows[id]) && RowKept(after.rows[id], reached.rows[id]);
    RefreshAnswers(reached, later, id);
  }

  // ------------------------------------------------------- exchanged at most once

  /** The request exchanges the token for a new one. */
  ghost predicate Exchanges(s: State, op: Op, id: int) {
    op.Refresh? && op.presented.Some? && Find(s, op.presented.value) == Some(id) && RefreshStep(s, op).1.Granted?
  }

  /** A token is exchanged only while live and unexpired, and gets a live successor of the same user. */
  lemma {:induction false} ExchangeRotates(s: State, op: Op, id: int)
    requires Sound(s) && Exchanges(s, op, id)
    ensures Live(s, id) && op.now <= s.rows[id].expires
    ensures var after := Step(s, op).0;
      && !Live(after, id) && after.rows[id].replacedBy == Some(s.nextId)
      && Live(after, s.nextId) && after.rows[s.nextId].user == s.rows[id].user
      && Step(s, op).1 == Granted(after.rows[s.nextId].hash)
  {
  }

  /** Once exchanged, never again, whatever happens in between. */
  lemma {:induction false} ExchangedOnce(s: State, op: Op, between: seq<Op>, later: Op, id: int)
    requires Sound(s) && Exchanges(s, op, id)
    ensures !Exchanges(Run(Step(s, op).0, between), later, id)
  {
    ExchangeRotates(s, op, id);
    StepIsSound(s, op);
    RunKeeps(Step(s, op).0, between);
    RunIsSound(Step(s, op).0, between);
    var reached := Run(Step(s, op).0, between);
    if Exchanges(reached, later, id) {
      ExchangeRotates(reached, later, id);
      assert false;
    }
  }

  // ------------------------------------------------------------------- chains

  /** k replacement links lead from a to b. */
  predicate Leads(s: State, a: int, b: int, k: nat)
    decreases k
  {
    a in s.rows &&
    if k == 0 then a == b else s.rows[a].replacedBy.Some? && Leads(s, s.rows[a].replacedBy.value, b, k - 1)
  }

  /** Chains do not merge: of two tokens that lead to one, one leads to the other. */
  lemma {:induction false} ChainsAreDisjoint(s: State, a: int, b: int, c: int, j: nat, k: nat)
    requires Sound(s) && Leads(s, a, c, j) && Leads(s, b, c, k) && j >= k
    ensures Leads(s, a, b, j - k)
    decreases k
  {
    if k > 0 {
      var p := LastStep(s, a, c, j);
      var q := LastStep(s, b, c, k);
      assert p == q;
      ChainsAreDisjoint(s, a, b, p, j - 1, k - 1);
    }
  }

  /** The token before the last one of a chain. */
  lemma {:induction false} LastStep(s: State, a: int, c: int, k: nat) returns (p: int)
    requires Leads(s, a, c, k) && k > 0
    ensures Leads(s, a, p, k - 1) && p in s.rows && s.rows[p].replacedBy == Some(c)
    decreases k
  {
    if k == 1 {
      p := a;
    } else {
      p := LastStep(s, s.rows[a].replacedBy.value, c, k - 1);
    }
  }

  /** Links lead to newer tokens of the same user, so a chain has no ring; and all but its last token are revoked. */
  lemma {:induction false} ChainRises(s: State, a: int, b: int, k: nat)
    requires Sound(s) && Leads(s, a, b, k)
    ensures b in s.rows && s.rows[b].user == s.rows[a].user
    ensures k > 0 ==> a < b && !Live(s, a)
    decreases k
  {
    if k > 0 {
      assert Linked(s, a, s.rows[a].replacedBy.value);
      ChainRises(s, s.rows[a].replacedBy.value, b, k - 1);
    }
  }

  /** Of the tokens of one chain at most one is live. */
  lemma {:induction false} OneLivePerChain(s: State, a: int, b: int, c: int, j: nat, k: nat)
    requires Sound(s) && Leads(s, a, c, j) && Leads(s, b, c, k)
    requires Live(s, a) && Live(s, b)
    ensures a == b == c
  {
  }

  // -------------------------------------------------------------------- reuse

  ghost predicate NoneLive(s: State, user: int) {
    forall id | id in s.rows && s.rows[id].user == user :: !Live(s, id)
  }

  /** Presenting a revoked token for refresh revokes all its user's tokens, and no one else's. */
  lemma {:induction false} ReuseEndsSessions(s: State, op: Op, id: int)
    requires Sound(s) && op.Refresh? && op.presented.Some? && Find(s, op.presented.value) == Some(id) && !Live(s, id)
    ensures Step(s, op).1 == Unauthorized && NoneLive(Step(s, op).0, s.rows[id].user)
    ensures forall k | k in s.rows && s.rows[k].user != s.rows[id].user :: Step(s, op).0.rows[k] == s.rows[k]
  {
  }

  ghost predicate LogsIn(op: Op, user: int) {
    op.Login? && op.user == Some(user)
  }

  lemma {:induction false} NoneLiveStep(s: State, op: Op, user: int)
    requires Sound(s) && NoneLive(s, user) && !LogsIn(op, user)
    ensures NoneLive(Step(s, op).0, user)
  {
  }

  /** After reuse the user has no live token, and so gets nothing by refresh, until the next login. */
  lemma {:induction false} NoneLiveUntilLogin(s: State, ops: seq<Op>, user: int)
    requires Sound(s) && NoneLive(s, user) && forall op | op in ops :: !LogsIn(op, user)
    ensures NoneLive(Run(s, ops), user)
  {
    if ops != [] {
      var before := ops[..|ops| - 1];
      assert ops[|ops| - 1] in ops && forall op | op in before :: op in ops;
      RunIsSound(s, before);
      NoneLiveUntilLogin(s, before, user);
      NoneLiveStep(Run(s, before), ops[|ops| - 1], user);
    }
  }

  // ------------------------------------------------- live tokens against logins

  ghost function LiveOf(s: State, user: int): set<int> {
    set id | id in s.rows && s.rows[id].user == user && Live(s, id)
  }

  ghost function Logins(ops: seq<Op>, user: int): nat {
    if ops == [] then 0
    else Logins(ops[..|ops| - 1], user) + if LogsIn(ops[|ops| - 1], user) then 1 else 0
  }

  lemma {:induction false} OnlyNewIsLive(s: State, op: Op, user: int, id: int)
    requires Sound(s) && id in LiveOf(Step(s, op).0, user)
    ensures id in LiveOf(s, user) || id == s.nextId
  {
  }

  /** A new live token comes from a login, or takes the place of one that was live. */
  lemma {:induction false} WhereFrom(s: State, op: Op, user: int) returns (spent: int)
    requires Sound(s) && s.nextId in LiveOf(Step(s, op).0, user) && !LogsIn(op, user)
    ensures spent in LiveOf(s, user) && spent !in LiveOf(Step(s, op).0, user)
  {
    assert op.Refresh? && op.presented.Some?;
    spent := Find(s, op.presented.value).value;
    ExchangeRotates(s, op, spent);
  }

  /** Only a login adds to a user's live tokens; a refresh trades one for one. */
  lemma {:induction false} LiveStep(s: State, op: Op, user: int)
    requires Sound(s)
    ensures |LiveOf(Step(s, op).0, user)| <= |LiveOf(s, user)| + if LogsIn(op, user) then 1 else 0
  {
    var was, now := LiveOf(s, user), LiveOf(Step(s, op).0, user);
    forall id | id in now && id != s.nextId
      ensures id in was
    {
      OnlyNewIsLive(s, op, user, id);
    }
    if s.nextId !in now {
      Orders.SubsetSize(now, was);
    } else if LogsIn(op, user) {
      Orders.SubsetSize(now - {s.nextId}, was);
    } else {
      var spent := WhereFrom(s, op, user);
      Orders.SubsetSize(now - {s.nextId}, was - {spent});
    }
  }

  /** However often tokens are refreshed, a user never has more live tokens than logins. */
  lemma {:induction false} LiveAtMostLogins(ops: seq<Op>, user: int)
    ensures |LiveOf(Run(EMPTY, ops), user)| <= Logins(ops, user)
  {
    if ops == [] {
      assert LiveOf(EMPTY, user) == {};
    } else {
      var before := ops[..|ops| - 1];
      LiveAtMostLogins(before, user);
      RunIsSound(EMPTY, before);
      LiveStep(Run(EMPTY, before), ops[|ops| - 1], user);
    }
  }
}
