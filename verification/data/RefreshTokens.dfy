/**
 * Refresh-token families: a login opens one, each rotation hands its liveness on, and presenting a token
 * that was already used ends the family. Rotation is one atomic step, as its row lock makes it.
 */
module RefreshTokens {
  const REFRESH_TTL_MS: real := 1209600000.0

  /** A row, keyed by the hash of the token. */
  datatype Token = Token(user: string, family: string, expiresAt: real, revoked: bool)

  type Rows = map<string, Token>

  datatype RotateResult = Refused | Rotated(user: string, hash: string, family: string)

  /** What the server is asked to do; hashes and family ids of new rows are drawn at random. */
  datatype Op =
    | Login(user: string, hash: string, family: string, now: real)
    | Present(hash: string, next: string, now: real, active: bool)
    | Logout(hash: string)
    | EndSessions(user: string)

  // ---- the statements, as values ----

  function Issued(rows: Rows, user: string, hash: string, family: string, now: real): Rows {
    rows[hash := Token(user, family, now + REFRESH_TTL_MS, false)]
  }

  function Revoke(t: Token): Token { t.(revoked := true) }

  function FamilyRevoked(rows: Rows, family: string): Rows {
    map h | h in rows :: if rows[h].family == family then Revoke(rows[h]) else rows[h]
  }

  function UserRevoked(rows: Rows, user: string): Rows {
    map h | h in rows :: if rows[h].user == user then Revoke(rows[h]) else rows[h]
  }

  function Rotation(rows: Rows, hash: string, next: string, now: real, active: bool): (Rows, RotateResult) {
    if hash !in rows then (rows, Refused)
    else
      var row := rows[hash];
      if row.revoked then (FamilyRevoked(rows, row.family), Refused)
      else if row.expiresAt <= now || !active then (rows, Refused)
      else (Issued(rows[hash := Revoke(row)], row.user, next, row.family, now), Rotated(row.user, next, row.family))
  }

  function Step(rows: Rows, op: Op): Rows {
    match op
    case Login(user, hash, family, now) => Issued(rows, user, hash, family, now)
    case Present(hash, next, now, active) => Rotation(rows, hash, next, now, active).0
    case Logout(hash) => if hash in rows then FamilyRevoked(rows, rows[hash].family) else rows
    case EndSessions(user) => UserRevoked(rows, user)
  }

  /** The store, each method one transaction on its rows. */
  class Store {
    var rows: Rows

    constructor ()
      ensures rows == map[]
    {
      rows := map[];
    }

    method IssueRefresh(user: string, hash: string, family: string, now: real)
      modifies this
      ensures rows == Issued(old(rows), user, hash, family, now)
    {
      rows := rows[hash := Token(user, family, now + REFRESH_TTL_MS, false)];
    }

    /** UPDATE ... WHERE family_id = family AND revoked_at IS NULL. */
    method RevokeFamily(family: string)
      modifies this
      ensures rows == FamilyRevoked(old(rows), family)
    {
      var todo := rows.Keys;
      while todo != {}
        invariant todo <= rows.Keys == old(rows).Keys
        invariant forall h :: h in rows ==> rows[h] == if h in todo then old(rows)[h] else FamilyRevoked(old(rows), family)[h]
      {
        var h :| h in todo;
        todo := todo - {h};
        if rows[h].family == family && !rows[h].revoked { rows := rows[h := rows[h].(revoked := true)]; }
      }
    }

    /** UPDATE ... WHERE user_id = user AND revoked_at IS NULL. */
    method RevokeUserRefreshTokens(user: string)
      modifies this
      ensures rows == UserRevoked(old(rows), user)
    {
      var todo := rows.Keys;
      while todo != {}
        invariant todo <= rows.Keys == old(rows).Keys
        invariant forall h :: h in rows ==> rows[h] == if h in todo then old(rows)[h] else UserRevoked(old(rows), user)[h]
      {
        var h :| h in todo;
        todo := todo - {h};
        if rows[h].user == user && !rows[h].revoked { rows := rows[h := rows[h].(revoked := true)]; }
      }
    }

    method RotateRefresh(hash: string, next: string, now: real, active: bool) returns (r: RotateResult)
      modifies this
      ensures (rows, r) == Rotation(old(rows), hash, next, now, active)
    {
      if hash !in rows { return Refused; }
      var row := rows[hash];
      if row.revoked {
        RevokeFamily(row.family);
        return Refused;
      }
      if row.expiresAt <= now || !active { return Refused; }
      rows := rows[hash := row.(revoked := true)];
      IssueRefresh(row.user, next, row.family, now);
      r := Rotated(row.user, next, row.family);
    }

    /** Any request is a step of the runs below. */
    method Serve(op: Op) returns (r: RotateResult)
      modifies this
      ensures rows == Step(old(rows), op)
      ensures op.Present? ==> r == Rotation(old(rows), op.hash, op.next, op.now, op.active).1
    {
      r := Refused;
      match op
      case Login(user, hash, family, now) => IssueRefresh(user, hash, family, now);
      case Present(hash, next, now, active) => r := RotateRefresh(hash, next, now, active);
      case Logout(hash) => if hash in rows { RevokeFamily(rows[hash].family); }
      case EndSessions(user) => RevokeUserRefreshTokens(user);
    }
  }

  // ---- runs ----

  /** A fresh draw hits no row and no family there has ever been. */
  ghost predicate FreshDraws(rows: Rows, op: Op) {
    match op
    case Login(_, hash, family, _) => hash !in rows && forall h :: h in rows ==> rows[h].family != family
    case Present(_, next, _, _) => next !in rows
    case _ => true
  }

  ghost function After(rows: Rows, ops: seq<Op>): Rows {
    if ops == [] then rows else Step(After(rows, ops[..|ops| - 1]), ops[|ops| - 1])
  }

  ghost predicate FreshRun(rows: Rows, ops: seq<Op>) {
    ops == [] || (FreshRun(rows, ops[..|ops| - 1]) && FreshDraws(After(rows, ops[..|ops| - 1]), ops[|ops| - 1]))
  }

  ghost predicate Live(rows: Rows, family: string, hash: string) {
    hash in rows && rows[hash].family == family && !rows[hash].revoked
  }

  ghost predicate OneLivePerFamily(rows: Rows) {
    forall f, g, h :: Live(rows, f, g) && Live(rows, f, h) ==> g == h
  }

  ghost predicate Known(rows: Rows, family: string) { exists h :: h in rows && rows[h].family == family }

  ghost predicate Dead(rows: Rows, family: string) { forall h :: !Live(rows, family, h) }

  lemma StepKeepsOneLive(rows: Rows, op: Op)
    requires OneLivePerFamily(rows) && FreshDraws(rows, op)
    ensures OneLivePerFamily(Step(rows, op))
  {
    var after := Step(rows, op);
    forall f, g, h | Live(after, f, g) && Live(after, f, h) ensures g == h {
      match op {
        case Present(hash, next, _, _) =>
          assert g != next ==> Live(rows, f, g);
          assert h != next ==> Live(rows, f, h);
          assert hash in rows ==> (!rows[hash].revoked ==> Live(rows, rows[hash].family, hash));
        case Login(_, hash, family, _) =>
          assert g != hash ==> Live(rows, f, g);
          assert h != hash ==> Live(rows, f, h);
        case _ =>
          assert Live(rows, f, g) && Live(rows, f, h);
      }
    }
  }

  /** In every run each family has at most one token that is not revoked. */
  lemma {:induction false} RunsKeepOneLive(ops: seq<Op>)
    requires FreshRun(map[], ops)
    ensures OneLivePerFamily(After(map[], ops))
  {
    if ops != [] {
      RunsKeepOneLive(ops[..|ops| - 1]);
      StepKeepsOneLive(After(map[], ops[..|ops| - 1]), ops[|ops| - 1]);
    }
  }

  /** A successful rotation hands liveness from the token presented to exactly its successor. */
  lemma RotationHandsOn(rows: Rows, hash: string, next: string, now: real, active: bool)
    requires OneLivePerFamily(rows) && next !in rows
    requires Rotation(rows, hash, next, now, active).1.Rotated?
    ensures var (after, r) := Rotation(rows, hash, next, now, active);
            && hash in rows && r == Rotated(rows[hash].user, next, rows[hash].family)
            && (forall f, h :: Live(after, f, h) <==> (Live(rows, f, h) && h != hash) || (f == r.family && h == next))
            && (forall h :: Live(after, r.family, h) <==> h == next)
  {
    assert Live(rows, rows[hash].family, hash);
  }

  /** A revoked token, presented, leaves its family dead. */
  lemma ReuseKills(rows: Rows, hash: string, next: string, now: real, active: bool)
    requires hash in rows && rows[hash].revoked
    ensures Rotation(rows, hash, next, now, active).1 == Refused
    ensures Dead(Rotation(rows, hash, next, now, active).0, rows[hash].family)
    ensures Known(Rotation(rows, hash, next, now, active).0, rows[hash].family)
  {
    var after := Rotation(rows, hash, next, now, active).0;
    assert hash in after && after[hash].family == rows[hash].family;
  }

  lemma StepKeepsDead(rows: Rows, op: Op, family: string)
    requires Known(rows, family) && Dead(rows, family) && FreshDraws(rows, op)
    ensures Known(Step(rows, op), family) && Dead(Step(rows, op), family)
  {
    var h :| h in rows && rows[h].family == family;
    var after := Step(rows, op);
    assert h in after && after[h].family == family;
    forall g ensures !Live(after, family, g) {
      assert !Live(rows, family, g);
      if op.Present? && op.hash in rows { assert !Live(rows, family, op.hash); }
    }
  }

  /** Dead once, dead in every continuation of the run. */
  lemma {:induction false} DeadForever(rows: Rows, ops: seq<Op>, family: string)
    requires Known(rows, family) && Dead(rows, family) && FreshRun(rows, ops)
    ensures Known(After(rows, ops), family) && Dead(After(rows, ops), family)
  {
    if ops != [] {
      DeadForever(rows, ops[..|ops| - 1], family);
      StepKeepsDead(After(rows, ops[..|ops| - 1]), ops[|ops| - 1], family);
    }
  }

  /** Once a used token has been presented again, no token of its family is ever accepted. */
  lemma TheftEndsFamily(rows: Rows, hash: string, next: string, now: real, active: bool, ops: seq<Op>,
                        again: string, next': string, later: real, active': bool)
    requires hash in rows && rows[hash].revoked
    requires FreshRun(Rotation(rows, hash, next, now, active).0, ops)
    ensures var end := After(Rotation(rows, hash, next, now, active).0, ops);
            again in end && end[again].family == rows[hash].family
            ==> Rotation(end, again, next', later, active').1 == Refused
  {
    ReuseKills(rows, hash, next, now, active);
    var killed := Rotation(rows, hash, next, now, active).0;
    DeadForever(killed, ops, rows[hash].family);
    assert !Live(After(killed, ops), rows[hash].family, again);
  }

  ghost predicate Accepts(rows: Rows, hash: string, now: real, active: bool) {
    forall next :: Rotation(rows, hash, next, now, active).1.Rotated?
  }

  ghost predicate Expired(rows: Rows, hash: string, now: real)
    requires hash in rows
  {
    rows[hash].expiresAt <= now
  }

  /**
   * A token is accepted exactly while it is live, in time and of an active user; refused, it changes the table
   * only if it had been used before.
   */
  lemma AcceptedExactlyWhen(rows: Rows, hash: string, next: string, now: real, active: bool)
    ensures Accepts(rows, hash, now, active)
            <==> active && hash in rows && Live(rows, rows[hash].family, hash) && !Expired(rows, hash, now)
    ensures !Accepts(rows, hash, now, active) ==> Rotation(rows, hash, next, now, active).1 == Refused
    ensures !Accepts(rows, hash, now, active) && (hash in rows ==> !rows[hash].revoked)
            ==> Rotation(rows, hash, next, now, active).0 == rows
  {
    assert Accepts(rows, hash, now, active) ==> Rotation(rows, hash, next, now, active).1.Rotated?;
  }

  /** Who is revoked once stays so, with its user and family. */
  lemma {:induction false} RevokedForever(rows: Rows, ops: seq<Op>, hash: string)
    requires hash in rows && rows[hash].revoked && FreshRun(rows, ops)
    ensures hash in After(rows, ops) && After(rows, ops)[hash] == rows[hash]
  {
    if ops != [] { RevokedForever(rows, ops[..|ops| - 1], hash); }
  }

  /** A token accepted once is never accepted again, and to try it ends whatever of its family is still live. */
  lemma AcceptedOnce(rows: Rows, hash: string, next: string, now: real, active: bool, ops: seq<Op>,
                     next': string, later: real, active': bool)
    requires next !in rows && Rotation(rows, hash, next, now, active).1.Rotated?
    requires FreshRun(Rotation(rows, hash, next, now, active).0, ops)
    ensures var (end, r) := Rotation(After(Rotation(rows, hash, next, now, active).0, ops), hash, next', later, active');
            r == Refused && Dead(end, rows[hash].family)
  {
    var rotated := Rotation(rows, hash, next, now, active).0;
    RevokedForever(rotated, ops, hash);
    ReuseKills(After(rotated, ops), hash, next', later, active');
  }

  /** The tokens a session has had. */
  ghost function Kin(rows: Rows, family: string): set<string> { set h | h in rows && rows[h].family == family }

  /** Nothing presents any of those tokens, logs out with one or ends their user's sessions. */
  ghost predicate LeavesAlone(op: Op, user: string, kin: set<string>) {
    match op
    case Login(_, _, _, _) => true
    case Present(h, _, _, _) => h !in kin
    case Logout(h) => h !in kin
    case EndSessions(u) => u != user
  }

  lemma StepLeavesAlone(rows: Rows, op: Op, hash: string)
    requires hash in rows && FreshDraws(rows, op) && LeavesAlone(op, rows[hash].user, Kin(rows, rows[hash].family))
    ensures hash in Step(rows, op) && Step(rows, op)[hash] == rows[hash]
    ensures Kin(Step(rows, op), rows[hash].family) == Kin(rows, rows[hash].family)
  {
    var after, family := Step(rows, op), rows[hash].family;
    forall h ensures h in Kin(after, family) <==> h in Kin(rows, family) {
      if op.Present? && op.hash in rows { assert op.hash !in Kin(rows, family); }
    }
  }

  lemma {:induction false} TokenStays(rows: Rows, hash: string, ops: seq<Op>)
    requires hash in rows && FreshRun(rows, ops)
    requires forall op :: op in ops ==> LeavesAlone(op, rows[hash].user, Kin(rows, rows[hash].family))
    ensures hash in After(rows, ops) && After(rows, ops)[hash] == rows[hash]
    ensures Kin(After(rows, ops), rows[hash].family) == Kin(rows, rows[hash].family)
  {
    if ops != [] {
      var front, last := ops[..|ops| - 1], ops[|ops| - 1];
      assert last in ops && forall op :: op in front ==> op in ops;
      TokenStays(rows, hash, front);
      StepLeavesAlone(After(rows, front), last, hash);
    }
  }

  /** The token a login issues is accepted for an active user at any time before its fourteen days are over. */
  lemma LoginIsAccepted(rows: Rows, user: string, hash: string, family: string, now: real, ops: seq<Op>, later: real, active: bool)
    requires var op := Login(user, hash, family, now); FreshDraws(rows, op) && FreshRun(Step(rows, op), ops)
    requires forall op :: op in ops ==> LeavesAlone(op, user, {hash})
    ensures var end := After(Step(rows, Login(user, hash, family, now)), ops);
            && hash in end && end[hash] == Token(user, family, now + 1209600000.0, false)
            && (Accepts(end, hash, later, active) <==> active && later < now + 1209600000.0)
  {
    var first := Step(rows, Login(user, hash, family, now));
    assert Kin(first, family) == {hash};
    TokenStays(first, hash, ops);
    AcceptedExactlyWhen(After(first, ops), hash, hash, later, active);
  }

  /**
   * And so is the successor of every token that was accepted, from the rotation on: it belongs to the same user
   * and session, and is accepted, for an active user, exactly until fourteen days after.
   */
  lemma SuccessorIsAccepted(rows: Rows, hash: string, next: string, now: real, active: bool, ops: seq<Op>, later: real, active': bool)
    requires next !in rows && hash in rows && Rotation(rows, hash, next, now, active).1.Rotated?
    requires FreshRun(Rotation(rows, hash, next, now, active).0, ops)
    requires forall op :: op in ops ==> LeavesAlone(op, rows[hash].user, Kin(rows, rows[hash].family) + {next})
    ensures Rotation(rows, hash, next, now, active).1 == Rotated(rows[hash].user, next, rows[hash].family)
    ensures var end := After(Rotation(rows, hash, next, now, active).0, ops);
            && next in end && end[next] == Token(rows[hash].user, rows[hash].family, now + 1209600000.0, false)
            && (Accepts(end, next, later, active') <==> active' && later < now + 1209600000.0)
  {
    var rotated := Rotation(rows, hash, next, now, active).0;
    assert Kin(rotated, rows[hash].family) == Kin(rows, rows[hash].family) + {next};
    TokenStays(rotated, next, ops);
    AcceptedExactlyWhen(After(rotated, ops), next, next, later, active');
  }

  /** What others asked meanwhile, and then the session's present token, presented for its next one. */
  datatype Turn = Turn(others: seq<Op>, now: real, next: string)

  /** The others leave the session alone, and each turn comes within fourteen days of the one before. */
  ghost predicate InTime(rows: Rows, hash: string, since: real, turns: seq<Turn>)
    decreases |turns|
  {
    turns == [] || (
      var t := turns[0];
      && hash in rows && FreshRun(rows, t.others)
      && (forall op :: op in t.others ==> LeavesAlone(op, rows[hash].user, Kin(rows, rows[hash].family)))
      && t.next !in After(rows, t.others) && t.now < since + 1209600000.0
      && InTime(Rotation(After(rows, t.others), hash, t.next, t.now, true).0, t.next, t.now, turns[1..]))
  }

  ghost predicate AllAccepted(rows: Rows, hash: string, user: string, family: string, turns: seq<Turn>)
    decreases |turns|
  {
    turns == [] || (
      var t := turns[0];
      var (after, r) := Rotation(After(rows, t.others), hash, t.next, t.now, true);
      r == Rotated(user, t.next, family) && AllAccepted(after, t.next, user, family, turns[1..]))
  }

  lemma {:induction false} TurnsAreAccepted(rows: Rows, hash: string, user: string, family: string, since: real, turns: seq<Turn>)
    requires hash in rows && rows[hash] == Token(user, family, since + 1209600000.0, false) && InTime(rows, hash, since, turns)
    ensures AllAccepted(rows, hash, user, family, turns)
    decreases |turns|
  {
    if turns != [] {
      var t := turns[0];
      TokenStays(rows, hash, t.others);
      var mid := After(rows, t.others);
      AcceptedExactlyWhen(mid, hash, t.next, t.now, true);
      SuccessorIsAccepted(mid, hash, t.next, t.now, true, [], t.now, true);
      TurnsAreAccepted(Rotation(mid, hash, t.next, t.now, true).0, t.next, user, family, t.now, turns[1..]);
    }
  }

  /** A session whose user stays active and comes back within fourteen days each time goes on for ever. */
  lemma SessionGoesOn(rows: Rows, user: string, hash: string, family: string, now: real, turns: seq<Turn>)
    requires FreshDraws(rows, Login(user, hash, family, now))
    requires InTime(Step(rows, Login(user, hash, family, now)), hash, now, turns)
    ensures AllAccepted(Step(rows, Login(user, hash, family, now)), hash, user, family, turns)
  {
    TurnsAreAccepted(Step(rows, Login(user, hash, family, now)), hash, user, family, now, turns);
  }

  /** The request ends the token: its session is logged out or found stolen, its user's sessions end, or it is used. */
  ghost predicate Ends(rows: Rows, op: Op, hash: string)
    requires hash in rows
  {
    match op
    case Login(_, _, _, _) => false
    case Present(h, _, now, active) =>
      h in rows && if rows[h].revoked then rows[h].family == rows[hash].family else h == hash && active && now < rows[h].expiresAt
    case Logout(h) => h in rows && rows[h].family == rows[hash].family
    case EndSessions(u) => rows[hash].user == u
  }

  /** Every request revokes exactly the tokens it ends, and adds no row but a login's and a successor's. */
  lemma RevokesExactly(rows: Rows, op: Op, hash: string)
    requires FreshDraws(rows, op)
    ensures hash in rows ==>
              hash in Step(rows, op) && Step(rows, op)[hash] == rows[hash].(revoked := rows[hash].revoked || Ends(rows, op, hash))
    ensures hash in Step(rows, op) && hash !in rows ==>
              match op
              case Login(user, h, family, now) => h == hash && Step(rows, op)[hash] == Token(user, family, now + 1209600000.0, false)
              case Present(h, next, now, active) =>
                && h in rows && !rows[h].revoked && active && now < rows[h].expiresAt && next == hash
                && Step(rows, op)[hash] == Token(rows[h].user, rows[h].family, now + 1209600000.0, false)
              case _ => false
  {
  }
}
