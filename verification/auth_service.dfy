/** The refresh and logout calls, one at a time, over the session repository. */
module AuthService {
  import opened Common
  import opened Sessions

  // Only the new token of a successful rotation goes on working.
  lemma RotationHandsOver(t: Table, id: nat, user: Option<User>, m: Option<Metadata>, current: nat, next: nat, at: int)
    requires RefreshDecision(user, Find(t, id), current, m, at) == Proceed(current) && current != next
    ensures var (t', rotated) := Rotate(t, id, current, next, at, CODE_MARGIN);
            && rotated
            && RefreshDecision(user, Find(t', id), next, m, at) == Proceed(next)
            && (forall u, k, later :: !RefreshDecision(u, Find(t', id), current, k, later).Proceed?)
            && (forall other, later :: !Rotate(t', id, current, other, later, CODE_MARGIN).1)
  {
  }

  class AuthService {
    const users: UsersRepository

    constructor (users: UsersRepository)
      ensures this.users == users
    {
      this.users := users;
    }

    // Revokes a privileged session on a device or address change; other users are only logged.
    method EnforceSessionBinding(user: User, sessionId: nat, session: Session, m: Option<Metadata>, now: int)
      returns (ok: bool)
      requires sessionId in users.sessions
      modifies users`sessions
      ensures ok <==> !(user.privileged && m.Some? && (Mismatch(session.device, m.value.device)
                                                       || Mismatch(session.ip, m.value.ip)))
      ensures users.sessions == if ok then old(users.sessions)
        else old(users.sessions)[sessionId := old(users.sessions)[sessionId].(revokedAt := Some(now))]
    {
      if m.None? { return true; }
      var deviceChanged := Differ(session.device, m.value.device);
      var ipChanged := Differ(session.ip, m.value.ip);
      if !deviceChanged && !ipChanged { return true; }
      if user.privileged {
        users.RevokeSession(sessionId, now);
        return false;
      }
      return true;
    }

    // Reads at `readAt`, sends the rotation at `sendAt`.
    method RefreshToken(userId: nat, sessionId: nat, presented: nat, m: Option<Metadata>, next: nat,
            readAt: int, sendAt: int)
      returns (r: Result<nat>)
      modifies users`sessions
      ensures var before, user := old(users.sessions), if userId in users.users then Some(users.users[userId])
        else None;
              match RefreshDecision(user, Find(before, sessionId), presented, m, readAt)
              case Reject(e) => users.sessions == before && r == Err(e)
              case RevokeAndReject(e) => users.sessions == Revoke(before, sessionId, readAt) && r == Err(e)
              case Proceed(current) =>
                var (after, rotated) := Rotate(before, sessionId, current, next, sendAt, CODE_MARGIN);
                users.sessions == after && r == if rotated then Ok(next) else Err(Unauthorized)
    {
      if userId !in users.users || sessionId !in users.sessions { return Err(Unauthorized); }
      var user, session := users.users[userId], users.sessions[sessionId];
      if session.userId != user.id || session.revokedAt.Some? { return Err(Unauthorized); }
      if !user.active { return Err(Forbidden); }
      if session.expiresAt <= readAt {
        users.RevokeSession(sessionId, readAt);
        return Err(Unauthorized);
      }
      var bound := EnforceSessionBinding(user, sessionId, session, m, readAt);
      if !bound { return Err(Unauthorized); }
      if session.hash != presented { return Err(Unauthorized); }
      var rotated := users.RotateSessionRefreshToken(sessionId, session.hash, next, sendAt);
      if !rotated { return Err(Unauthorized); }
      return Ok(next);
    }

    method Logout(userId: nat, sessionId: nat, presented: nat, now: int)
      modifies users`sessions
      ensures var before, id := old(users.sessions), sessionId;
              users.sessions ==
              if id in before && before[id].revokedAt == None && before[id].userId == userId
                 && before[id].hash == presented
              then before[id := before[id].(revokedAt := Some(now))] else before
    {
      if sessionId in users.sessions {
        var session := users.sessions[sessionId];
        if session.revokedAt.None? && session.userId == userId && session.hash == presented {
          users.RevokeSession(sessionId, now);
        }
      }
    }
  }
}
