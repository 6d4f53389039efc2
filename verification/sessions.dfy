/**
 Login sessions: refresh-token rotation by compare-and-set, revocation, and the
 cleanup of expired rows, under arbitrary interleaving. Tokens are matched by their
 hash; every newly generated hash is fresh.
 */
module Sessions {
  import opened Common

  datatype Session = Session(
    userId: nat, hash: nat, device: Option<nat>, ip: Option<nat>, expiresAt: int, revokedAt: Option<int>)

  type Table = map<nat, Session>

  datatype User = User(id: nat, active: bool, privileged: bool)

  datatype Metadata = Metadata(device: Option<nat>, ip: Option<nat>)

  // ---- the statements on the session table ----

  // The statement asks for `margin` more life than its clock reading; the code asks for none.
  const CODE_MARGIN: nat := 0

  predicate Rotatable(s: Session, current: nat, at: int, margin: nat) {
    s.hash == current && s.revokedAt.None? && s.expiresAt > at + margin
  }

  // `at` is the client's clock reading carried in the statement.
  function Rotate(t: Table, id: nat, current: nat, next: nat, at: int, margin: nat): (Table, bool) {
    if id in t && Rotatable(t[id], current, at, margin) then (t[id := t[id].(hash := next)], true) else (t, false)
  }

  function Revoke(t: Table, id: nat, at: int): Table {
    if id in t then t[id := t[id].(revokedAt := Some(at))] else t
  }

  predicate Stale(s: Session, now: int) { s.expiresAt <= now && s.revokedAt.None? }

  function StaleIds(t: Table, now: int): set<nat> { set id | id in t && Stale(t[id], now) }

  function RevokeIds(t: Table, ids: set<nat>, now: int): Table {
    map id | id in t :: if id in ids && t[id].revokedAt.None? then t[id].(revokedAt := Some(now)) else t[id]
  }

  // ---- what a refresh or logout decides from the row it reads ----

  predicate Differ(stored: Option<nat>, given: Option<nat>) { stored.Some? && given.Some? && stored != given }

  predicate BindingBroken(user: User, s: Session, m: Option<Metadata>) {
    user.privileged && m.Some? && (Differ(s.device, m.value.device) || Differ(s.ip, m.value.ip))
  }

  datatype Decision = Reject(error: ApiError) | RevokeAndReject(error: ApiError) | Proceed(current: nat)

  // `presented` is the hash the presented token matches.
  function RefreshDecision(user: Option<User>, session: Option<Session>, presented: nat, m: Option<Metadata>,
          at: int): Decision {
    if user.None? || session.None? || session.value.userId != user.value.id || session.value.revokedAt.Some? then
      Reject(Unauthorized)
    else if !user.value.active then Reject(Forbidden)
    else if session.value.expiresAt <= at then RevokeAndReject(Unauthorized)
    else if BindingBroken(user.value, session.value, m) then RevokeAndReject(Unauthorized)
    else if session.value.hash != presented then Reject(Unauthorized)
    else Proceed(session.value.hash)
  }

  // Known on both sides, and not the same.
  predicate Mismatch(stored: Option<nat>, given: Option<nat>) {
    match (stored, given)
    case (Some(a), Some(b)) => a != b
    case _ => false
  }

  /** A refresh goes on exactly for the active owner of a live session who presents its current
      token and, when privileged, comes from no other device and no other address than the ones
      known; it ends the session exactly when that is past its expiry or a privileged owner comes
      from another of either; and it answers forbidden exactly to a deactivated owner. */
  lemma RefreshExact(user: Option<User>, session: Option<Session>, presented: nat, m: Option<Metadata>, at: int)
    ensures var d := RefreshDecision(user, session, presented, m, at);
            var owned := user.Some? && session.Some? && session.value.userId == user.value.id
                         && session.value.revokedAt == None;
            var elsewhere := owned && user.value.privileged && m.Some?
                             && (Mismatch(session.value.device, m.value.device)
                                 || Mismatch(session.value.ip, m.value.ip));
            && (d == Proceed(presented) <==>
                 owned && user.value.active && at < session.value.expiresAt && !elsewhere
                 && session.value.hash == presented)
            && (d.Proceed? ==> d.current == presented)
            && (d == RevokeAndReject(Unauthorized) <==>
                 owned && user.value.active && (session.value.expiresAt <= at || elsewhere))
            && (d.RevokeAndReject? ==> d.error == Unauthorized)
            && (d == Reject(Forbidden) <==> owned && !user.value.active)
            && (d.Reject? ==> d.error in {Forbidden, Unauthorized})
  {
  }

  predicate LogoutRevokes(session: Option<Session>, userId: nat, presented: nat) {
    session.Some? && session.value.revokedAt.None? && session.value.userId == userId && session.value.hash == presented
  }

  function Find(t: Table, id: nat): Option<Session> { if id in t then Some(t[id]) else None }

  // ---- the protocol ----

  datatype Task =
    | RotateTask(id: nat, current: nat, next: nat, sentAt: Option<int>)
    | RevokeTask(id: nat)
    | CleanTask(ids: set<nat>, now: int)

  datatype Rotation = Rotation(id: nat, from: nat, to: nat, at: int)

  // `used` holds every hash ever generated, `log` every rotation that committed.
  datatype World = World(clock: int, sessions: Table, used: set<nat>, tasks: seq<Task>, log: seq<Rotation>)

  datatype Step =
    | Tick(ms: nat)
    | Login(id: nat, userId: nat, hash: nat, device: Option<nat>, ip: Option<nat>, expiresAt: int)
    | RefreshRead(id: nat, user: Option<User>, presented: nat, metadata: Option<Metadata>, next: nat)
    | LogoutRead(id: nat, userId: nat, presented: nat)
    | CleanRead(ids: set<nat>)
    | Send(index: nat)
    | Commit(index: nat)

  const START := World(0, map[], {}, [], [])

  function RemoveAt<T>(s: seq<T>, k: nat): seq<T>
    requires k < |s|
  {
    s[..k] + s[k + 1..]
  }

  // `lag` bounds how long after its clock reading a rotation may still commit.
  function Next(lag: nat, margin: nat, w: World, s: Step): World {
    match s
    case Tick(ms) => w.(clock := w.clock + ms)
    case Login(id, userId, hash, device, ip, expiresAt) =>
      if id in w.sessions || hash in w.used then w
      else w.(sessions := w.sessions[id := Session(userId, hash, device, ip, expiresAt, None)], used := w.used + {hash})
    case RefreshRead(id, user, presented, metadata, next) =>
      var decision := RefreshDecision(user, Find(w.sessions, id), presented, metadata, w.clock);
      (match decision
       case Reject(_) => w
       case RevokeAndReject(_) => w.(tasks := w.tasks + [RevokeTask(id)])
       case Proceed(current) =>
         if next in w.used then w
         else w.(tasks := w.tasks + [RotateTask(id, current, next, None)], used := w.used + {next}))
    case LogoutRead(id, userId, presented) =>
      if LogoutRevokes(Find(w.sessions, id), userId, presented) then w.(tasks := w.tasks + [RevokeTask(id)]) else w
    case CleanRead(ids) =>
      if ids <= StaleIds(w.sessions, w.clock) then w.(tasks := w.tasks + [CleanTask(ids, w.clock)]) else w
    case Send(k) =>
      if k < |w.tasks| && w.tasks[k].RotateTask? && w.tasks[k].sentAt.None?
      then w.(tasks := w.tasks[k := w.tasks[k].(sentAt := Some(w.clock))]) else w
    case Commit(k) =>
      if k >= |w.tasks| then w
      else
        var v := w.(tasks := RemoveAt(w.tasks, k));
        match w.tasks[k]
        case RotateTask(id, current, next, sentAt) =>
          if sentAt.None? || w.clock > sentAt.value + lag then w
          else
            var (sessions, rotated) := Rotate(w.sessions, id, current, next, sentAt.value, margin);
            if rotated then v.(sessions := sessions, log := w.log + [Rotation(id, current, next, w.clock)]) else v
        case RevokeTask(id) => v.(sessions := Revoke(w.sessions, id, w.clock))
        case CleanTask(ids, now) => v.(sessions := RevokeIds(w.sessions, ids, now))
  }

  function Run(lag: nat, margin: nat, steps: seq<Step>): World {
    if steps == [] then START else Next(lag, margin, Run(lag, margin, steps[..|steps| - 1]), steps[|steps| - 1])
  }

  // ---- invariant ----

  // The hash a pending rotation will store is its own: not yet stored, never stored before.
  ghost predicate NextUnstored(w: World, t: Task) {
    t.RotateTask? ==>
      && t.next in w.used
      && (forall id :: id in w.sessions ==> w.sessions[id].hash != t.next)
      && (forall r :: r in w.log ==> r.from != t.next)
  }

  ghost predicate TasksOk(w: World) {
    && (forall t :: t in w.tasks ==>
          NextUnstored(w, t) && (t.RotateTask? && t.sentAt.Some? ==> t.sentAt.value <= w.clock))
    && (forall i, j :: 0 <= i < j < |w.tasks| && w.tasks[i].RotateTask? && w.tasks[j].RotateTask? ==>
      w.tasks[i].next != w.tasks[j].next)
  }

  // A hash rotated away is gone for good, and no two rotations started from the same hash.
  ghost predicate LogOk(lag: nat, margin: nat, w: World) {
    && (forall r :: r in w.log ==>
         r.id in w.sessions && w.sessions[r.id].hash != r.from && r.from in w.used &&
           r.at + margin < w.sessions[r.id].expiresAt + lag)
    && (forall i, j :: 0 <= i < j < |w.log| && w.log[i].id == w.log[j].id ==> w.log[i].from != w.log[j].from)
  }

  ghost predicate HashesUsed(w: World) { forall id :: id in w.sessions ==> w.sessions[id].hash in w.used }

  ghost predicate Ok(lag: nat, margin: nat, w: World) { HashesUsed(w) && TasksOk(w) && LogOk(lag, margin, w) }

  lemma LoginKeeps(lag: nat, margin: nat, w: World, s: Step)
    requires Ok(lag, margin, w) && s.Login?
    ensures Ok(lag, margin, Next(lag, margin, w, s))
  {
    var v := Next(lag, margin, w, s);
    forall t | t in v.tasks ensures NextUnstored(v, t) {
      assert NextUnstored(w, t);
    }
  }

  lemma ReadKeeps(lag: nat, margin: nat, w: World, s: Step)
    requires Ok(lag, margin, w) && (s.RefreshRead? || s.LogoutRead? || s.CleanRead? || s.Tick?)
    ensures Ok(lag, margin, Next(lag, margin, w, s))
  {
    var v := Next(lag, margin, w, s);
    forall t | t in v.tasks ensures NextUnstored(v, t) {
      assert t in w.tasks ==> NextUnstored(w, t);
    }
  }

  lemma SendKeeps(lag: nat, margin: nat, w: World, k: nat)
    requires Ok(lag, margin, w)
    ensures Ok(lag, margin, Next(lag, margin, w, Send(k)))
  {
    var v := Next(lag, margin, w, Send(k));
    forall t | t in v.tasks ensures NextUnstored(v, t) &&
      (t.RotateTask? && t.sentAt.Some? ==> t.sentAt.value <= w.clock) {
      if t !in w.tasks {
        assert NextUnstored(w, w.tasks[k]);
      }
    }
  }

  lemma DropKeeps(lag: nat, margin: nat, w: World, k: nat)
    requires Ok(lag, margin, w) && k < |w.tasks|
    ensures Ok(lag, margin, w.(tasks := RemoveAt(w.tasks, k)))
  {
    var v := w.(tasks := RemoveAt(w.tasks, k));
    forall t | t in v.tasks ensures NextUnstored(v, t) &&
      (t.RotateTask? && t.sentAt.Some? ==> t.sentAt.value <= w.clock) {
      assert t in w.tasks;
    }
  }

  // Revoking touches neither hashes nor expiry.
  lemma MarkKeeps(lag: nat, margin: nat, v: World, sessions: Table)
    requires Ok(lag, margin, v) && sessions.Keys == v.sessions.Keys
    requires forall id :: id in sessions ==>
      sessions[id].hash == v.sessions[id].hash && sessions[id].expiresAt == v.sessions[id].expiresAt
    ensures Ok(lag, margin, v.(sessions := sessions))
  {
    forall t | t in v.tasks ensures NextUnstored(v.(sessions := sessions), t) {
      assert NextUnstored(v, t);
    }
  }

  lemma RotateKeeps(lag: nat, margin: nat, w: World, k: nat)
    requires Ok(lag, margin, w) && k < |w.tasks| && w.tasks[k].RotateTask?
    ensures Ok(lag, margin, Next(lag, margin, w, Commit(k)))
  {
    var t, u := w.tasks[k], Next(lag, margin, w, Commit(k));
    DropKeeps(lag, margin, w, k);
    if u.log != w.log {
      assert NextUnstored(w, t);
      forall t' | t' in u.tasks ensures NextUnstored(u, t') {
        assert NextUnstored(w, t');
        var i :| 0 <= i < |u.tasks| && u.tasks[i] == t';
        assert t' == w.tasks[if i < k then i else i + 1];
      }
    }
  }

  lemma StepKeeps(lag: nat, margin: nat, w: World, s: Step)
    requires Ok(lag, margin, w)
    ensures Ok(lag, margin, Next(lag, margin, w, s))
  {
    if s.Login? {
      LoginKeeps(lag, margin, w, s);
    } else if s.Send? {
      SendKeeps(lag, margin, w, s.index);
    } else if s.Commit? {
      if s.index < |w.tasks| {
        if w.tasks[s.index].RotateTask? {
          RotateKeeps(lag, margin, w, s.index);
        } else {
          DropKeeps(lag, margin, w, s.index);
          MarkKeeps(lag, margin, w.(tasks := RemoveAt(w.tasks, s.index)), Next(lag, margin, w, s).sessions);
        }
      }
    } else {
      ReadKeeps(lag, margin, w, s);
    }
  }

  lemma {:induction false} RunKeeps(lag: nat, margin: nat, steps: seq<Step>)
    ensures Ok(lag, margin, Run(lag, margin, steps))
  {
    if steps != [] {
      RunKeeps(lag, margin, steps[..|steps| - 1]);
      StepKeeps(lag, margin, Run(lag, margin, steps[..|steps| - 1]), steps[|steps| - 1]);
    }
  }

  // ---- main results ----

  /** Of all refreshes that read the same stored hash of a session, at most one commits. */
  lemma {:induction false} OneRotationPerHash(lag: nat, margin: nat, steps: seq<Step>, i: nat, j: nat)
    requires var log := Run(lag, margin, steps).log; i < j < |log| && log[i].id == log[j].id
    ensures Run(lag, margin, steps).log[i].from != Run(lag, margin, steps).log[j].from
  {
    RunKeeps(lag, margin, steps);
  }

  ghost predicate Persists(w: World, v: World, id: nat) {
    && id in w.sessions && id in v.sessions && w.log <= v.log
    && v.sessions[id].expiresAt == w.sessions[id].expiresAt && v.sessions[id].userId == w.sessions[id].userId
    && (w.sessions[id].revokedAt.Some? ==>
         && v.sessions[id].revokedAt.Some? && v.sessions[id].hash == w.sessions[id].hash
         && forall r :: r in v.log[|w.log|..] ==> r.id != id)
  }

  lemma StepPersists(lag: nat, margin: nat, w: World, s: Step, id: nat)
    requires id in w.sessions
    ensures Persists(w, Next(lag, margin, w, s), id)
  {
  }

  lemma PersistsTrans(u: World, w: World, v: World, id: nat)
    requires Persists(u, w, id) && Persists(w, v, id)
    ensures Persists(u, v, id)
  {
    assert v.log[|u.log|..] == w.log[|u.log|..] + v.log[|w.log|..];
  }

  /** From any point of any run on, a session keeps its owner and its expiry, and once
      revoked it never rotates again, never changes its hash and never becomes unrevoked. */
  lemma {:induction false} RevokedForGood(lag: nat, margin: nat, steps: seq<Step>, n: nat, id: nat)
    requires n <= |steps| && id in Run(lag, margin, steps[..n]).sessions
    ensures Persists(Run(lag, margin, steps[..n]), Run(lag, margin, steps), id)
    decreases |steps|
  {
    if n == |steps| {
      assert steps[..n] == steps;
      assert Run(lag, margin, steps).log[|Run(lag, margin, steps).log|..] == [];
    } else {
      var before := steps[..|steps| - 1];
      assert before[..n] == steps[..n];
      RevokedForGood(lag, margin, before, n, id);
      StepPersists(lag, margin, Run(lag, margin, before), steps[|steps| - 1], id);
      PersistsTrans(Run(lag, margin, steps[..n]), Run(lag, margin, before), Run(lag, margin, steps), id);
    }
  }

  // ---- rotation after expiry: exactly when the statement's margin covers its delay ----

  ghost predicate NoLateRotation(lag: nat, margin: nat) {
    forall steps: seq<Step>, r: Rotation {:trigger r in Run(lag, margin, steps).log} ::
      r in Run(lag, margin, steps).log ==>
        r.id in Run(lag, margin, steps).sessions && r.at < Run(lag, margin, steps).sessions[r.id].expiresAt
  }

  lemma RunSnoc(lag: nat, margin: nat, steps: seq<Step>, s: Step)
    ensures Run(lag, margin, steps + [s]) == Next(lag, margin, Run(lag, margin, steps), s)
  {
    assert (steps + [s])[..|steps|] == steps;
  }

  const READER := RefreshRead(0, Some(User(0, true, false)), 1, None, 2)

  // A session with just enough life for the margin is read and its rotation sent at 0.
  lemma RotationSent(lag: nat, margin: nat) returns (steps: seq<Step>)
    ensures var row := Session(0, 1, None, None, margin + 1, None);
            Run(lag, margin, steps) == World(0, map[0 := row], {1, 2}, [RotateTask(0, 1, 2, Some(0))], [])
  {
    var row := Session(0, 1, None, None, margin + 1, None);
    RunSnoc(lag, margin, [], Login(0, 0, 1, None, None, margin + 1));
    steps := [] + [Login(0, 0, 1, None, None, margin + 1)];
    assert Run(lag, margin, steps) == World(0, map[0 := row], {1}, [], []);
    RunSnoc(lag, margin, steps, READER);
    steps := steps + [READER];
    assert Run(lag, margin, steps) == World(0, map[0 := row], {1, 2}, [RotateTask(0, 1, 2, None)], []);
    RunSnoc(lag, margin, steps, Send(0));
    steps := steps + [Send(0)];
  }

  lemma LateRotation(lag: nat, margin: nat) returns (steps: seq<Step>)
    requires lag > margin
    ensures var w := Run(lag, margin, steps);
            w.log == [Rotation(0, 1, 2, margin + 1)] && 0 in w.sessions && w.sessions[0].expiresAt == margin + 1
  {
    steps := RotationSent(lag, margin);
    RunSnoc(lag, margin, steps, Tick(margin + 1));
    steps := steps + [Tick(margin + 1)];
    RunSnoc(lag, margin, steps, Commit(0));
    steps := steps + [Commit(0)];
  }

  /** An expired session never rotates, in any run, if and only if the margin the statement
      asks for covers the longest delay between its clock reading and its commit. */
  lemma {:induction false} NoLateRotationExact(lag: nat, margin: nat)
    ensures NoLateRotation(lag, margin) <==> lag <= margin
  {
    if lag <= margin {
      forall steps: seq<Step>, r: Rotation {:trigger r in Run(lag, margin, steps).log}
        | r in Run(lag, margin, steps).log
        ensures r.id in Run(lag, margin, steps).sessions && r.at < Run(lag, margin, steps).sessions[r.id].expiresAt
      {
        RunKeeps(lag, margin, steps);
      }
    } else {
      var steps := LateRotation(lag, margin);
      assert Rotation(0, 1, 2, margin + 1) in Run(lag, margin, steps).log;
    }
  }

  // ---- the repository and the service ----

  lemma {:induction false} BatchShrinks(t: Table, ids: set<nat>, now: int)
    requires ids <= StaleIds(t, now)
    ensures StaleIds(RevokeIds(t, ids, now), now) == StaleIds(t, now) - ids
    ensures RevokeIds(RevokeIds(t, ids, now), StaleIds(t, now) - ids, now) == RevokeIds(t, StaleIds(t, now), now)
  {
  }

  function Members(ids: seq<nat>): (s: set<nat>)
    ensures forall id :: id in s <==> id in ids
    ensures |s| <= |ids|
    ensures (forall i, j :: 0 <= i < j < |ids| ==> ids[i] < ids[j]) ==> |s| == |ids|
  {
    if ids == [] then {}
    else
      assert ids == ids[..|ids| - 1] + [ids[|ids| - 1]];
      Members(ids[..|ids| - 1]) + {ids[|ids| - 1]}
  }

  class UsersRepository {
    var users: map<nat, User>
    var sessions: Table

    constructor ()
      ensures users == map[] && sessions == map[]
    {
      users, sessions := map[], map[];
    }

    method CreateSession(id: nat, session: Session)
      requires id !in sessions
      modifies this`sessions
      ensures sessions == old(sessions)[id := session]
    {
      sessions := sessions[id := session];
    }

    method RotateSessionRefreshToken(id: nat, current: nat, next: nat, now: int) returns (rotated: bool)
      modifies this`sessions
      ensures (sessions, rotated) == Rotate(old(sessions), id, current, next, now, CODE_MARGIN)
      ensures rotated <==>
        && id in old(sessions) && old(sessions)[id].hash == current
        && old(sessions)[id].revokedAt == None && now < old(sessions)[id].expiresAt
      ensures sessions == if rotated then old(sessions)[id := old(sessions)[id].(hash := next)] else old(sessions)
    {
      rotated := id in sessions && Rotatable(sessions[id], current, now, CODE_MARGIN);
      if rotated {
        sessions := sessions[id := sessions[id].(hash := next)];
      }
    }

    method RevokeSession(id: nat, now: int)
      requires id in sessions
      modifies this`sessions
      ensures sessions == old(sessions)[id := old(sessions)[id].(revokedAt := Some(now))]
    {
      sessions := sessions[id := sessions[id].(revokedAt := Some(now))];
    }

    // WHERE expires_at <= now AND revoked_at IS NULL ORDER BY id LIMIT take
    method FindStale(now: int, take: nat) returns (ids: seq<nat>)
      ensures |ids| == Min(take, |StaleIds(sessions, now)|)
      ensures forall i, j :: 0 <= i < j < |ids| ==> ids[i] < ids[j]
      ensures forall id :: id in ids ==> id in StaleIds(sessions, now)
      ensures forall id :: id in StaleIds(sessions, now) && id !in ids ==> forall x :: x in ids ==> x < id
    {
      ids := [];
      ghost var all := StaleIds(sessions, now);
      var left := StaleIds(sessions, now);
      while |ids| < take && left != {}
        invariant left <= all && |ids| + |left| == |all| && |ids| <= take
        invariant forall id :: id in all <==> id in left || id in ids
        invariant forall i, j :: 0 <= i < j < |ids| ==> ids[i] < ids[j]
        invariant forall i, id :: 0 <= i < |ids| && id in left ==> ids[i] < id
        decreases |left|
      {
        var id := Least(left);
        left := left - {id};
        ids := ids + [id];
      }
    }

    method Least(s: set<nat>) returns (m: nat)
      requires s != {}
      ensures m in s && forall k :: k in s ==> m <= k
    {
      m :| m in s;
      var left := s - {m};
      while left != {}
        invariant left <= s && m in s
        invariant forall k :: k in s && k !in left ==> m <= k
        decreases |left|
      {
        var k :| k in left;
        left := left - {k};
        m := Min(m, k);
      }
    }

    /** Batch by batch, every expired session is revoked exactly once, nothing else is touched. */
    method RevokeExpiredSessions(now: int, batchSize: nat) returns (totalCount: nat)
      modifies this`sessions
      ensures batchSize == 0 ==> totalCount == 0 && sessions == old(sessions)
      ensures batchSize > 0 ==>
        && totalCount == |StaleIds(old(sessions), now)|
        && sessions == RevokeIds(old(sessions), StaleIds(old(sessions), now), now)
        && StaleIds(sessions, now) == {}
        && sessions.Keys == old(sessions).Keys && forall id :: id in sessions ==>
             var s := old(sessions)[id];
             sessions[id] == if s.expiresAt <= now && s.revokedAt == None then s.(revokedAt := Some(now)) else s
    {
      totalCount := 0;
      ghost var start := StaleIds(sessions, now);
      while true
        invariant totalCount + |StaleIds(sessions, now)| == |start|
        invariant RevokeIds(sessions, StaleIds(sessions, now), now) == RevokeIds(old(sessions), start, now)
        invariant batchSize == 0 ==> totalCount == 0 && sessions == old(sessions)
        decreases |StaleIds(sessions, now)|
      {
        var found := FindStale(now, batchSize);
        if |found| == 0 { break; }
        var ids := Members(found);
        BatchShrinks(sessions, ids, now);
        SubsetSize(ids, StaleIds(sessions, now));
        SubsetSize(StaleIds(sessions, now) - ids, StaleIds(sessions, now));
        totalCount := totalCount + |ids|;
        sessions := RevokeIds(sessions, ids, now);
        if |found| < batchSize { break; }
      }
      if batchSize > 0 {
        assert StaleIds(sessions, now) == {};
        assert RevokeIds(sessions, {}, now) == sessions;
      }
    }
  }
}
