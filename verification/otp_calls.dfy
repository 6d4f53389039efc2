/**
 Whole send and verify calls that do not overlap. A call takes time: each command in
 it carries its own server instant, in order; client clock readings are arbitrary.
 */
module OtpCalls {
  import opened Common
  import opened Otp

  const RESEND_COOLDOWN: int := 30 * SECOND
  const RATE_LIMIT: nat := 3
  const RATE_WINDOW: int := HOUR
  const RETRIES: nat := 3

  // A code handed out: when its cooldown started, when it was counted, and in which rate window (numbered from 1).
  datatype Issue = Issue(setAt: int, countedAt: int, window: nat)

  datatype Window = Window(start: int, end: int)

  // `issued`, `windows`, `locks` and `accepted` record the past; the rest are the keys.
  datatype Desk = Desk(
    clock: int, keys: Keys, cooldown: Option<int>, rate: Option<Counter>,
    issued: seq<Issue>, windows: seq<Window>, locks: seq<int>, accepted: seq<int>)

  const IDLE := Desk(0, NO_KEYS, None, None, [], [], [], [])

  datatype SendTimes = SendTimes(lockAt: int, setAt: int, countAt: int, expireAt: int, writeAt: int, expiresAt: int)

  ghost predicate InOrder(t: SendTimes, clock: int) {
    clock <= t.lockAt <= t.setAt <= t.countAt <= t.expireAt <= t.writeAt
  }

  // INCR starts a key that is missing or has run out at 1.
  function Incr(rate: Option<Counter>, now: int): nat {
    (if rate.Some? && now < rate.value.liveUntil then rate.value.n else 0) + 1
  }

  // INCR, and EXPIRE when it returned 1.
  function CountRequest(rate: Option<Counter>, t: SendTimes): Counter {
    var n := Incr(rate, t.countAt);
    if n == 1 then Counter(1, t.expireAt + RATE_WINDOW) else rate.value.(n := n)
  }

  function OpenWindow(windows: seq<Window>, rate: Option<Counter>, t: SendTimes): seq<Window> {
    if Incr(rate, t.countAt) == 1 then windows + [Window(t.countAt, t.expireAt + RATE_WINDOW)] else windows
  }

  function SendCall(d: Desk, t: SendTimes, code: nat): (Desk, Result<()>) {
    if LockLive(d.keys, t.lockAt) then (d.(clock := t.lockAt), Err(TooManyRequests))
    else if d.cooldown.Some? && t.setAt < d.cooldown.value then (d.(clock := t.setAt), Err(TooManyRequests))
    else
      var counter, windows := CountRequest(d.rate, t), OpenWindow(d.windows, d.rate, t);
      if counter.n > RATE_LIMIT then
        (d.(cooldown := None, rate := Some(counter), windows := windows, clock := t.writeAt), Err(TooManyRequests))
      else
        (d.(cooldown := Some(t.setAt + RESEND_COOLDOWN), rate := Some(counter), windows := windows, clock := t.writeAt,
            keys := WriteMulti(d.keys, t.writeAt, code, t.expiresAt),
            issued := d.issued + [Issue(t.setAt, t.countAt, |windows|)]), Ok(()))
  }

  // One round of the verify loop; `aborted`: EXEC returned nothing.
  datatype Round = Round(lockAt: int, readAt: int, readMs: int, scriptAt: int, scriptMs: int, aborted: bool)

  ghost predicate RoundsInOrder(ts: seq<Round>, clock: int) {
    ts == [] || (clock <= ts[0].lockAt <= ts[0].readAt <= ts[0].scriptAt && RoundsInOrder(ts[1..], ts[0].scriptAt))
  }

  datatype Reply = Retry | Done(result: Result<()>)

  function VerifyRound(d: Desk, t: Round, code: nat): (Desk, Reply) {
    if LockLive(d.keys, t.lockAt) then (d.(clock := t.lockAt), Done(Err(TooManyRequests)))
    else if !RecordLive(d.keys, t.readAt) then (d.(clock := t.readAt), Done(Err(BadRequest)))
    else if d.keys.record.value.expiresAt <= t.readMs then
      (d.(keys := DelRecord(d.keys), clock := t.scriptAt), Done(Err(BadRequest)))
    else if t.aborted then (d.(clock := t.scriptAt), Retry)
    else if d.keys.record.value.code == code then
      var (k, deleted) := SuccessScript(d.keys, t.scriptAt);
      if deleted then (d.(keys := k, clock := t.scriptAt, accepted := d.accepted + [t.scriptAt]), Done(Ok(())))
      else (d.(keys := k, clock := t.scriptAt), Retry)
    else
      var (k, reply) := FailScript(d.keys, t.scriptAt, t.scriptMs);
      var d1 := d.(keys := k, clock := t.scriptAt,
                   locks := if k.lock != d.keys.lock then d.locks + [t.scriptAt] else d.locks);
      match reply
      case Expired => (d1, Done(Err(BadRequest)))
      case Locked(_) => (d1, Done(Err(TooManyRequests)))
      case Incorrect(_) => (d1, Done(Err(BadRequest)))
  }

  function VerifyCall(d: Desk, ts: seq<Round>, code: nat): (Desk, Result<()>)
    decreases |ts|
  {
    if ts == [] then (d, Err(BadRequest))
    else
      var (d1, reply) := VerifyRound(d, ts[0], code);
      if reply.Done? then (d1, reply.result) else VerifyCall(d1, ts[1..], code)
  }

  // ---- histories of calls ----

  datatype Call = Send(times: SendTimes, code: nat) | Verify(rounds: seq<Round>, guess: nat)

  ghost function Serve(d: Desk, c: Call): Desk {
    match c
    case Send(t, code) => if InOrder(t, d.clock) then SendCall(d, t, code).0 else d
    case Verify(ts, guess) => if RoundsInOrder(ts, d.clock) then VerifyCall(d, ts, guess).0 else d
  }

  ghost function History(cs: seq<Call>): Desk {
    if cs == [] then IDLE else Serve(History(cs[..|cs| - 1]), cs[|cs| - 1])
  }

  // ---- invariant ----

  ghost predicate SpacingOk(issued: seq<Issue>, cooldown: Option<int>, clock: int) {
    && (forall i :: 0 <= i < |issued| - 1 ==> issued[i].setAt + RESEND_COOLDOWN <= issued[i + 1].setAt)
    && (issued != [] ==>
         var next := issued[|issued| - 1].setAt + RESEND_COOLDOWN;
         next <= clock || (cooldown.Some? && next <= cooldown.value))
  }

  ghost predicate WindowsOk(windows: seq<Window>, rate: Option<Counter>, clock: int) {
    && (forall w :: 0 <= w < |windows| ==> windows[w].start + RATE_WINDOW <= windows[w].end)
    && (forall w :: 0 <= w < |windows| - 1 ==> windows[w].end <= windows[w + 1].start)
    && (rate.Some? <==> windows != [])
    && (rate.Some? ==>
         var last := windows[|windows| - 1];
         rate.value.liveUntil == last.end && rate.value.n >= 1 && last.start <= clock)
  }

  ghost predicate CountedIn(i: Issue, windows: seq<Window>) {
    1 <= i.window <= |windows| && windows[i.window - 1].start <= i.countedAt < windows[i.window - 1].end
  }

  // Each code was counted inside its window, three places on the window is a later
  // one, and all but the last n codes belong to windows before the current one.
  ghost predicate IssuedOk(issued: seq<Issue>, windows: seq<Window>, n: nat) {
    && (forall i :: 0 <= i < |issued| ==> CountedIn(issued[i], windows))
    && (forall i :: 0 <= i < |issued| - 1 ==> issued[i].window <= issued[i + 1].window)
    && (forall i :: 0 <= i < |issued| - RATE_LIMIT ==> issued[i].window < issued[i + RATE_LIMIT].window)
    && (forall i :: 0 <= i < |issued| - n ==> issued[i].window < |windows|)
  }

  function Requests(rate: Option<Counter>): nat { if rate.Some? then rate.value.n else 0 }

  ghost predicate RateOk(d: Desk) {
    && SpacingOk(d.issued, d.cooldown, d.clock)
    && WindowsOk(d.windows, d.rate, d.clock)
    && IssuedOk(d.issued, d.windows, Requests(d.rate))
  }

  // `at` is not within fifteen minutes after any of the locks was set.
  ghost predicate Clear(locks: seq<int>, at: int) { forall l :: l in locks ==> l + LOCK_SPAN <= at }

  ghost predicate LocksOk(locks: seq<int>, lock: Option<int>, clock: int) {
    forall l :: l in locks ==> l <= clock && (l + LOCK_SPAN <= clock || (lock.Some? && l + LOCK_SPAN <= lock.value))
  }

  // ---- preservation ----

  lemma WindowKept(windows: seq<Window>, rate: Option<Counter>, clock: int, t: SendTimes)
    requires WindowsOk(windows, rate, clock) && InOrder(t, clock)
    ensures var counter, after := CountRequest(rate, t), OpenWindow(windows, rate, t);
            && WindowsOk(after, Some(counter), t.writeAt)
            && after[|after| - 1].start <= t.countAt < after[|after| - 1].end
            && (if |after| == |windows| then after == windows && counter.n == Requests(rate) + 1
                else |after| == |windows| + 1 && after[..|windows|] == windows && counter.n == 1)
  {
  }

  // The codes issued before stay in order when one more request has been counted.
  lemma IssuedKept(issued: seq<Issue>, windows: seq<Window>, n: nat, after: seq<Window>, m: nat)
    requires IssuedOk(issued, windows, n)
    requires if |after| == |windows| then after == windows && m == n + 1
             else |after| == |windows| + 1 && after[..|windows|] == windows && m == 1
    ensures IssuedOk(issued, after, m - 1)
  {
    forall i | 0 <= i < |issued| ensures CountedIn(issued[i], after) {
      assert CountedIn(issued[i], windows);
      assert after[..|windows|][issued[i].window - 1] == after[issued[i].window - 1];
    }
  }

  lemma IssueKeeps(issued: seq<Issue>, windows: seq<Window>, m: nat, setAt: int, countAt: int)
    requires 1 <= m <= RATE_LIMIT && IssuedOk(issued, windows, m - 1) && windows != []
    requires windows[|windows| - 1].start <= countAt < windows[|windows| - 1].end
    ensures IssuedOk(issued + [Issue(setAt, countAt, |windows|)], windows, m)
  {
  }

  lemma SendKeepsSpacing(d: Desk, t: SendTimes, code: nat)
    requires SpacingOk(d.issued, d.cooldown, d.clock) && InOrder(t, d.clock)
    ensures var e := SendCall(d, t, code).0; SpacingOk(e.issued, e.cooldown, e.clock)
  {
    var e := SendCall(d, t, code).0;
    if e.issued != d.issued {
      assert e.issued == d.issued + [e.issued[|d.issued|]] && e.issued[|d.issued|].setAt == t.setAt;
    }
  }

  lemma SendKeepsWindows(d: Desk, t: SendTimes, code: nat)
    requires WindowsOk(d.windows, d.rate, d.clock) && IssuedOk(d.issued, d.windows, Requests(d.rate)) &&
      InOrder(t, d.clock)
    ensures var e := SendCall(d, t, code).0;
            WindowsOk(e.windows, e.rate, e.clock) && IssuedOk(e.issued, e.windows, Requests(e.rate))
  {
    var counter, windows, e := CountRequest(d.rate, t), OpenWindow(d.windows, d.rate, t), SendCall(d, t, code).0;
    WindowKept(d.windows, d.rate, d.clock, t);
    IssuedKept(d.issued, d.windows, Requests(d.rate), windows, counter.n);
    if e.rate == d.rate {
      assert e.windows == d.windows && e.issued == d.issued;
    } else if counter.n <= RATE_LIMIT {
      IssueKeeps(d.issued, windows, counter.n, t.setAt, t.countAt);
      assert e.issued == d.issued + [Issue(t.setAt, t.countAt, |windows|)];
    } else {
      assert e.issued == d.issued;
    }
  }

  lemma {:induction false} VerifyFrame(d: Desk, ts: seq<Round>, code: nat)
    requires RoundsInOrder(ts, d.clock)
    ensures var e := VerifyCall(d, ts, code).0;
            && e.cooldown == d.cooldown && e.rate == d.rate && e.issued == d.issued && e.windows == d.windows
            && d.clock <= e.clock
    decreases |ts|
  {
    if ts != [] {
      var (d1, reply) := VerifyRound(d, ts[0], code);
      if reply.Retry? {
        VerifyFrame(d1, ts[1..], code);
      }
    }
  }

  lemma ServeKeepsRate(d: Desk, c: Call)
    requires RateOk(d)
    ensures RateOk(Serve(d, c))
  {
    if c.Send? {
      if InOrder(c.times, d.clock) {
        SendKeepsSpacing(d, c.times, c.code);
        SendKeepsWindows(d, c.times, c.code);
      }
    } else if RoundsInOrder(c.rounds, d.clock) {
      VerifyFrame(d, c.rounds, c.guess);
    }
  }

  lemma {:induction false} HistoryRateOk(cs: seq<Call>)
    ensures RateOk(History(cs))
  {
    if cs != [] {
      HistoryRateOk(cs[..|cs| - 1]);
      ServeKeepsRate(History(cs[..|cs| - 1]), cs[|cs| - 1]);
    }
  }

  // ---- locks ----

  lemma SendKeepsLocks(d: Desk, t: SendTimes, code: nat)
    requires LocksOk(d.locks, d.keys.lock, d.clock) && InOrder(t, d.clock)
    ensures var (e, r) := SendCall(d, t, code);
            && LocksOk(e.locks, e.keys.lock, e.clock) && e.locks == d.locks && e.accepted == d.accepted
            && (r.Ok? ==> Clear(d.locks, t.lockAt))
  {
  }

  lemma RoundKeepsLocks(d: Desk, t: Round, code: nat)
    requires LocksOk(d.locks, d.keys.lock, d.clock) && d.clock <= t.lockAt <= t.readAt <= t.scriptAt
    ensures var (e, reply) := VerifyRound(d, t, code);
            && LocksOk(e.locks, e.keys.lock, e.clock)
            && (reply == Done(Ok(())) ==>
                 e.locks == d.locks && e.accepted == d.accepted + [t.scriptAt] && Clear(d.locks, t.lockAt))
            && (reply != Done(Ok(())) ==> e.accepted == d.accepted)
            && (reply.Retry? ==> e.clock == t.scriptAt && e.locks == d.locks)
  {
  }

  lemma {:induction false} VerifyKeepsLocks(d: Desk, ts: seq<Round>, code: nat)
    requires LocksOk(d.locks, d.keys.lock, d.clock) && RoundsInOrder(ts, d.clock)
    ensures var (e, r) := VerifyCall(d, ts, code);
            && LocksOk(e.locks, e.keys.lock, e.clock)
            && (r.Ok? ==> e.locks == d.locks && Clear(d.locks, e.clock) && e.accepted == d.accepted + [e.clock])
            && (r.Err? ==> e.accepted == d.accepted)
    decreases |ts|
  {
    if ts != [] {
      RoundKeepsLocks(d, ts[0], code);
      if VerifyRound(d, ts[0], code).1.Retry? {
        VerifyKeepsLocks(VerifyRound(d, ts[0], code).0, ts[1..], code);
      }
    }
  }

  lemma {:induction false} HistoryLocksOk(cs: seq<Call>)
    ensures var d := History(cs); LocksOk(d.locks, d.keys.lock, d.clock)
  {
    if cs != [] {
      HistoryLocksOk(cs[..|cs| - 1]);
      var d, c := History(cs[..|cs| - 1]), cs[|cs| - 1];
      if c.Send? {
        if InOrder(c.times, d.clock) {
          SendKeepsLocks(d, c.times, c.code);
        }
      } else if RoundsInOrder(c.rounds, d.clock) {
        VerifyKeepsLocks(d, c.rounds, c.guess);
      }
    }
  }

  // ---- main results, for every history of calls that do not overlap ----

  /** Consecutive codes are at least thirty seconds apart. */
  lemma {:induction false} CodesSpaced(cs: seq<Call>, i: nat)
    requires i + 1 < |History(cs).issued|
    ensures History(cs).issued[i].setAt + 30_000 <= History(cs).issued[i + 1].setAt
  {
    HistoryRateOk(cs);
  }

  lemma {:induction false} WindowOrder(issued: seq<Issue>, windows: seq<Window>, n: nat, i: nat, j: nat)
    requires IssuedOk(issued, windows, n) && i <= j < |issued|
    ensures issued[i].window <= issued[j].window
  {
    if i < j {
      WindowOrder(issued, windows, n, i, j - 1);
    }
  }

  // A rate window holds at most three codes: four places apart the window has changed.
  lemma {:induction false} WindowHoldsThree(cs: seq<Call>, i: nat, j: nat)
    requires i + 3 <= j < |History(cs).issued|
    ensures History(cs).issued[i].window < History(cs).issued[j].window
  {
    HistoryRateOk(cs);
    var d := History(cs);
    WindowOrder(d.issued, d.windows, Requests(d.rate), i + RATE_LIMIT, j);
  }

  lemma {:induction false} WindowsApart(windows: seq<Window>, rate: Option<Counter>, clock: int, v: nat, w: nat)
    requires WindowsOk(windows, rate, clock) && v < w < |windows|
    ensures windows[v].end <= windows[w].start
  {
    if v < w - 1 {
      WindowsApart(windows, rate, clock, v, w - 1);
    }
  }

  // Six places apart, at least an hour lies between two codes.
  lemma SixApart(cs: seq<Call>, i: nat, j: nat)
    requires i + 2 * RATE_LIMIT <= j < |History(cs).issued|
    ensures History(cs).issued[i].countedAt + RATE_WINDOW <= History(cs).issued[j].countedAt
  {
    HistoryRateOk(cs);
    var d := History(cs);
    WindowHoldsThree(cs, i, i + RATE_LIMIT);
    WindowHoldsThree(cs, i + RATE_LIMIT, j);
    var v, w := d.issued[i].window - 1, d.issued[j].window - 1;
    assert CountedIn(d.issued[i], d.windows) && CountedIn(d.issued[j], d.windows);
    WindowsApart(d.windows, d.rate, d.clock, v, v + 1);
    WindowsApart(d.windows, d.rate, d.clock, v + 1, w);
  }

  lemma {:induction false} Smallest(s: set<int>) returns (m: int)
    requires exists x :: x in s
    ensures m in s && forall k :: k in s ==> m <= k
    decreases |s|
  {
    m :| m in s;
    assert forall k :: k in s ==> k == m || k in s - {m};
    if exists k :: k in s - {m} {
      var k := Smallest(s - {m});
      m := Min(m, k);
    }
  }

  ghost function IssuedBetween(d: Desk, from: int, to: int): set<int> {
    set i | 0 <= i < |d.issued| && from <= d.issued[i].countedAt < to
  }

  /** Any half-open hour sees at most six codes. */
  lemma {:induction false} SixPerHour(cs: seq<Call>, from: int)
    ensures |IssuedBetween(History(cs), from, from + 3_600_000)| <= 6
  {
    var d := History(cs);
    var s := IssuedBetween(d, from, from + 3_600_000);
    if s != {} {
      var m := Smallest(s);
      forall j | j in s ensures j in {m, m + 1, m + 2, m + 3, m + 4, m + 5} {
        if m + 6 <= j {
          SixApart(cs, m, j);
        }
      }
      SubsetSize(s, {m, m + 1, m + 2, m + 3, m + 4, m + 5});
    }
  }

  /** For fifteen minutes after any lock was set no call is accepted: a code is sent or
      a guess verified only when every earlier lock has run out. */
  lemma {:induction false} NothingAcceptedWhileLocked(cs: seq<Call>, t: SendTimes, code: nat, ts: seq<Round>,
          guess: nat)
    requires InOrder(t, History(cs).clock) && RoundsInOrder(ts, History(cs).clock)
    ensures var d := History(cs);
            && (SendCall(d, t, code).1.Ok? ==> forall l :: l in d.locks ==> l + 900_000 <= t.lockAt)
            && (VerifyCall(d, ts, guess).1.Ok? ==>
                 forall l :: l in d.locks ==> l + 900_000 <= VerifyCall(d, ts, guess).0.clock)
  {
    HistoryLocksOk(cs);
    SendKeepsLocks(History(cs), t, code);
    VerifyKeepsLocks(History(cs), ts, guess);
  }

  // ---- the service ----

  class OtpService {
    var clock: int
    var keys: Keys
    var cooldown: Option<int>
    var rate: Option<Counter>
    ghost var issued: seq<Issue>
    ghost var windows: seq<Window>
    ghost var locks: seq<int>
    ghost var accepted: seq<int>

    ghost function State(): Desk reads this {
      Desk(clock, keys, cooldown, rate, issued, windows, locks, accepted)
    }

    constructor ()
      ensures State() == IDLE
    {
      clock, keys, cooldown, rate := 0, NO_KEYS, None, None;
      issued, windows, locks, accepted := [], [], [], [];
    }

    method Send(t: SendTimes, code: nat) returns (r: Result<()>)
      modifies this
      ensures State() == SendCall(old(State()), t, code).0 && r == SendCall(old(State()), t, code).1
    {
      clock := t.lockAt;
      if LockLive(keys, t.lockAt) { return Err(TooManyRequests); }
      clock := t.setAt;
      if cooldown.Some? && t.setAt < cooldown.value { return Err(TooManyRequests); }
      cooldown := Some(t.setAt + RESEND_COOLDOWN);
      clock := t.countAt;
      windows := OpenWindow(windows, rate, t);
      var requests := Incr(rate, t.countAt);
      rate := Some(Counter(requests, if requests == 1 then t.expireAt + RATE_WINDOW else rate.value.liveUntil));
      clock := t.writeAt;
      if requests > RATE_LIMIT {
        cooldown := None;
        return Err(TooManyRequests);
      }
      keys := WriteMulti(keys, t.writeAt, code, t.expiresAt);
      issued := issued + [Issue(t.setAt, t.countAt, |windows|)];
      return Ok(());
    }

    method Verify(ts: seq<Round>, guess: nat) returns (r: Result<()>)
      requires |ts| == 3
      modifies this
      ensures State() == VerifyCall(old(State()), ts, guess).0 && r == VerifyCall(old(State()), ts, guess).1
    {
      for i := 0 to RETRIES
        invariant VerifyCall(old(State()), ts, guess) == VerifyCall(State(), ts[i..], guess)
      {
        ghost var before := State();
        var t := ts[i];
        assert ts[i..][0] == t && ts[i..][1..] == ts[i + 1..];
        clock := t.lockAt;
        if LockLive(keys, t.lockAt) { return Err(TooManyRequests); }
        clock := t.readAt;
        if !RecordLive(keys, t.readAt) { return Err(BadRequest); }
        var record := keys.record.value;
        clock := t.scriptAt;
        if record.expiresAt <= t.readMs {
          keys := DelRecord(keys);
          return Err(BadRequest);
        }
        if record.code == guess {
          if t.aborted { continue; }
          var (k, deleted) := SuccessScript(keys, t.scriptAt);
          keys := k;
          if deleted {
            accepted := accepted + [t.scriptAt];
            return Ok(());
          }
          continue;
        }
        if t.aborted { continue; }
        var (k, reply) := FailScript(keys, t.scriptAt, t.scriptMs);
        locks := if k.lock != keys.lock then locks + [t.scriptAt] else locks;
        keys := k;
        match reply
        case Expired => return Err(BadRequest);
        case Locked(_) => return Err(TooManyRequests);
        case Incorrect(_) => return Err(BadRequest);
      }
      return Err(BadRequest);
    }
  }
}
