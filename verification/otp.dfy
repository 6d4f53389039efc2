/**
 The one-time-password keys of one phone in Redis. First the atomic commands in any
 interleaving, then whole send and verify calls that do not overlap.
 */
module Otp {
  import opened Common

  const SECOND: int := 1_000
  const CODE_TTL: int := 5 * MINUTE
  const MAX_ATTEMPTS: nat := 5
  const LOCK_SPAN: int := 15 * MINUTE
  const VERIFIED_TTL: int := 15 * MINUTE

  // `code` stands for the stored hash, `expiresAt` is in the writing client's clock,
  // `liveUntil` in the server's.
  datatype Record = Record(code: nat, expiresAt: int, liveUntil: int)

  datatype Counter = Counter(n: nat, liveUntil: int)

  datatype Keys = Keys(record: Option<Record>, attempts: Option<Counter>, lock: Option<int>, verified: Option<int>)

  const NO_KEYS := Keys(None, None, None, None)

  predicate RecordLive(k: Keys, now: int) { k.record.Some? && now < k.record.value.liveUntil }

  predicate LockLive(k: Keys, now: int) { k.lock.Some? && now < k.lock.value }

  function Tries(k: Keys, now: int): nat {
    if k.attempts.Some? && now < k.attempts.value.liveUntil then k.attempts.value.n else 0
  }

  // ---- atomic commands ----

  // MULTI: store the new code, delete the attempt counter.
  function WriteMulti(k: Keys, now: int, code: nat, expiresAt: int): Keys {
    k.(record := Some(Record(code, expiresAt, now + CODE_TTL)), attempts := None)
  }

  datatype FailReply = Locked(ttl: int) | Expired | Incorrect(remaining: int)

  // The failure script; `nowMs` is the calling client's clock.
  function FailScript(k: Keys, now: int, nowMs: int): (Keys, FailReply) {
    if LockLive(k, now) then (k, Locked(k.lock.value - now))
    else if !RecordLive(k, now) then (k, Expired)
    else if k.record.value.expiresAt <= nowMs then (k.(record := None), Expired)
    else
      var n := Tries(k, now) + 1;
      var counted := k.(attempts := Some(Counter(n, now + LOCK_SPAN)));
      if n >= MAX_ATTEMPTS then (counted.(lock := Some(now + LOCK_SPAN), record := None), Locked(LOCK_SPAN))
      else (counted, Incorrect(MAX_ATTEMPTS - n))
  }

  function SuccessScript(k: Keys, now: int): (Keys, bool) {
    if !RecordLive(k, now) then (k, false)
    else (k.(record := None, attempts := None, verified := Some(now + VERIFIED_TTL)), true)
  }

  function DelRecord(k: Keys): Keys { k.(record := None) }

  // A wrong guess is counted when the script got as far as INCR.
  predicate Counts(k: Keys, now: int, nowMs: int) {
    !LockLive(k, now) && RecordLive(k, now) && k.record.value.expiresAt > nowMs
  }

  // ---- any interleaving of commands ----

  datatype Command = Write(code: nat, expiresAt: int) | Fail(nowMs: int) | Success | Delete | Tick(ms: nat)

  datatype Event = Wrote | Counted | Succeeded

  datatype State = State(clock: int, keys: Keys, log: seq<Event>)

  function Next(s: State, c: Command): State {
    match c
    case Write(code, expiresAt) => s.(keys := WriteMulti(s.keys, s.clock, code, expiresAt), log := s.log + [Wrote])
    case Fail(nowMs) =>
      s.(keys := FailScript(s.keys, s.clock, nowMs).0,
         log := if Counts(s.keys, s.clock, nowMs) then s.log + [Counted] else s.log)
    case Success =>
      var (k, done) := SuccessScript(s.keys, s.clock);
      s.(keys := k, log := if done then s.log + [Succeeded] else s.log)
    case Delete => s.(keys := DelRecord(s.keys))
    case Tick(ms) => s.(clock := s.clock + ms)
  }

  function Run(cs: seq<Command>): State {
    if cs == [] then State(0, NO_KEYS, []) else Next(Run(cs[..|cs| - 1]), cs[|cs| - 1])
  }

  // What a log must look like: after each write up to four wrong guesses and then at
  // most one success, or five wrong guesses and nothing more; nothing without a write.
  datatype Phase = Closed | Open(wrong: nat)

  function After(p: Phase, e: Event): Option<Phase> {
    match e
    case Wrote => Some(Open(0))
    case Counted => if p.Closed? then None else if p.wrong + 1 < MAX_ATTEMPTS then Some(Open(p.wrong + 1))
      else Some(Closed)
    case Succeeded => if p.Closed? then None else Some(Closed)
  }

  function PhaseOf(log: seq<Event>): Option<Phase> {
    if log == [] then Some(Closed)
    else
      var before := PhaseOf(log[..|log| - 1]);
      if before.None? then None else After(before.value, log[|log| - 1])
  }

  lemma PhaseSnoc(log: seq<Event>, e: Event)
    ensures PhaseOf(log + [e]) == if PhaseOf(log).None? then None else After(PhaseOf(log).value, e)
  {
    assert (log + [e])[..|log|] == log;
  }

  // While a record lives its wrong guesses are all on the counter, which outlives it.
  ghost predicate Agrees(s: State, p: Phase) {
    RecordLive(s.keys, s.clock) ==>
      && p.Open? && p.wrong < MAX_ATTEMPTS && Tries(s.keys, s.clock) == p.wrong
      && s.keys.record.value.liveUntil <= s.clock + CODE_TTL
      && (s.keys.attempts.Some? ==> s.keys.record.value.liveUntil <= s.keys.attempts.value.liveUntil)
  }

  ghost predicate Ok(s: State) { PhaseOf(s.log).Some? && Agrees(s, PhaseOf(s.log).value) }

  lemma StepKeeps(s: State, c: Command)
    requires Ok(s)
    ensures Ok(Next(s, c))
  {
    if c.Write? {
      PhaseSnoc(s.log, Wrote);
    } else if c.Fail? {
      if Counts(s.keys, s.clock, c.nowMs) {
        PhaseSnoc(s.log, Counted);
      }
    } else if c.Success? {
      if RecordLive(s.keys, s.clock) {
        PhaseSnoc(s.log, Succeeded);
      }
    }
  }

  lemma {:induction false} RunKeeps(cs: seq<Command>)
    ensures Ok(Run(cs))
  {
    if cs != [] {
      RunKeeps(cs[..|cs| - 1]);
      StepKeeps(Run(cs[..|cs| - 1]), cs[|cs| - 1]);
    }
  }

  // The log gains a success when the phone is recorded as verified, and a wrong guess when one is
  // added to the counter.
  lemma LoggedExactly(s: State, c: Command)
    ensures var t := Next(s, c);
            var live := s.keys.record.Some? && s.clock < s.keys.record.value.liveUntil;
            match c
            case Write(code, _) => t.log == s.log + [Wrote] && t.keys.record.Some? && t.keys.record.value.code == code
            case Success =>
              if live then t.log == s.log + [Succeeded] && t.keys.verified == Some(s.clock + 900_000)
              else t.log == s.log && t.keys == s.keys
            case Fail(nowMs) =>
              if live && nowMs < s.keys.record.value.expiresAt && !LockLive(s.keys, s.clock)
              then t.log == s.log + [Counted]
                   && t.keys.attempts == Some(Counter(Tries(s.keys, s.clock) + 1, s.clock + 900_000))
              else t.log == s.log && t.keys.attempts == s.keys.attempts
            case _ => t.log == s.log
  {
  }

  // ---- counting ----

  function WrongSinceWrite(log: seq<Event>): nat {
    if log == [] || log[|log| - 1] == Wrote then 0
    else WrongSinceWrite(log[..|log| - 1]) + (if log[|log| - 1] == Counted then 1 else 0)
  }

  function Occurrences(log: seq<Event>, e: Event): nat {
    if log == [] then 0 else Occurrences(log[..|log| - 1], e) + (if log[|log| - 1] == e then 1 else 0)
  }

  lemma {:induction false} LegalPrefix(log: seq<Event>, n: nat)
    requires n <= |log| && PhaseOf(log).Some?
    ensures PhaseOf(log[..n]).Some?
    decreases |log|
  {
    if n == |log| {
      assert log[..n] == log;
    } else {
      assert log[..|log| - 1][..n] == log[..n];
      LegalPrefix(log[..|log| - 1], n);
    }
  }

  lemma {:induction false} LegalCounts(log: seq<Event>)
    requires PhaseOf(log).Some?
    ensures var p := PhaseOf(log).value;
            && WrongSinceWrite(log) <= MAX_ATTEMPTS
            && (p.Open? ==> p.wrong == WrongSinceWrite(log) < MAX_ATTEMPTS)
            && Occurrences(log, Succeeded) + (if p.Open? then 1 else 0) <= Occurrences(log, Wrote)
  {
    if log != [] {
      LegalCounts(log[..|log| - 1]);
    }
  }

  // ---- main results, for every interleaving ----

  /** Every log of writes, counted wrong guesses and successes is legal: per issued
      code at most four wrong guesses before its one success, or five and then none. */
  lemma {:induction false} LogIsLegal(cs: seq<Command>)
    ensures PhaseOf(Run(cs).log).Some?
  {
    RunKeeps(cs);
  }

  /** Between two writes of the record at most five wrong guesses are counted, and
      successes never outnumber the codes issued, at every point of every run. */
  lemma {:induction false} GuessBound(cs: seq<Command>, n: nat)
    requires n <= |Run(cs).log|
    ensures WrongSinceWrite(Run(cs).log[..n]) <= 5
    ensures Occurrences(Run(cs).log[..n], Succeeded) <= Occurrences(Run(cs).log[..n], Wrote)
  {
    RunKeeps(cs);
    LegalPrefix(Run(cs).log, n);
    LegalCounts(Run(cs).log[..n]);
  }

  /** The counter's own expiry can never reset the count while the record lives. */
  lemma {:induction false} CounterOutlivesRecord(cs: seq<Command>, later: int)
    requires var s := Run(cs); s.clock <= later && RecordLive(s.keys, later)
    ensures var s := Run(cs);
            Tries(s.keys, later) == Tries(s.keys, s.clock) == WrongSinceWrite(s.log) < 5
  {
    RunKeeps(cs);
    LegalCounts(Run(cs).log);
  }

  // The reply, from the counter.
  lemma FailReplyByTries(k: Keys, now: int, nowMs: int)
    requires Counts(k, now, nowMs)
    ensures var (after, reply) := FailScript(k, now, nowMs);
            var n := Tries(k, now) + 1;
            if n < 5 then reply == Incorrect(5 - n) && after.record == k.record && after.lock == k.lock
            else reply == Locked(900_000) && after.record.None? && after.lock == Some(now + 900_000)
  {
  }

  lemma CountedTries(cs: seq<Command>, nowMs: int)
    requires Counts(Run(cs).keys, Run(cs).clock, nowMs)
    ensures Tries(Run(cs).keys, Run(cs).clock) == WrongSinceWrite(Run(cs).log) < 5
  {
    RunKeeps(cs);
    LegalCounts(Run(cs).log);
  }

  /** What a guesser is told is true: the attempts left are five less the wrong guesses
      since the code was written, and the fifth locks for the full span. */
  lemma {:induction false} FailReplyExact(cs: seq<Command>, nowMs: int)
    ensures var s := Run(cs);
            var wrong := WrongSinceWrite(s.log) + 1;
            var (k, reply) := FailScript(s.keys, s.clock, nowMs);
            if LockLive(s.keys, s.clock) then reply == Locked(s.keys.lock.value - s.clock)
            else if !Counts(s.keys, s.clock, nowMs) then reply == Expired
            else if wrong < 5 then reply == Incorrect(5 - wrong) && k.record == s.keys.record && k.lock == s.keys.lock
            else wrong == 5 && reply == Locked(900_000) && k.record.None? && k.lock == Some(s.clock + 900_000)
  {
    if Counts(Run(cs).keys, Run(cs).clock, nowMs) {
      CountedTries(cs, nowMs);
      FailReplyByTries(Run(cs).keys, Run(cs).clock, nowMs);
    }
  }
}
