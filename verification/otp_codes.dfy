/**
 Which guesses are right: over every history of send and verify calls that do not overlap, the
 code that was sent last and no other, once.
 */
module OtpCodes {
  import opened Common
  import opened Otp
  import opened OtpCalls

  // The call, made now, sends its code; or it records the phone as verified.
  ghost predicate Sends(d: Desk, c: Call) {
    c.Send? && InOrder(c.times, d.clock) && SendCall(d, c.times, c.code).1.Ok?
  }

  ghost predicate Verifies(d: Desk, c: Call) {
    c.Verify? && RoundsInOrder(c.rounds, d.clock) && VerifyCall(d, c.rounds, c.guess).1.Ok?
  }

  // The code of the last call of a history that sent one.
  ghost function LastSent(cs: seq<Call>): Option<nat> {
    if cs == [] then None
    else
      var before, c := cs[..|cs| - 1], cs[|cs| - 1];
      if Sends(History(before), c) then Some(c.code) else LastSent(before)
  }

  // ---- what calls do to the record ----

  /** A send is accepted exactly when no lock and no cooldown is live and the hour's window has
      seen fewer than three requests. It stores its code for five minutes, starts counting guesses
      afresh and opens a cooldown of thirty seconds; a refused one leaves code and count alone. */
  lemma SendExact(d: Desk, t: SendTimes, code: nat)
    ensures var (e, r) := SendCall(d, t, code);
            var asked := if d.rate.Some? && t.countAt < d.rate.value.liveUntil then d.rate.value.n else 0;
            && (r.Ok? <==>
                 && (d.keys.lock.None? || d.keys.lock.value <= t.lockAt)
                 && (d.cooldown.None? || d.cooldown.value <= t.setAt)
                 && asked < 3)
            && (r.Ok? ==>
                 && e.keys == Keys(Some(Record(code, t.expiresAt, t.writeAt + 300_000)), None,
                                   d.keys.lock, d.keys.verified)
                 && e.cooldown == Some(t.setAt + 30_000)
                 && e.issued == d.issued + [Issue(t.setAt, t.countAt, |e.windows|)]
                 && |e.windows| == |d.windows| + (if asked == 0 then 1 else 0)
                 && e.rate == Some(Counter(asked + 1, if asked == 0 then t.expireAt + 3_600_000
                                                      else d.rate.value.liveUntil)))
            && (r.Err? ==> r.error == TooManyRequests && e.keys == d.keys && e.issued == d.issued)
  {
  }

  // One round: the record survives or goes, and only its own code is accepted.
  lemma RoundRecord(d: Desk, t: Round, guess: nat)
    ensures var (e, reply) := VerifyRound(d, t, guess);
            && (e.keys.record == d.keys.record || e.keys.record == None)
            && (reply == Done(Ok(())) ==>
                 && d.keys.record.Some? && d.keys.record.value.code == guess
                 && e.keys.record == None && e.keys.attempts == None && e.keys.verified == Some(t.scriptAt + 900_000)
                 && e.clock == t.scriptAt)
            && (reply != Done(Ok(())) ==> e.keys.verified == d.keys.verified)
  {
  }

  lemma {:induction false} VerifyRecord(d: Desk, ts: seq<Round>, guess: nat)
    ensures var (e, r) := VerifyCall(d, ts, guess);
            && (e.keys.record == d.keys.record || e.keys.record == None)
            && (r.Ok? ==>
                 && d.keys.record.Some? && d.keys.record.value.code == guess
                 && e.keys.record == None && e.keys.attempts == None && e.keys.verified == Some(e.clock + 900_000))
            && (r.Err? ==> e.keys.verified == d.keys.verified)
    decreases |ts|
  {
    if ts != [] {
      RoundRecord(d, ts[0], guess);
      var (d1, reply) := VerifyRound(d, ts[0], guess);
      if reply.Retry? {
        VerifyRecord(d1, ts[1..], guess);
      }
    }
  }

  lemma ServeRecord(d: Desk, c: Call)
    ensures var e := Serve(d, c);
            && (Sends(d, c) ==> e.keys.record.Some? && e.keys.record.value.code == c.code)
            && (!Sends(d, c) ==> e.keys.record == d.keys.record || e.keys.record == None)
            && (Verifies(d, c) ==> d.keys.record.Some? && d.keys.record.value.code == c.guess && e.keys.record == None)
  {
    if c.Send? {
      SendExact(d, c.times, c.code);
    } else {
      VerifyRecord(d, c.rounds, c.guess);
    }
  }

  lemma {:induction false} RecordIsLastSent(cs: seq<Call>)
    ensures var record := History(cs).keys.record; record.Some? ==> LastSent(cs) == Some(record.value.code)
  {
    if cs != [] {
      RecordIsLastSent(cs[..|cs| - 1]);
      ServeRecord(History(cs[..|cs| - 1]), cs[|cs| - 1]);
    }
  }

  // ---- main results ----

  /** A verification is accepted only for the code sent last; it uses the code up and records the
      phone as verified for fifteen minutes. A refused one leaves the phone as it was. */
  lemma {:induction false} OnlyTheLastCode(cs: seq<Call>, ts: seq<Round>, guess: nat)
    requires RoundsInOrder(ts, History(cs).clock)
    ensures var (e, r) := VerifyCall(History(cs), ts, guess);
            && (r.Ok? ==> LastSent(cs) == Some(guess) && e.keys.record == None
                          && e.keys.verified == Some(e.clock + 900_000))
            && (r.Err? ==> e.keys.verified == History(cs).keys.verified)
  {
    RecordIsLastSent(cs);
    VerifyRecord(History(cs), ts, guess);
  }

  // The round finds no lock, a code with time left on both clocks, and a transaction that goes through.
  ghost predicate Open(k: Keys, t: Round) {
    && (k.lock.None? || k.lock.value <= t.lockAt)
    && k.record.Some? && t.scriptAt < k.record.value.liveUntil
    && t.readMs < k.record.value.expiresAt && t.scriptMs < k.record.value.expiresAt && !t.aborted
  }

  /** As long as a code is live and no lock is, the code sent last is accepted at once. */
  lemma {:induction false} TheLastCodeWorks(cs: seq<Call>, ts: seq<Round>, guess: nat)
    requires RoundsInOrder(ts, History(cs).clock) && ts != [] && Open(History(cs).keys, ts[0])
    requires LastSent(cs) == Some(guess)
    ensures var (e, r) := VerifyCall(History(cs), ts, guess);
            && r == Ok(()) && e.accepted == History(cs).accepted + [ts[0].scriptAt]
            && e.keys == Keys(None, None, History(cs).keys.lock, Some(ts[0].scriptAt + 900_000))
  {
    RecordIsLastSent(cs);
  }

  /** Any other guess is refused and counted: the first four leave the code in place, the fifth
      deletes it and locks the phone for fifteen minutes. */
  lemma {:induction false} AnyOtherIsCounted(cs: seq<Call>, ts: seq<Round>, guess: nat)
    requires RoundsInOrder(ts, History(cs).clock) && ts != [] && Open(History(cs).keys, ts[0])
    requires LastSent(cs) != Some(guess)
    ensures var (e, r) := VerifyCall(History(cs), ts, guess);
            var k, at := History(cs).keys, ts[0].scriptAt;
            var n := 1 + if k.attempts.Some? && at < k.attempts.value.liveUntil then k.attempts.value.n else 0;
            && r.Err? && e.keys.verified == k.verified && e.accepted == History(cs).accepted
            && e.keys.attempts == Some(Counter(n, at + 900_000))
            && (if n < 5 then
                  && r.error == BadRequest && e.keys.record == k.record && e.keys.lock == k.lock
                  && e.locks == History(cs).locks
                else
                  && r.error == TooManyRequests && e.keys.record == None && e.keys.lock == Some(at + 900_000)
                  && e.locks == History(cs).locks + [at])
  {
    RecordIsLastSent(cs);
  }

  lemma {:induction false} NoCodeUntilSent(cs: seq<Call>, i: nat)
    requires i <= |cs| && History(cs[..i]).keys.record == None
    requires forall k :: i <= k < |cs| ==> !Sends(History(cs[..k]), cs[k])
    ensures History(cs).keys.record == None
    decreases |cs|
  {
    if i == |cs| {
      assert cs[..i] == cs;
    } else {
      var n, before := |cs| - 1, cs[..|cs| - 1];
      assert before[..i] == cs[..i] && forall k :: i <= k < n ==> before[..k] == cs[..k];
      NoCodeUntilSent(before, i);
      assert !Sends(History(cs[..n]), cs[n]);
      ServeRecord(History(before), cs[n]);
    }
  }

  /** Each code works once: between two accepted verifications a new code was sent. */
  lemma {:induction false} WorksOnce(cs: seq<Call>, i: nat, j: nat)
    requires i < j < |cs| && Verifies(History(cs[..i]), cs[i]) && Verifies(History(cs[..j]), cs[j])
    ensures exists k :: i < k < j && Sends(History(cs[..k]), cs[k])
  {
    if forall k :: i < k < j ==> !Sends(History(cs[..k]), cs[k]) {
      var head := cs[..j];
      assert cs[..i + 1][..i] == cs[..i] && head[..i + 1] == cs[..i + 1];
      assert forall k :: i < k < j ==> head[..k] == cs[..k];
      ServeRecord(History(cs[..i]), cs[i]);
      NoCodeUntilSent(head, i + 1);
      ServeRecord(History(head), cs[j]);
      assert false;
    }
  }
}
