/** host/internal/auth/pairing.go: pairing codes and their rate limit.  Times are in
    nanoseconds; attempts are counted per second. */
module Pairing {
  import opened Text

  const SECOND := 1_000_000_000

  function Bucket(at: int): int {
    at / SECOND
  }

  datatype PairingCode = PairingCode(code: string, expiresAt: int, used: bool)

  datatype Config = Config(codeExpiry: int, maxAttemptsPerMinute: int)

  datatype State = State(attempts: map<int, nat>, active: Option<PairingCode>)

  /** StorageFailed: the token could not be hashed or the device not saved. */
  datatype Outcome = RateLimited | CodeInvalid | CodeUsed | CodeExpired | StorageFailed | Paired

  function WithDefaults(c: Config): Config {
    Config(if c.codeExpiry == 0 then 120 * SECOND else c.codeExpiry,
           if c.maxAttemptsPerMinute == 0 then 5 else c.maxAttemptsPerMinute)
  }

  function Pruned(attempts: map<int, nat>, cutoff: int): map<int, nat> {
    map ts | ts in attempts && ts >= cutoff :: attempts[ts]
  }

  /** The sum over the keys in the order given. */
  function Total(attempts: map<int, nat>, order: seq<int>): nat {
    if order == [] then 0
    else
      var last := order[|order| - 1];
      Total(attempts, order[..|order| - 1]) + if last in attempts then attempts[last] else 0
  }

  function Recorded(attempts: map<int, nat>, key: int): map<int, nat> {
    attempts[key := 1 + if key in attempts then attempts[key] else 0]
  }

  function Generate(s: State, c: Config, code: string, now: int): State {
    s.(active := Some(PairingCode(code, now + c.codeExpiry, false)))
  }

  predicate Limited(s: State, c: Config, now: int, order: seq<int>) {
    Total(Pruned(s.attempts, Bucket(now - 60 * SECOND)), order) >= c.maxAttemptsPerMinute
  }

  function Judge(s: State, code: string, now: int, stored: bool): Outcome {
    if s.active.None? then CodeInvalid
    else if s.active.value.used then CodeUsed
    else if now > s.active.value.expiresAt then CodeExpired
    else if s.active.value.code != code then CodeInvalid
    else if stored then Paired else StorageFailed
  }

  function Validate(s: State, c: Config, code: string, now: int, order: seq<int>, stored: bool): (State, Outcome) {
    var attempts := Pruned(s.attempts, Bucket(now - 60 * SECOND));
    if Limited(s, c, now, order) then (s.(attempts := attempts), RateLimited)
    else
      var outcome := Judge(s, code, now, stored);
      var s' := s.(attempts := Recorded(attempts, Bucket(now)));
      (if outcome == Paired || outcome == StorageFailed then s'.(active := Some(s.active.value.(used := true))) else s',
       outcome)
  }

  class PairingManager {
    const config: Config
    var attempts: map<int, nat>
    var active: Option<PairingCode>

    ghost function Value(): State
      reads this
    {
      State(attempts, active)
    }

    constructor (c: Config)
      ensures config == WithDefaults(c) && Value() == State(map[], None)
    {
      var expiry, most := c.codeExpiry, c.maxAttemptsPerMinute;
      if expiry == 0 {
        expiry := 120 * SECOND;
      }
      if most == 0 {
        most := 5;
      }
      config := Config(expiry, most);
      attempts := map[];
      active := None;
    }

    /** code is what the random generator drew. */
    method GenerateCode(code: string, now: int)
      modifies this`active
      ensures Value() == Generate(old(Value()), config, code, now)
    {
      active := Some(PairingCode(code, now + config.codeExpiry, false));
    }

    /** The orders are those in which the two loops visit the attempts map. */
    method CheckRateLimit(now: int, order: seq<int>, order2: seq<int>) returns (limited: bool)
      requires forall ts :: ts in attempts ==> ts in order
      modifies this`attempts
      ensures attempts == Pruned(old(attempts), Bucket(now - 60 * SECOND))
      ensures limited == Limited(old(Value()), config, now, order2)
    {
      var cutoff := Bucket(now - 60 * SECOND);
      for i := 0 to |order|
        invariant active == old(active)
        invariant attempts.Keys <= old(attempts).Keys
        invariant forall ts :: ts in old(attempts) ==>
                    if ts in attempts then attempts[ts] == old(attempts)[ts] && (ts in order[..i] ==> ts >= cutoff)
                    else ts < cutoff
      {
        var ts := order[i];
        assert order[..i + 1] == order[..i] + [ts];
        if ts in attempts && ts < cutoff {
          attempts := attempts - {ts};
        }
      }
      assert order[..|order|] == order;
      forall ts | ts in attempts
        ensures ts in old(attempts) && ts >= cutoff
      {
        assert ts in old(attempts).Keys;
      }
      assert attempts == Pruned(old(attempts), cutoff);
      var count := 0;
      for i := 0 to |order2|
        invariant attempts == Pruned(old(attempts), cutoff) && active == old(active)
        invariant count == Total(attempts, order2[..i])
      {
        assert order2[..i + 1][..i] == order2[..i];
        if order2[i] in attempts {
          count := count + attempts[order2[i]];
        }
      }
      assert order2[..|order2|] == order2;
      limited := count >= config.maxAttemptsPerMinute;
    }

    method ValidateCode(code: string, now: int, order: seq<int>, order2: seq<int>, stored: bool)
      returns (outcome: Outcome)
      requires forall ts :: ts in attempts ==> ts in order
      modifies this
      ensures (Value(), outcome) == Validate(old(Value()), config, code, now, order2, stored)
    {
      var limited := CheckRateLimit(now, order, order2);
      if limited {
        return RateLimited;
      }
      var key := Bucket(now);
      var n := if key in attempts then attempts[key] else 0;
      attempts := attempts[key := 1 + n];
      if active.None? {
        return CodeInvalid;
      }
      if active.value.used {
        return CodeUsed;
      }
      if now > active.value.expiresAt {
        return CodeExpired;
      }
      if active.value.code != code {
        return CodeInvalid;
      }
      active := Some(active.value.(used := true));
      if !stored {
        return StorageFailed;
      }
      outcome := Paired;
    }
  }
}
