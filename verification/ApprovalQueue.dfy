/** The approval queue object of host/internal/server/approval.go, one method per critical
    section.  A response channel is known by the number of the Queue call that made it. */
module ApprovalQueue {
  import opened Text
  import opened AllowRules

  class Queue {
    var pending: map<string, nat>
    var allowRules: seq<Rule>

    constructor ()
      ensures pending == map[] && allowRules == []
    {
      pending := map[];
      allowRules := [];
    }

    method AddTemporaryAllow(command: string, expiresAt: int, deviceId: string)
      modifies this`allowRules
      ensures allowRules == Grant(old(allowRules), Rule(command, expiresAt, deviceId))
    {
      var rule := Rule(command, expiresAt, deviceId);
      assert allowRules[0..] == allowRules;
      for i := 0 to |allowRules|
        invariant allowRules == old(allowRules)
        invariant Grant(allowRules, rule) == allowRules[..i] + Grant(allowRules[i..], rule)
      {
        if allowRules[i].command == command {
          Overwritten(allowRules, i, rule);
          allowRules := allowRules[i := allowRules[i].(expiresAt := expiresAt)];
          allowRules := allowRules[i := allowRules[i].(deviceId := deviceId)];
          return;
        }
        Skipped(allowRules, i, rule);
      }
      allowRules := allowRules + [rule];
    }

    method CheckTemporaryAllow(command: string, now: int) returns (matched: Option<Rule>)
      modifies this`allowRules
      ensures allowRules == Alive(old(allowRules), now)
      ensures matched == First(Alive(old(allowRules), now), command)
    {
      var active: seq<Rule> := [];
      matched := None;
      for i := 0 to |allowRules|
        invariant allowRules == old(allowRules)
        invariant active == Alive(allowRules[..i], now)
        invariant matched == First(active, command)
      {
        assert allowRules[..i + 1][..i] == allowRules[..i];
        var rule := allowRules[i];
        if rule.expiresAt > now {
          FirstSnoc(active, rule, command);
          active := active + [rule];
          if rule.command == command && matched.None? {
            matched := Some(rule);
          }
        }
      }
      assert allowRules[..|allowRules|] == allowRules;
      allowRules := active;
    }

    method CleanExpiredRules(now: int) returns (removed: nat)
      modifies this`allowRules
      ensures allowRules == Alive(old(allowRules), now)
      ensures removed == |old(allowRules)| - |allowRules|
    {
      var active: seq<Rule> := [];
      removed := 0;
      for i := 0 to |allowRules|
        invariant allowRules == old(allowRules)
        invariant active == Alive(allowRules[..i], now) && removed == i - |active|
      {
        assert allowRules[..i + 1][..i] == allowRules[..i];
        if allowRules[i].expiresAt > now {
          active := active + [allowRules[i]];
        } else {
          removed := removed + 1;
        }
      }
      assert allowRules[..|allowRules|] == allowRules;
      allowRules := active;
    }

    /** Queue's second critical section; false for a request id that is already pending. */
    method Register(requestId: string, channel: nat) returns (ok: bool)
      modifies this`pending
      ensures ok == (requestId !in old(pending))
      ensures pending == if ok then old(pending)[requestId := channel] else old(pending)
    {
      if requestId in pending {
        return false;
      }
      pending := pending[requestId := channel];
      ok := true;
    }

    /** Queue's cleanup, and Cancel. */
    method Forget(requestId: string)
      modifies this`pending
      ensures pending == old(pending) - {requestId}
    {
      if requestId in pending {
        pending := pending - {requestId};
      }
    }

    /** DecideWithDevice's first critical section: the channel to answer, taken out. */
    method TakePending(requestId: string) returns (channel: Option<nat>)
      modifies this`pending
      ensures channel == if requestId in old(pending) then Some(old(pending)[requestId]) else None
      ensures pending == old(pending) - {requestId}
    {
      if requestId !in pending {
        return None;
      }
      channel := Some(pending[requestId]);
      pending := pending - {requestId};
    }
  }

  lemma Overwritten(rules: seq<Rule>, i: nat, rule: Rule)
    requires i < |rules| && rules[i].command == rule.command
    requires Grant(rules, rule) == rules[..i] + Grant(rules[i..], rule)
    ensures Grant(rules, rule) == rules[i := rule]
  {
    assert Grant(rules[i..], rule) == [rule] + rules[i + 1..];
  }

  lemma Skipped(rules: seq<Rule>, i: nat, rule: Rule)
    requires i < |rules| && rules[i].command != rule.command
    ensures rules[..i] + Grant(rules[i..], rule) == rules[..i + 1] + Grant(rules[i + 1..], rule)
  {
    assert rules[i..][1..] == rules[i + 1..];
    assert rules[..i] + [rules[i]] == rules[..i + 1];
    Assoc(rules[..i], [rules[i]], Grant(rules[i + 1..], rule));
  }

  lemma {:induction false} FirstSnoc(rules: seq<Rule>, rule: Rule, command: string)
    ensures First(rules + [rule], command) ==
            if First(rules, command).Some? then First(rules, command)
            else if rule.command == command then Some(rule) else None
  {
    if rules != [] {
      assert (rules + [rule])[1..] == rules[1..] + [rule];
      FirstSnoc(rules[1..], rule, command);
    }
  }
}
