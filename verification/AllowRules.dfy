/** Temporary-allow rules of host/internal/server/approval.go: a list pruned lazily that
    stands for "the latest grant of each command". */
module AllowRules {
  import opened Text

  datatype Rule = Rule(command: string, expiresAt: int, deviceId: string)

  function Alive(rules: seq<Rule>, now: int): seq<Rule> {
    if rules == [] then []
    else
      var last := rules[|rules| - 1];
      Alive(rules[..|rules| - 1], now) + if last.expiresAt > now then [last] else []
  }

  function First(rules: seq<Rule>, command: string): Option<Rule> {
    if rules == [] then None
    else if rules[0].command == command then Some(rules[0])
    else First(rules[1..], command)
  }

  /** A rule for the same command is overwritten in place, otherwise appended. */
  function Grant(rules: seq<Rule>, rule: Rule): seq<Rule> {
    if rules == [] then [rule]
    else if rules[0].command == rule.command then [rule] + rules[1..]
    else [rules[0]] + Grant(rules[1..], rule)
  }

  ghost predicate OneEach(rules: seq<Rule>) {
    forall i, j :: 0 <= i < j < |rules| ==> rules[i].command != rules[j].command
  }

  /** The list holds every latest grant that has not expired at clock, and nothing but
      latest grants. */
  ghost predicate Refines(rules: seq<Rule>, grants: map<string, Rule>, clock: int) {
    && OneEach(rules)
    && (forall r :: r in rules ==> r.command in grants && grants[r.command] == r)
    && (forall c :: c in grants ==> grants[c].command == c && (grants[c].expiresAt > clock ==> grants[c] in rules))
  }

  lemma {:induction false} AliveMembers(rules: seq<Rule>, now: int)
    ensures forall r :: r in Alive(rules, now) <==> r in rules && r.expiresAt > now
    ensures |Alive(rules, now)| <= |rules|
  {
    if rules != [] {
      AliveMembers(rules[..|rules| - 1], now);
      assert rules == rules[..|rules| - 1] + [rules[|rules| - 1]];
    }
  }

  lemma {:induction false} AliveOneEach(rules: seq<Rule>, now: int)
    requires OneEach(rules)
    ensures OneEach(Alive(rules, now))
  {
    if rules != [] {
      var front, last := rules[..|rules| - 1], rules[|rules| - 1];
      AliveOneEach(front, now);
      AliveMembers(front, now);
      assert forall r :: r in front ==> r.command != last.command;
      var alive := Alive(front, now);
      assert forall i :: 0 <= i < |alive| ==> alive[i] in alive;
    }
  }

  lemma {:induction false} FirstExact(rules: seq<Rule>, command: string)
    ensures First(rules, command).Some? ==> First(rules, command).value in rules && First(rules, command).value.command == command
    ensures First(rules, command).None? ==> forall r :: r in rules ==> r.command != command
  {
    if rules != [] {
      FirstExact(rules[1..], command);
      assert rules == [rules[0]] + rules[1..];
    }
  }

  lemma {:induction false} GrantMembers(rules: seq<Rule>, rule: Rule)
    requires OneEach(rules)
    ensures forall r :: r in Grant(rules, rule) <==> r == rule || (r in rules && r.command != rule.command)
  {
    if rules != [] {
      var head, tail := rules[0], rules[1..];
      assert rules == [head] + tail;
      assert forall r :: r in tail ==> r.command != head.command;
      GrantMembers(tail, rule);
    }
  }

  lemma {:induction false} GrantOneEach(rules: seq<Rule>, rule: Rule)
    requires OneEach(rules)
    ensures OneEach(Grant(rules, rule))
  {
    if rules != [] && rules[0].command != rule.command {
      var tail := rules[1..];
      GrantOneEach(tail, rule);
      GrantMembers(tail, rule);
      var granted := Grant(tail, rule);
      forall i | 0 <= i < |granted|
        ensures granted[i].command != rules[0].command
      {
        assert granted[i] in granted;
      }
    }
  }

  /** Granting refines the map update. */
  lemma GrantRefines(rules: seq<Rule>, grants: map<string, Rule>, clock: int, rule: Rule)
    requires Refines(rules, grants, clock)
    ensures Refines(Grant(rules, rule), grants[rule.command := rule], clock)
  {
    GrantMembers(rules, rule);
    GrantOneEach(rules, rule);
  }

  /** Pruning at a later time changes nothing that is still observable. */
  lemma AliveRefines(rules: seq<Rule>, grants: map<string, Rule>, clock: int, now: int)
    requires Refines(rules, grants, clock) && clock <= now
    ensures Refines(Alive(rules, now), grants, now)
  {
    AliveMembers(rules, now);
    AliveOneEach(rules, now);
  }

  predicate Active(grants: map<string, Rule>, command: string, now: int) {
    command in grants && grants[command].expiresAt > now
  }

  /** Main result: the lazily pruned list auto-approves a command at a time exactly when the
      command's latest grant expires after that time, and it names that grant. */
  lemma MatchExact(rules: seq<Rule>, grants: map<string, Rule>, clock: int, now: int, command: string)
    requires Refines(rules, grants, clock) && clock <= now
    ensures First(Alive(rules, now), command) == if Active(grants, command, now) then Some(grants[command]) else None
  {
    AliveRefines(rules, grants, clock, now);
    AliveMembers(rules, now);
    FirstExact(Alive(rules, now), command);
  }
}
