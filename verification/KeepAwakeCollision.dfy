/** Exactly which keep-awake requests share their fingerprint with another one. */
module KeepAwakeCollision {
  import opened Text
  import opened Decimal
  import opened KeepAwakeState
  import opened KeepAwakeTable
  import opened KeepAwakeFingerprint

  // ---------------------------------------------------------------------------
  // White space
  // ---------------------------------------------------------------------------

  lemma {:induction false} TrimLeftKeeps(s: string)
    ensures TrimLeft(s) == "" <==> forall i :: 0 <= i < |s| ==> IsSpace(s[i])
    ensures TrimLeft(s) == "" || (!IsSpace(TrimLeft(s)[0]) && TrimLeft(s)[|TrimLeft(s)| - 1] == s[|s| - 1])
    ensures TrimLeft(s) == s <==> s == "" || !IsSpace(s[0])
    ensures |TrimLeft(s)| <= |s|
  {
    if s != "" && IsSpace(s[0]) {
      TrimLeftKeeps(s[1..]);
      assert forall i :: 1 <= i < |s| ==> s[i] == s[1..][i - 1];
    }
  }

  lemma {:induction false} TrimRightKeeps(s: string)
    ensures s != "" && !IsSpace(s[0]) ==> TrimRight(s) != "" && TrimRight(s)[0] == s[0]
    ensures TrimRight(s) == s <==> s == "" || !IsSpace(s[|s| - 1])
    ensures |TrimRight(s)| <= |s|
  {
    if s != "" && IsSpace(s[|s| - 1]) {
      TrimRightKeeps(s[..|s| - 1]);
    }
  }

  predicate Blank(s: string) {
    forall i :: 0 <= i < |s| ==> IsSpace(s[i])
  }

  lemma BlankExactly(s: string)
    ensures Trim(s) == "" <==> Blank(s)
  {
    TrimLeftKeeps(s);
    TrimRightKeeps(TrimLeft(s));
  }

  predicate Tight(s: string) {
    s == "" || (!IsSpace(s[0]) && !IsSpace(s[|s| - 1]))
  }

  lemma TightExactly(s: string)
    ensures Trim(s) == s <==> Tight(s)
  {
    TrimLeftKeeps(s);
    TrimRightKeeps(TrimLeft(s));
  }

  // ---------------------------------------------------------------------------
  // Session, lease and reason between two NULs
  // ---------------------------------------------------------------------------

  function Core(a: string, b: string, c: string): string {
    a + "\0" + (b + "\0" + c)
  }

  /** A NUL in the session with something before it. */
  predicate CutsSession(session: string) {
    exists i :: 0 <= i < |session| && session[i] == NUL && !Blank(session[..i])
  }

  /** A NUL in the lease id with something after it, or at its end with something before. */
  predicate CutsLease(lease: string) {
    exists i :: 0 <= i < |lease| && lease[i] == NUL && (!Blank(lease[i + 1..]) || (i + 1 == |lease| && !Blank(lease[..i])))
  }

  /** A NUL in the reason that is not followed by white space. */
  predicate CutsReason(reason: string) {
    exists i :: 0 <= i < |reason| && reason[i] == NUL && (i + 1 == |reason| || !IsSpace(reason[i + 1]))
  }

  lemma SessionCut(session: string, head: string, tail: string)
    requires session == head + "\0" + tail && !Blank(head)
    ensures CutsSession(session)
  {
    assert session[|head|] == NUL && session[..|head|] == head;
  }

  lemma LeaseCut(lease: string, head: string, tail: string)
    requires lease == head + "\0" + tail && (!Blank(tail) || (tail == "" && !Blank(head)))
    ensures CutsLease(lease)
  {
    assert lease[|head|] == NUL && lease[..|head|] == head && lease[|head| + 1..] == tail;
  }

  lemma ReasonCut(reason: string, head: string, tail: string)
    requires reason == head + "\0" + tail && Tight(tail)
    ensures CutsReason(reason)
  {
    assert reason[|head|] == NUL && reason[|head| + 1..] == tail;
    assert tail != "" ==> reason[|head| + 1] == tail[0];
  }

  /** The second text of a cut starts the longer one off. */
  lemma TightHead(m: string, rest: string)
    requires Tight(m + "\0" + rest)
    ensures m == "" || !Blank(m)
  {
    assert m != "" ==> (m + "\0" + rest)[0] == m[0];
  }

  /** Equal bytes with other fields: one of the fields has a NUL in a telling place. */
  lemma CoreCut(s: string, l: string, r: string, s2: string, l2: string, r2: string)
    requires Core(s, l, r) == Core(s2, l2, r2)
    requires !Blank(s2) && !Blank(l2) && Tight(r2)
    ensures (s == s2 && l == l2 && r == r2) || CutsSession(s) || CutsLease(l) || CutsReason(r)
  {
    hide CutsSession, CutsLease, CutsReason, Blank, Tight;
    var rest, rest2 := l + "\0" + r, l2 + "\0" + r2;
    if |s2| < |s| {
      CutTwice(s2, rest2, s, rest);
      SessionCut(s, s2, s[|s2| + 1..]);
    } else if |s| == |s2| {
      CutOnce(s, rest, s2, rest2);
      SameSession(l, r, l2, r2);
    } else {
      CutTwice(s, rest, s2, rest2);
      LongerSession(l, r, s2[|s| + 1..], l2, r2);
    }
  }

  lemma SameSession(l: string, r: string, l2: string, r2: string)
    requires l + "\0" + r == l2 + "\0" + r2 && !Blank(l2) && Tight(r2)
    ensures (l == l2 && r == r2) || CutsLease(l) || CutsReason(r)
  {
    hide CutsLease, CutsReason, Blank, Tight;
    if |l| < |l2| {
      CutTwice(l, r, l2, r2);
      ReasonCut(r, l2[|l| + 1..], r2);
    } else if |l2| < |l| {
      CutTwice(l2, r2, l, r);
      TightHead(l[|l2| + 1..], r);
      LeaseCut(l, l2, l[|l2| + 1..]);
    } else {
      CutOnce(l, r, l2, r2);
    }
  }

  lemma LongerSession(l: string, r: string, m: string, l2: string, r2: string)
    requires l + "\0" + r == m + "\0" + (l2 + "\0" + r2) && !Blank(l2) && Tight(r2)
    ensures CutsLease(l) || CutsReason(r)
  {
    hide CutsLease, CutsReason, Blank, Tight;
    if |m| == |l| {
      CutOnce(l, r, m, l2 + "\0" + r2);
      ReasonCut(r, l2, r2);
    } else if |l| < |m| {
      CutTwice(l, r, m, l2 + "\0" + r2);
      var k := m[|l| + 1..];
      Assoc(k + "\0", l2 + "\0", r2);
      Assoc(k + "\0", l2, "\0");
      ReasonCut(r, k + "\0" + l2, r2);
    } else {
      CutTwice(m, l2 + "\0" + r2, l, r);
      LeaseTail(l, m, l[|m| + 1..], r, l2, r2);
    }
  }

  lemma LeaseTail(l: string, m: string, k: string, r: string, l2: string, r2: string)
    requires l == m + "\0" + k && l2 + "\0" + r2 == k + "\0" + r && !Blank(l2) && Tight(r2)
    ensures CutsLease(l) || CutsReason(r)
  {
    hide CutsLease, CutsReason, Tight;
    if |k| < |l2| {
      CutTwice(k, r, l2, r2);
      ReasonCut(r, l2[|k| + 1..], r2);
    } else {
      assert !Blank(k) by {
        if |k| == |l2| {
          CutOnce(l2, r2, k, r);
        } else {
          CutTwice(l2, r2, k, r);
          BlankPart(l2, "\0" + k[|l2| + 1..]);
          Assoc(l2, "\0", k[|l2| + 1..]);
        }
      }
      LeaseCut(l, m, k);
    }
  }

  lemma BlankPart(a: string, b: string)
    ensures Blank(a + b) <==> Blank(a) && Blank(b)
  {
    assert forall i :: 0 <= i < |a| ==> (a + b)[i] == a[i];
    assert forall i :: 0 <= i < |b| ==> (a + b)[|a| + i] == b[i];
  }

  /** And such a NUL always lets the neighbours trade a part of their bytes. */
  lemma CoreMoves(s: string, l: string, r: string) returns (s2: string, l2: string, r2: string)
    requires !Blank(s) && !Blank(l) && Tight(r) && (CutsSession(s) || CutsLease(l) || CutsReason(r))
    ensures !Blank(s2) && !Blank(l2) && Tight(r2) && Core(s2, l2, r2) == Core(s, l, r)
    ensures !(s2 == s && l2 == l && r2 == r)
  {
    if CutsSession(s) {
      var i :| 0 <= i < |s| && s[i] == NUL && !Blank(s[..i]);
      s2, l2, r2 := s[..i], s[i + 1..] + "\0" + l, r;
      assert s == s2 + "\0" + s[i + 1..];
      hide Blank, Tight;
      BlankPart(s[i + 1..] + "\0", l);
      MoveLeft(s2, s[i + 1..], l, r);
    } else if CutsReason(r) {
      var i :| 0 <= i < |r| && r[i] == NUL && (i + 1 == |r| || !IsSpace(r[i + 1]));
      s2, l2, r2 := s, l + "\0" + r[..i], r[i + 1..];
      assert r == r[..i] + "\0" + r2;
      assert Tight(r2);
      hide Blank, Tight;
      BlankPart(l, "\0" + r[..i]);
      Assoc(l, "\0", r[..i]);
      MoveRight(l, r[..i], r2);
    } else {
      s2, l2, r2 := LeaseMoves(s, l, r);
    }
  }

  lemma LeaseMoves(s: string, l: string, r: string) returns (s2: string, l2: string, r2: string)
    requires !Blank(s) && !Blank(l) && Tight(r) && CutsLease(l)
    ensures !Blank(s2) && !Blank(l2) && Tight(r2) && Core(s2, l2, r2) == Core(s, l, r)
    ensures !(s2 == s && l2 == l && r2 == r)
  {
    var i :| 0 <= i < |l| && l[i] == NUL && (!Blank(l[i + 1..]) || (i + 1 == |l| && !Blank(l[..i])));
    var head, tail := l[..i], l[i + 1..];
    assert l == head + "\0" + tail;
    if !Blank(tail) {
      s2, l2, r2 := s + "\0" + head, tail, r;
      hide Blank, Tight;
      BlankPart(s, "\0" + head);
      Assoc(s, "\0", head);
      MoveLeft(s, head, tail, r);
    } else {
      s2, l2, r2 := s, head, "\0" + r;
      assert tail == "" && l == head + "\0";
      assert Tight(r2);
      hide Blank, Tight;
      Assoc(head, "\0", "\0" + r);
      Assoc(head + "\0", "\0", r);
    }
  }

  lemma MoveLeft(a: string, b: string, c: string, d: string)
    ensures Core(a, b + "\0" + c, d) == Core(a + "\0" + b, c, d)
  {
    Assoc(b + "\0", c, "\0" + d);
    Assoc(c, "\0", d);
    Assoc(a + "\0", b + "\0", c + "\0" + d);
    Assoc(a + "\0", b, "\0");
    Assoc(b + "\0" + c, "\0", d);
  }

  lemma MoveRight(b: string, c: string, d: string)
    ensures (b + "\0" + c) + "\0" + d == b + "\0" + (c + "\0" + d)
  {
    Assoc(b + "\0", c + "\0", d);
    Assoc(b + "\0", c, "\0");
  }

  // ---------------------------------------------------------------------------
  // A duration between two NULs
  // ---------------------------------------------------------------------------

  /** The text is a duration as strconv prints it. */
  predicate IsDuration(s: string) {
    (forall i :: 0 <= i < |s| ==> IsDigit(s[i])) && DurationOk(Value(s)) && s == Itoa(Value(s))
  }

  lemma PrintedDuration(ms: nat)
    requires DurationOk(ms)
    ensures IsDuration(Itoa(ms)) && NulFree(Itoa(ms)) && Value(Itoa(ms)) == ms && !Blank(Itoa(ms))
  {
    ValueOfItoa(ms);
    assert IsDigit(Itoa(ms)[0]);
  }

  predicate SessionHolds(session: string, i: nat, j: nat) {
    && i < j <= |session| && session[i] == NUL && !Blank(session[..i]) && IsDuration(session[i + 1..j])
    && (j == |session| || (session[j] == NUL && (j + 1 == |session| || !IsSpace(session[j + 1]))))
  }

  predicate ReasonHolds(reason: string, i: nat, j: nat) {
    && i < j < |reason| && (i == 0 || reason[i - 1] == NUL) && reason[j] == NUL && IsDuration(reason[i..j])
    && (j + 1 == |reason| || !IsSpace(reason[j + 1]))
  }

  /** A duration stands between NULs in the session id or in the reason. */
  predicate HoldsDuration(session: string, reason: string) {
    || (exists i, j :: 0 <= i < j <= |session| && SessionHolds(session, i, j))
    || (exists i, j :: 0 <= i < j < |reason| && ReasonHolds(reason, i, j))
  }

  /** Equal bytes with other fields, for an enable. */
  lemma DurationCut(s: string, d: string, r: string, s2: string, d2: string, r2: string)
    requires Core(s, d, r) == Core(s2, d2, r2) && IsDuration(d) && IsDuration(d2) && NulFree(d) && NulFree(d2)
    requires !Blank(s2) && Tight(r) && Tight(r2)
    ensures (s == s2 && d == d2 && r == r2) || HoldsDuration(s, r)
  {
    hide HoldsDuration, Blank, Tight, IsDuration;
    var rest, rest2 := d + "\0" + r, d2 + "\0" + r2;
    if |s2| < |s| {
      CutTwice(s2, rest2, s, rest);
      DurationInSession(s, s2, s[|s2| + 1..], d2, r2, d, r);
    } else if |s| == |s2| {
      CutOnce(s, rest, s2, rest2);
      CleanHeads(d, r, d2, r2);
    } else {
      CutTwice(s, rest, s2, rest2);
      DurationInReason(s, s2[|s| + 1..], d, r, d2, r2);
    }
  }

  lemma DurationInSession(s: string, s2: string, m: string, d2: string, r2: string, d: string, r: string)
    requires s == s2 + "\0" + m && d2 + "\0" + r2 == m + "\0" + (d + "\0" + r)
    requires !Blank(s2) && IsDuration(d2) && NulFree(d2) && Tight(r2)
    ensures HoldsDuration(s, r)
  {
    hide Blank, IsDuration;
    var i := |s2|;
    assert s[..i] == s2 && s[i] == NUL && s[i + 1..] == m;
    if |m| < |d2| {
      CutTwice(m, d + "\0" + r, d2, r2);
      assert false;
    } else if |m| == |d2| {
      CutOnce(d2, r2, m, d + "\0" + r);
      assert s[i + 1..|s|] == d2;
      assert SessionHolds(s, i, |s|);
    } else {
      CutTwice(d2, r2, m, d + "\0" + r);
      var k, j := m[|d2| + 1..], i + 1 + |d2|;
      assert s[i + 1..j] == m[..|d2|] == d2 && s[j] == NUL && s[j + 1..] == k;
      assert r2 == k + "\0" + (d + "\0" + r);
      assert k != "" ==> s[j + 1] == k[0] == r2[0];
      assert SessionHolds(s, i, j);
    }
  }

  lemma DurationInReason(s: string, m: string, d: string, r: string, d2: string, r2: string)
    requires d + "\0" + r == m + "\0" + (d2 + "\0" + r2) && NulFree(d) && IsDuration(d2) && Tight(r2)
    ensures HoldsDuration(s, r)
  {
    hide IsDuration;
    if |m| < |d| {
      CutTwice(m, d2 + "\0" + r2, d, r);
      assert false;
    } else if |m| == |d| {
      CutOnce(d, r, m, d2 + "\0" + r2);
      assert r[0..|d2|] == d2 && r[|d2|] == NUL && r[|d2| + 1..] == r2;
      assert r2 != "" ==> r[|d2| + 1] == r2[0];
      NotEmpty(d2);
      assert ReasonHolds(r, 0, |d2|);
    } else {
      CutTwice(d, r, m, d2 + "\0" + r2);
      var k := m[|d| + 1..];
      var i := |k| + 1;
      var j := i + |d2|;
      assert r == k + "\0" + (d2 + "\0" + r2);
      assert r[i - 1] == NUL && r[i..j] == d2 && r[j] == NUL && r[j + 1..] == r2;
      assert r2 != "" ==> r[j + 1] == r2[0];
      NotEmpty(d2);
      assert ReasonHolds(r, i, j);
    }
  }

  lemma NotEmpty(d: string)
    requires IsDuration(d)
    ensures d != ""
  {
  }

  /** And a duration in such a place can be read as the requested one. */
  lemma DurationMoves(s: string, d: string, r: string) returns (s2: string, d2: string, r2: string)
    requires !Blank(s) && IsDuration(d) && Tight(r) && HoldsDuration(s, r)
    ensures !Blank(s2) && IsDuration(d2) && Tight(r2) && Core(s2, d2, r2) == Core(s, d, r) && |s2| != |s|
  {
    if i, j :| 0 <= i < j <= |s| && SessionHolds(s, i, j) {
      s2, d2, r2 := SessionMoves(s, d, r, i, j);
    } else {
      var i, j :| 0 <= i < j < |r| && ReasonHolds(r, i, j);
      s2, d2, r2 := ReasonMoves(s, d, r, i, j);
    }
  }

  lemma SessionMoves(s: string, d: string, r: string, i: nat, j: nat) returns (s2: string, d2: string, r2: string)
    requires IsDuration(d) && Tight(r) && SessionHolds(s, i, j)
    ensures !Blank(s2) && IsDuration(d2) && Tight(r2) && Core(s2, d2, r2) == Core(s, d, r) && |s2| != |s|
  {
    s2, d2 := s[..i], s[i + 1..j];
    TightAfter(d, r);
    if j == |s| {
      r2 := d + "\0" + r;
      hide Tight, Blank, IsDuration;
      CutAtNul(s, i);
      MoveRight(s2, d2, r2);
    } else {
      var k := s[j + 1..];
      r2 := k + "\0" + (d + "\0" + r);
      TightJoin(k, d + "\0" + r);
      hide Tight, Blank, IsDuration;
      CutAtNul(s, i);
      CutAtNul(s[i + 1..], j - i - 1);
      assert s[i + 1..][..j - i - 1] == d2 && s[i + 1..][j - i..] == k;
      MoveRight(s2, d2 + "\0" + k, d + "\0" + r);
      MoveRight(d2, k, d + "\0" + r);
    }
  }

  lemma CutAtNul(s: string, i: nat)
    requires i < |s| && s[i] == NUL
    ensures s == s[..i] + "\0" + s[i + 1..]
  {
  }

  lemma TightJoin(k: string, rest: string)
    requires (k == "" || !IsSpace(k[0])) && Tight(rest) && rest != ""
    ensures Tight(k + "\0" + rest)
  {
    var s := k + "\0" + rest;
    assert s[|s| - 1] == rest[|rest| - 1];
    assert k != "" ==> s[0] == k[0];
  }

  lemma TightAfter(d: string, r: string)
    requires IsDuration(d) && Tight(r)
    ensures Tight(d + "\0" + r)
  {
    NotEmpty(d);
    assert IsDigit(d[0]) && (d + "\0" + r)[0] == d[0];
  }

  lemma ReasonMoves(s: string, d: string, r: string, i: nat, j: nat) returns (s2: string, d2: string, r2: string)
    requires !Blank(s) && IsDuration(d) && Tight(r) && ReasonHolds(r, i, j)
    ensures !Blank(s2) && IsDuration(d2) && Tight(r2) && Core(s2, d2, r2) == Core(s, d, r) && |s2| != |s|
  {
    hide Tight, Blank, IsDuration, ReasonHolds, Core;
    HeldBounds(r, i, j);
    d2, r2 := r[i..j], r[j + 1..];
    var k := if i == 0 then d else d + "\0" + r[..i - 1];
    s2 := s + "\0" + k;
    HeldInReason(d, r, i, j);
    BlankPart(s, "\0");
    BlankPart(s + "\0", k);
    CoreShifts(s, k, d2, r2);
    CoreParts(s, d, r);
  }

  lemma CoreParts(a: string, b: string, c: string)
    ensures Core(a, b, c) == a + "\0" + (b + "\0" + c)
  {
  }

  lemma HeldBounds(r: string, i: nat, j: nat)
    requires Tight(r) && ReasonHolds(r, i, j)
    ensures i < j < |r| && IsDuration(r[i..j]) && Tight(r[j + 1..])
  {
    hide IsDuration, IsSpace;
  }

  lemma CoreShifts(s: string, k: string, d: string, r: string)
    ensures Core(s + "\0" + k, d, r) == s + "\0" + (k + "\0" + (d + "\0" + r))
  {
    MoveRight(s, k, d + "\0" + r);
  }

  lemma HeldInReason(d: string, r: string, i: nat, j: nat)
    requires ReasonHolds(r, i, j)
    ensures d + "\0" + r ==
            (if i == 0 then d else d + "\0" + r[..i - 1]) + "\0" + (r[i..j] + "\0" + r[j + 1..])
  {
    hide IsDuration;
    var held := r[i..j] + "\0" + r[j + 1..];
    assert r[i..][..j - i] == r[i..j] && r[i..][j - i + 1..] == r[j + 1..];
    CutAtNul(r[i..], j - i);
    if i == 0 {
      assert r[0..] == r;
    } else {
      CutAtNul(r, i - 1);
      MoveRight(d, r[..i - 1], held);
    }
  }

  // ---------------------------------------------------------------------------
  // Requests
  // ---------------------------------------------------------------------------

  /** A well-formed request as the parser leaves it, with its reason trimmed. */
  predicate Parsed(r: Request) {
    r.operation in {EnableOp, DisableOp, ExtendOp} && WellFormed(r) && Trim(r.reason) == r.reason
  }

  /** Another request can have the same hashed bytes: a NUL stands where a neighbouring
      field may as well end. */
  predicate Ambiguous(r: Request) {
    if r.operation == EnableOp then HoldsDuration(r.sessionId, r.reason)
    else CutsSession(r.sessionId) || CutsLease(r.leaseId) || CutsReason(r.reason)
  }

  function Duration(r: Request): string {
    Itoa(if r.durationMs >= 0 then r.durationMs else 0)
  }

  lemma Digested(r: Request)
    requires Parsed(r)
    ensures Fingerprint(r) ==
            match r.operation
            case EnableOp => "enable" + "\0" + Core(r.sessionId, Duration(r), r.reason)
            case ExtendOp => "extend" + "\0" + (Core(r.sessionId, r.leaseId, r.reason) + "\0" + Duration(r))
            case _ => "disable" + "\0" + Core(r.sessionId, r.leaseId, r.reason)
  {
    var d := Duration(r);
    match r.operation {
      case EnableOp => ThreeJoined("enable", r.sessionId, d, r.reason);
      case ExtendOp =>
        var fields := ["extend", r.sessionId, r.leaseId, r.reason, d];
        assert fields[..4] + [d] == fields;
        NulJoinedSnoc(fields[..4], d);
        assert fields[..4] == ["extend", r.sessionId, r.leaseId, r.reason];
        ThreeJoined("extend", r.sessionId, r.leaseId, r.reason);
        hide Core, NulJoined;
        Assoc("extend" + "\0", Core(r.sessionId, r.leaseId, r.reason), "\0");
        Assoc("extend" + "\0", Core(r.sessionId, r.leaseId, r.reason) + "\0", d);
      case DisableOp => ThreeJoined("disable", r.sessionId, r.leaseId, r.reason);
    }
  }

  lemma ThreeJoined(op: string, a: string, b: string, c: string)
    ensures NulJoined([op, a, b, c]) == op + "\0" + Core(a, b, c)
  {
    JoinedCons(op, [a, b, c]);
    JoinedCons(a, [b, c]);
    JoinedCons(b, [c]);
    assert NulJoined([c]) == c;
  }

  lemma JoinedCons(head: string, rest: seq<string>)
    requires rest != []
    ensures NulJoined([head] + rest) == head + "\0" + NulJoined(rest)
  {
    assert ([head] + rest)[1..] == rest;
  }

  /** A parsed request with unambiguous fields is told apart from every other one. */
  lemma UnambiguousIsIdentified(r: Request, other: Request)
    requires Parsed(r) && Parsed(other) && r.operation == other.operation && !Ambiguous(r)
    requires Fingerprint(r) == Fingerprint(other)
    ensures Fields(r) == Fields(other)
  {
    Digested(r);
    Digested(other);
    ParsedParts(r);
    ParsedParts(other);
    hide Fingerprint, Core, CutsSession, CutsLease, CutsReason, HoldsDuration, Blank, Tight, IsDuration, Trim;
    match r.operation {
      case EnableOp =>
        CutOnce("enable", Core(r.sessionId, Duration(r), r.reason), "enable", Core(other.sessionId, Duration(other), other.reason));
        DurationCut(r.sessionId, Duration(r), r.reason, other.sessionId, Duration(other), other.reason);
      case DisableOp =>
        CutOnce("disable", Core(r.sessionId, r.leaseId, r.reason), "disable", Core(other.sessionId, other.leaseId, other.reason));
        CoreCut(r.sessionId, r.leaseId, r.reason, other.sessionId, other.leaseId, other.reason);
      case ExtendOp =>
        var a, b := Core(r.sessionId, r.leaseId, r.reason), Core(other.sessionId, other.leaseId, other.reason);
        CutOnce("extend", a + "\0" + Duration(r), "extend", b + "\0" + Duration(other));
        CleanTails(a, Duration(r), b, Duration(other));
        CoreCut(r.sessionId, r.leaseId, r.reason, other.sessionId, other.leaseId, other.reason);
    }
  }

  lemma ParsedParts(r: Request)
    requires Parsed(r)
    ensures !Blank(r.sessionId) && (r.operation != EnableOp ==> !Blank(r.leaseId)) && Tight(r.reason)
    ensures r.operation != DisableOp ==> IsDuration(Duration(r)) && NulFree(Duration(r))
  {
    BlankExactly(r.sessionId);
    BlankExactly(r.leaseId);
    TightExactly(r.reason);
    if r.operation != DisableOp {
      PrintedDuration(r.durationMs);
    }
  }

  lemma CleanTails(a: string, x: string, b: string, y: string)
    requires NulFree(x) && NulFree(y) && a + "\0" + x == b + "\0" + y
    ensures a == b && x == y
  {
    SameTail(a, x, b, y);
    CutOnce(a, x, b, y);
  }

  /** Main result, with the lemma before: for every ambiguous request there is another one
      of the same device under the same request id, equally well-formed, with other fields
      and the same fingerprint; so a request is identified exactly when it is not
      ambiguous.  Both are read with Trim, whose white space is that of ASCII: a moved field
      that begins or ends with the UTF-8 bytes of another space, such as U+0085 or U+00A0,
      would be trimmed as well by strings.TrimSpace. */
  lemma AmbiguousCollides(r: Request) returns (other: Request)
    requires Parsed(r) && Ambiguous(r)
    ensures Parsed(other) && KeyOf(other) == KeyOf(r)
    ensures Fingerprint(other) == Fingerprint(r) && Fields(other) != Fields(r)
  {
    ParsedParts(r);
    hide Parsed, KeyOf, Fields, NulJoined, Core, CutsSession, CutsLease, CutsReason, HoldsDuration, Blank, Tight, IsDuration;
    if r.operation == EnableOp {
      var s, d, reason := DurationMoves(r.sessionId, Duration(r), r.reason);
      other := OtherEnable(r, s, d, reason);
    } else {
      var s, l, reason := CoreMoves(r.sessionId, r.leaseId, r.reason);
      other := OtherChange(r, s, l, reason);
    }
  }

  /** The enable with these parts: equally well-formed, and read as different fields. */
  lemma OtherEnable(r: Request, s: string, d: string, reason: string) returns (other: Request)
    requires Parsed(r) && r.operation == EnableOp
    requires !Blank(s) && IsDuration(d) && Tight(reason) && |s| != |r.sessionId|
    requires Core(s, d, reason) == Core(r.sessionId, Duration(r), r.reason)
    ensures Parsed(other) && KeyOf(other) == KeyOf(r)
    ensures Fingerprint(other) == Fingerprint(r) && Fields(other) != Fields(r)
  {
    other := r.(sessionId := s, durationMs := Value(d), reason := reason);
    BlankExactly(s);
    TightExactly(reason);
    assert Fields(other)[1] != Fields(r)[1];
    hide Blank, Tight, Core, Trim, NulJoined;
    Digested(r);
    Digested(other);
  }

  lemma OtherChange(r: Request, s: string, l: string, reason: string) returns (other: Request)
    requires Parsed(r) && r.operation != EnableOp
    requires !Blank(s) && !Blank(l) && Tight(reason) && !(s == r.sessionId && l == r.leaseId && reason == r.reason)
    requires Core(s, l, reason) == Core(r.sessionId, r.leaseId, r.reason)
    ensures Parsed(other) && KeyOf(other) == KeyOf(r)
    ensures Fingerprint(other) == Fingerprint(r) && Fields(other) != Fields(r)
  {
    other := r.(sessionId := s, leaseId := l, reason := reason);
    BlankExactly(s);
    BlankExactly(l);
    TightExactly(reason);
    assert Fields(other)[1] != Fields(r)[1] || Fields(other)[2] != Fields(r)[2] || Fields(other)[3] != Fields(r)[3];
    hide Blank, Tight, Core, Trim, NulJoined;
    Digested(r);
    Digested(other);
  }
}
