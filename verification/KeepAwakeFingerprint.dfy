/** Request fingerprints: host/internal/server/server_types.go hashes the fields of a request
    with a NUL between them, without lengths or escapes.  When the hashed bytes tell two
    requests apart, exactly, and when they do not. */
module KeepAwakeFingerprint {
  import opened Text
  import opened KeepAwakeState

  const NUL := '\0'

  /** The loop of computeFingerprint, up to the hash. */
  method ComputeFingerprint(fields: seq<string>) returns (digested: string)
    ensures digested == NulJoined(fields)
  {
    digested := "";
    for i := 0 to |fields|
      invariant digested == NulJoined(fields[..i])
    {
      assert fields[..i + 1] == fields[..i] + [fields[i]];
      NulJoinedSnoc(fields[..i], fields[i]);
      if i > 0 {
        digested := digested + "\0";
      }
      digested := digested + fields[i];
    }
    assert fields[..|fields|] == fields;
  }

  lemma {:induction false} NulJoinedSnoc(fields: seq<string>, last: string)
    ensures NulJoined(fields + [last]) == if fields == [] then last else NulJoined(fields) + "\0" + last
  {
    if fields == [] {
      assert fields + [last] == [last];
    } else {
      assert (fields + [last])[1..] == fields[1..] + [last] && (fields + [last])[0] == fields[0];
      NulJoinedSnoc(fields[1..], last);
      if |fields| > 1 {
        var head, rest := fields[0] + "\0", NulJoined(fields[1..]);
        Assoc(head, rest, "\0");
        Assoc(head, rest + "\0", last);
      } else {
        assert fields[1..] == [];
      }
    }
  }

  // ---------------------------------------------------------------------------
  // Lists of fields
  // ---------------------------------------------------------------------------

  predicate NulFree(s: string) {
    NUL !in s
  }

  /** One text cut at two NULs: the longer head holds the shorter one, and a NUL. */
  lemma CutTwice(a: string, b: string, c: string, d: string)
    requires a + "\0" + b == c + "\0" + d && |a| < |c|
    ensures c == a + "\0" + c[|a| + 1..] && b == c[|a| + 1..] + "\0" + d && c[|a|] == NUL
  {
    var s := a + "\0" + b;
    assert s == c + "\0" + d;
    assert s[..|a|] == a && s[|a|] == NUL && s[|a| + 1..] == b;
    assert c == s[..|c|];
    assert c[..|a|] == a && c[|a|] == NUL;
    assert b == s[|a| + 1..|c|] + s[|c|..];
    assert s[|c|..] == "\0" + d;
    assert c[|a| + 1..] == s[|a| + 1..|c|];
  }

  lemma CutOnce(a: string, b: string, c: string, d: string)
    requires a + "\0" + b == c + "\0" + d && |a| == |c|
    ensures a == c && b == d
  {
    var s := a + "\0" + b;
    assert s == c + "\0" + d;
    assert s[..|a|] == a && s[..|c|] == c && s[|a| + 1..] == b && s[|c| + 1..] == d;
  }

  predicate AllNulFree(fields: seq<string>) {
    forall i :: 0 <= i < |fields| ==> NulFree(fields[i])
  }

  function Nuls(s: string): nat {
    if s == "" then 0 else (if s[0] == NUL then 1 else 0) + Nuls(s[1..])
  }

  lemma {:induction false} NulsAppend(a: string, b: string)
    ensures Nuls(a + b) == Nuls(a) + Nuls(b)
  {
    if a == "" {
      assert a + b == b;
    } else {
      NulsAppend(a[1..], b);
      assert (a + b)[1..] == a[1..] + b;
    }
  }

  lemma {:induction false} NulFreeCount(s: string)
    requires NulFree(s)
    ensures Nuls(s) == 0
  {
    if s != "" {
      NulFreeCount(s[1..]);
    }
  }

  lemma {:induction false} NulCount(fields: seq<string>)
    requires AllNulFree(fields) && fields != []
    ensures Nuls(NulJoined(fields)) == |fields| - 1
  {
    NulFreeCount(fields[0]);
    if |fields| > 1 {
      NulCount(fields[1..]);
      JoinedNuls(fields[0], NulJoined(fields[1..]));
    }
  }

  lemma {:induction false} NulCountAtLeast(fields: seq<string>)
    requires fields != []
    ensures Nuls(NulJoined(fields)) >= |fields| - 1
  {
    if |fields| > 1 {
      NulCountAtLeast(fields[1..]);
      JoinedNuls(fields[0], NulJoined(fields[1..]));
    }
  }

  lemma {:induction false} NoNulsIsNulFree(s: string)
    requires Nuls(s) == 0
    ensures NulFree(s)
  {
    if s != "" {
      NoNulsIsNulFree(s[1..]);
      assert s == [s[0]] + s[1..];
    }
  }

  /** Two heads without a NUL end at the same, first one. */
  lemma CleanHeads(a: string, b: string, c: string, d: string)
    requires NulFree(a) && NulFree(c) && a + "\0" + b == c + "\0" + d
    ensures a == c && b == d
  {
    if |a| < |c| {
      CutTwice(a, b, c, d);
      assert false;
    } else if |c| < |a| {
      CutTwice(c, d, a, b);
      assert false;
    } else {
      CutOnce(a, b, c, d);
    }
  }

  lemma JoinedNuls(head: string, rest: string)
    ensures Nuls(head + "\0" + rest) == Nuls(head) + 1 + Nuls(rest)
  {
    NulsAppend(head + "\0", rest);
    NulsAppend(head, "\0");
    assert Nuls("\0") == 1;
  }

  /** Fields without a NUL are read back from the joined bytes. */
  lemma {:induction false} NulFreeFieldsRead(fields: seq<string>, other: seq<string>)
    requires AllNulFree(fields) && |fields| == |other| && NulJoined(fields) == NulJoined(other)
    ensures fields == other
    decreases |fields|
  {
    if |fields| > 1 {
      var b, d := NulJoined(fields[1..]), NulJoined(other[1..]);
      NulCount(fields);
      NulCountAtLeast(other[1..]);
      JoinedNuls(other[0], d);
      NoNulsIsNulFree(other[0]);
      assert NulFree(fields[0]);
      CleanHeads(fields[0], b, other[0], d);
      NulFreeFieldsRead(fields[1..], other[1..]);
      assert fields == [fields[0]] + fields[1..] && other == [other[0]] + other[1..];
    } else if |fields| == 1 {
      assert fields == [fields[0]] && other == [other[0]];
    }
  }

  /** A field with a NUL can share the bytes of another list: one of its neighbours takes
      over a part of it. */
  lemma {:induction false} NulMovesBytes(fields: seq<string>, i: nat) returns (other: seq<string>)
    requires |fields| > 1 && i < |fields| && !NulFree(fields[i])
    ensures |other| == |fields| && other != fields && NulJoined(other) == NulJoined(fields)
    decreases |fields|
  {
    if i == 0 {
      var n :| 0 <= n < |fields[0]| && fields[0][n] == NUL;
      var x, y, rest := fields[0][..n], fields[0][n + 1..], fields[1..];
      other := [x, y + "\0" + rest[0]] + rest[1..];
      assert fields[0] == x + "\0" + y;
      FirstTwo(x, y, rest);
      assert fields == [x + "\0" + y] + rest;
      assert other[0] == x && |x| < |fields[0]|;
    } else if |fields| == 2 {
      var n :| 0 <= n < |fields[1]| && fields[1][n] == NUL;
      var x, y := fields[1][..n], fields[1][n + 1..];
      other := [fields[0] + "\0" + x, y];
      assert fields[1] == x + "\0" + y && fields == [fields[0], fields[1]];
      assert fields[1..] == [fields[1]] && other[1..] == [y];
      assert NulJoined(fields) == fields[0] + "\0" + (x + "\0" + y);
      assert NulJoined(other) == fields[0] + "\0" + x + "\0" + y;
      assert |other[0]| > |fields[0]|;
    } else {
      var tail := NulMovesBytes(fields[1..], i - 1);
      other := [fields[0]] + tail;
      assert other[1..] == tail;
    }
  }

  /** A NUL between two texts cuts the same wherever the fields end. */
  lemma FirstTwo(x: string, y: string, rest: seq<string>)
    requires rest != []
    ensures NulJoined([x, y + "\0" + rest[0]] + rest[1..]) == NulJoined([x + "\0" + y] + rest)
  {
    var second := [y + "\0" + rest[0]] + rest[1..];
    assert ([x, y + "\0" + rest[0]] + rest[1..])[1..] == second;
    assert ([x + "\0" + y] + rest)[1..] == rest;
    SecondJoined(y, rest);
    hide NulJoined;
    Assoc(x + "\0", y + "\0", NulJoined(rest));
    Assoc(x + "\0", y, "\0");
  }

  lemma SecondJoined(y: string, rest: seq<string>)
    requires rest != []
    ensures NulJoined([y + "\0" + rest[0]] + rest[1..]) == y + "\0" + NulJoined(rest)
  {
    var second := [y + "\0" + rest[0]] + rest[1..];
    assert second[1..] == rest[1..];
    if |rest| > 1 {
      Assoc(y + "\0", rest[0] + "\0", NulJoined(rest[1..]));
      Assoc(y + "\0", rest[0], "\0");
    }
  }
}
