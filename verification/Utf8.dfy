/** sanitizeUTF8 of host/internal/pty/session.go: bytes that are not UTF-8 become
    replacement characters, one chunk of terminal output at a time.  When the cut between
    two chunks does not matter. */
module Utf8 {
  import opened Text

  /** U+FFFD, as bytes. */
  const REPLACEMENT: string := "\U{EF}\U{BF}\U{BD}"

  /** The length of a rune by its first byte; 0 for a byte no rune starts with. */
  function Size(lead: char): (n: nat)
    ensures n <= 4
  {
    var b := lead as int;
    if b < 0x80 then 1
    else if 0xC2 <= b <= 0xDF then 2
    else if 0xE0 <= b <= 0xEF then 3
    else if 0xF0 <= b <= 0xF4 then 4
    else 0
  }

  predicate Continues(c: char) {
    0x80 <= c as int <= 0xBF
  }

  /** Section 3 of RFC 3629: the second byte excludes overlong forms, surrogates and code
      points past U+10FFFF. */
  predicate SecondOk(lead: char, c: char) {
    && Continues(c)
    && (lead as int == 0xE0 ==> c as int >= 0xA0)
    && (lead as int == 0xED ==> c as int <= 0x9F)
    && (lead as int == 0xF0 ==> c as int >= 0x90)
    && (lead as int == 0xF4 ==> c as int <= 0x8F)
  }

  /** The length of the rune the text starts with; 0 if it starts with none. */
  function RuneLength(s: string): (n: nat)
    ensures n <= 4 && n <= |s|
  {
    if s == "" then 0
    else
      var n := Size(s[0]);
      if && n <= |s|
         && (n >= 2 ==> SecondOk(s[0], s[1]))
         && (n >= 3 ==> Continues(s[2]))
         && (n >= 4 ==> Continues(s[3]))
      then n else 0
  }

  predicate Valid(s: string)
    decreases |s|
  {
    s == "" || (RuneLength(s) > 0 && Valid(s[RuneLength(s)..]))
  }

  function Sanitize(s: string): (r: string)
    ensures s != "" ==> r != ""
    decreases |s|
  {
    if s == "" then ""
    else if RuneLength(s) == 0 then REPLACEMENT + Sanitize(s[1..])
    else s[..RuneLength(s)] + Sanitize(s[RuneLength(s)..])
  }

  lemma {:induction false} ValidUnchanged(s: string)
    requires Valid(s)
    ensures Sanitize(s) == s
    decreases |s|
  {
    if s != "" {
      ValidUnchanged(s[RuneLength(s)..]);
    }
  }

  method SanitizeUTF8(s: string) returns (result: string)
    ensures result == Sanitize(s)
  {
    if Valid(s) {
      ValidUnchanged(s);
      return s;
    }
    var rest := s;
    result := "";
    while rest != ""
      invariant result + Sanitize(rest) == Sanitize(s)
      decreases |rest|
    {
      var n := RuneLength(rest);
      var size := if n == 0 then 1 else n;
      var rune := if n == 0 then REPLACEMENT else rest[..n];
      Assoc(result, rune, Sanitize(rest[size..]));
      result := result + rune;
      rest := rest[size..];
    }
  }

  // ---------------------------------------------------------------------------
  // Cuts
  // ---------------------------------------------------------------------------

  /** Some rune of the whole text starts in a and ends in b. */
  predicate SplitsRune(a: string, b: string) {
    exists k :: 0 <= k < |a| && RuneLength((a + b)[k..]) > |a| - k
  }

  /** A rune is the same whatever follows it. */
  lemma RuneOfPrefix(a: string, b: string)
    ensures RuneLength(a + b) == 0 ==> RuneLength(a) == 0
    ensures 0 < RuneLength(a + b) <= |a| ==> RuneLength(a) == RuneLength(a + b)
    ensures RuneLength(a + b) > |a| ==> RuneLength(a) == 0
  {
    if a != "" {
      assert (a + b)[0] == a[0];
      assert forall i :: 0 <= i < |a| ==> (a + b)[i] == a[i];
    }
  }

  /** No rune starts inside another one. */
  lemma InsideRune(s: string, i: nat)
    requires 0 < i < RuneLength(s)
    ensures Continues(s[i]) && RuneLength(s[i..]) == 0
  {
    assert s[i..][0] == s[i];
  }

  /** Bytes that only continue a rune are replaced one by one. */
  lemma {:induction false} LooseBytes(s: string, n: nat)
    requires n <= |s| && forall i :: 0 <= i < n ==> Continues(s[i])
    ensures |Sanitize(s)| == 3 * n + |Sanitize(s[n..])|
    decreases n
  {
    if n == 0 {
      assert s[0..] == s;
    } else {
      assert RuneLength(s) == 0;
      assert forall i :: 0 <= i < n - 1 ==> s[1..][i] == s[i + 1];
      LooseBytes(s[1..], n - 1);
      assert s[1..][n - 1..] == s[n..];
    }
  }

  lemma SplitsLater(a: string, b: string, n: nat)
    requires n <= |a| && (n == 0 || RuneLength(a + b) == n || (n == 1 && RuneLength(a + b) == 0))
    ensures SplitsRune(a, b) <==> SplitsRune(a[n..], b)
  {
    var whole := a + b;
    assert a[n..] + b == whole[n..];
    if k :| 0 <= k < |a| && RuneLength(whole[k..]) > |a| - k {
      if k < n {
        assert whole[0..] == whole;
        if k > 0 {
          InsideRune(whole, k);
        }
      } else {
        assert whole[n..][k - n..] == whole[k..];
      }
    }
    if k :| 0 <= k < |a[n..]| && RuneLength((a[n..] + b)[k..]) > |a[n..]| - k {
      assert whole[n..][k..] == whole[n + k..];
    }
  }

  lemma SplitTails(a: string, b: string)
    requires RuneLength(a + b) > |a| > 0
    ensures forall i :: 0 <= i < |a| - 1 ==> Continues(a[1..][i])
    ensures forall i :: 0 <= i < RuneLength(a + b) - |a| ==> Continues(b[i])
  {
    forall i | 0 < i < RuneLength(a + b)
      ensures Continues((a + b)[i])
    {
      InsideRune(a + b, i);
    }
    assert forall i :: 0 <= i < |b| ==> (a + b)[|a| + i] == b[i];
  }

  /** A rune across the cut is lost, and leaves a longer text. */
  lemma SplitGrows(a: string, b: string)
    requires RuneLength(a + b) > |a| > 0
    ensures |Sanitize(a)| + |Sanitize(b)| > |Sanitize(a + b)|
  {
    var whole, n := a + b, RuneLength(a + b);
    RuneOfPrefix(a, b);
    SplitTails(a, b);
    hide RuneLength, Continues;
    LooseBytes(a[1..], |a| - 1);
    LooseBytes(b, n - |a|);
    assert a[1..][|a| - 1..] == "";
    assert whole[n..] == b[n - |a|..];
    assert |Sanitize(a)| == 3 + |Sanitize(a[1..])|;
    assert |Sanitize(whole)| == n + |Sanitize(whole[n..])|;
  }

  lemma SplitsHere(a: string, b: string)
    requires RuneLength(a + b) > |a| > 0
    ensures SplitsRune(a, b)
  {
    assert (a + b)[0..] == a + b;
  }

  /** The exact condition: sanitizing two chunks apart is sanitizing them together if and
      only if no rune is cut in two; a cut one makes the result longer. */
  lemma {:induction false} SanitizeSplit(a: string, b: string)
    ensures Sanitize(a) + Sanitize(b) == Sanitize(a + b) <==> !SplitsRune(a, b)
    ensures |Sanitize(a)| + |Sanitize(b)| >= |Sanitize(a + b)|
    ensures SplitsRune(a, b) ==> |Sanitize(a)| + |Sanitize(b)| > |Sanitize(a + b)|
    decreases |a|
  {
    hide SplitsRune, RuneLength;
    if a == "" {
      assert a + b == b;
      NoSplit(b);
    } else {
      var n := RuneLength(a + b);
      RuneOfPrefix(a, b);
      if n > |a| {
        SplitGrows(a, b);
        SplitsHere(a, b);
        assert |Sanitize(a) + Sanitize(b)| != |Sanitize(a + b)|;
      } else {
        var size := if n == 0 then 1 else n;
        var rune := if n == 0 then REPLACEMENT else a[..n];
        assert (a + b)[size..] == a[size..] + b && (a + b)[..size] == a[..size];
        SanitizeSplit(a[size..], b);
        SplitsLater(a, b, size);
        HeadTaken(a, b, rune, a[size..]);
      }
    }
  }

  lemma NoSplit(b: string)
    ensures !SplitsRune("", b)
  {
  }

  lemma HeadTaken(a: string, b: string, rune: string, rest: string)
    requires Sanitize(a) == rune + Sanitize(rest) && Sanitize(a + b) == rune + Sanitize(rest + b)
    ensures Sanitize(a) + Sanitize(b) == Sanitize(a + b) <==> Sanitize(rest) + Sanitize(b) == Sanitize(rest + b)
    ensures |Sanitize(a + b)| - |Sanitize(a)| == |Sanitize(rest + b)| - |Sanitize(rest)|
  {
    hide Sanitize;
    var x, y := Sanitize(rest) + Sanitize(b), Sanitize(rest + b);
    Assoc(rune, Sanitize(rest), Sanitize(b));
    if rune + x == rune + y {
      assert (rune + x)[|rune|..] == x && (rune + y)[|rune|..] == y;
    }
  }
}
