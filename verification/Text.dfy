/** Text as the host handles it: a Go string is a sequence of bytes, so one
    `char` stands for one byte here.  The diff parser, the JSONL tail reader and
    the terminal history all cut text at '\n'; they share these definitions. */
module Text {

  datatype Option<+T> = None | Some(value: T)

  predicate Distinct<T(==)>(s: seq<T>) {
    forall i, j :: 0 <= i < j < |s| ==> s[i] != s[j]
  }

  predicate NoNewline(s: string) {
    '\n' !in s
  }

  predicate Lines(ls: seq<string>) {
    forall i :: 0 <= i < |ls| ==> NoNewline(ls[i])
  }

  /** Position of the first newline, or |s| when there is none. */
  function NewlineAt(s: string): (i: nat)
    ensures i <= |s|
    ensures forall j :: 0 <= j < i ==> s[j] != '\n'
    ensures i < |s| ==> s[i] == '\n'
  {
    if s == "" || s[0] == '\n' then 0 else 1 + NewlineAt(s[1..])
  }

  /** The newline-terminated lines of s, without their newlines. */
  function CompleteLines(s: string): seq<string>
    decreases |s|
  {
    var i := NewlineAt(s);
    if i == |s| then [] else [s[..i]] + CompleteLines(s[i + 1..])
  }

  /** What follows the last newline of s. */
  function Remainder(s: string): string
    decreases |s|
  {
    var i := NewlineAt(s);
    if i == |s| then s else Remainder(s[i + 1..])
  }

  /** The text whose complete lines are ls. */
  function Unlines(ls: seq<string>): string {
    if ls == [] then "" else ls[0] + "\n" + Unlines(ls[1..])
  }

  /** strings.Split(s, "\n"). */
  function Split(s: string): (r: seq<string>)
    ensures |r| > 0
  {
    CompleteLines(s) + [Remainder(s)]
  }

  /** strings.Join(ls, "\n"). */
  function Join(ls: seq<string>): string {
    if |ls| == 0 then "" else Unlines(ls[..|ls| - 1]) + ls[|ls| - 1]
  }

  // strings.TrimSpace, for the white space of ASCII.

  predicate IsSpace(c: char) {
    c == ' ' || '\t' <= c <= '\r'
  }

  function TrimLeft(s: string): string {
    if s != "" && IsSpace(s[0]) then TrimLeft(s[1..]) else s
  }

  function TrimRight(s: string): string {
    if s != "" && IsSpace(s[|s| - 1]) then TrimRight(s[..|s| - 1]) else s
  }

  function Trim(s: string): string {
    TrimRight(TrimLeft(s))
  }

  /** Only space, \t, \n, \v, \f and \r. */
  predicate White(s: string) {
    forall i :: 0 <= i < |s| ==> s[i] as int in {32, 9, 10, 11, 12, 13}
  }

  /** Trim takes all white space off both ends and nothing else. */
  lemma TrimExactly(s: string, t: string)
    ensures t == Trim(s) <==>
            (exists a: nat, b: nat :: a <= b <= |s| && t == s[a..b] && White(s[..a]) && White(s[b..])
              && (t == "" || (!White([t[0]]) && !White([t[|t| - 1]]))))
  {
    hide TrimLeft, TrimRight;
    var a, b := TrimBounds(s);
    assert Trim(s) == s[a..b];
    forall c: nat, d: nat | c <= d <= |s| && White(s[..c]) && White(s[d..])
                            && (c == d || (!White([s[c]]) && !White([s[d - 1]])))
      ensures s[c..d] == s[a..b]
    {
      BoundsUnique(s, a, b, c, d);
    }
  }

  lemma {:induction false} TrimBounds(s: string) returns (a: nat, b: nat)
    ensures a <= b <= |s| && Trim(s) == s[a..b] && White(s[..a]) && White(s[b..])
    ensures a == b || (!White([s[a]]) && !White([s[b - 1]]))
  {
    a := LeftBound(s);
    var n := RightBound(s[a..]);
    b := a + n;
    assert s[a..][..n] == s[a..b] && s[a..][n..] == s[b..];
    if n > 0 {
      assert s[a..][n - 1] == s[b - 1];
    }
  }

  lemma {:induction false} LeftBound(s: string) returns (a: nat)
    ensures a <= |s| && TrimLeft(s) == s[a..] && White(s[..a])
    ensures a == |s| || !White([s[a]])
  {
    a := 0;
    if s != "" && IsSpace(s[0]) {
      var n := LeftBound(s[1..]);
      a := n + 1;
      assert s[1..][n..] == s[a..];
      assert s[..a] == [s[0]] + s[1..][..n];
    } else if s != "" {
      assert [s[0]][0] == s[0];
    }
  }

  lemma {:induction false} RightBound(s: string) returns (b: nat)
    ensures b <= |s| && TrimRight(s) == s[..b] && White(s[b..])
    ensures b == 0 || !White([s[b - 1]])
  {
    b := |s|;
    if s != "" && IsSpace(s[|s| - 1]) {
      var front := s[..|s| - 1];
      b := RightBound(front);
      assert front[..b] == s[..b];
      assert s[b..] == front[b..] + [s[|s| - 1]];
    } else if s != "" {
      assert [s[|s| - 1]][0] == s[|s| - 1];
    }
  }

  lemma BoundsUnique(s: string, a: nat, b: nat, c: nat, d: nat)
    requires a <= b <= |s| && c <= d <= |s|
    requires White(s[..a]) && White(s[b..]) && White(s[..c]) && White(s[d..])
    requires a == b || (!White([s[a]]) && !White([s[b - 1]]))
    requires c == d || (!White([s[c]]) && !White([s[d - 1]]))
    ensures s[c..d] == s[a..b]
  {
    hide White;
    if c < d {
      BetweenWhite(s, a, b, c);
      BetweenWhite(s, a, b, d - 1);
    }
    if a < b {
      BetweenWhite(s, c, d, a);
      BetweenWhite(s, c, d, b - 1);
    }
  }

  /** What is not white lies between the white ends. */
  lemma BetweenWhite(s: string, a: nat, b: nat, k: nat)
    requires a <= b <= |s| && k < |s| && White(s[..a]) && White(s[b..]) && !White([s[k]])
    ensures a <= k < b
  {
    assert forall i :: 0 <= i < a ==> s[..a][i] == s[i];
    assert forall i :: b <= i < |s| ==> s[b..][i - b] == s[i];
  }

  lemma CutAt(l: string, rest: string)
    requires NoNewline(l)
    ensures NewlineAt(l + "\n" + rest) == |l|
    ensures (l + "\n" + rest)[..|l|] == l && (l + "\n" + rest)[|l| + 1..] == rest
  {
    var s := l + "\n" + rest;
    assert s[|l|] == '\n';
    assert forall j :: 0 <= j < |l| ==> s[j] == l[j];
  }

  /** A list of lines followed by an unterminated piece is recovered exactly. */
  lemma {:induction false} LinesOfUnlines(ls: seq<string>, t: string)
    requires Lines(ls) && NoNewline(t)
    ensures CompleteLines(Unlines(ls) + t) == ls
    ensures Remainder(Unlines(ls) + t) == t
  {
    if ls == [] {
      assert Unlines(ls) + t == t;
      assert NewlineAt(t) == |t|;
    } else {
      var rest := Unlines(ls[1..]) + t;
      assert Unlines(ls) + t == ls[0] + "\n" + rest;
      CutAt(ls[0], rest);
      LinesOfUnlines(ls[1..], t);
    }
  }

  lemma {:induction false} LinesAreLines(s: string)
    ensures Lines(CompleteLines(s)) && NoNewline(Remainder(s))
    decreases |s|
  {
    var i := NewlineAt(s);
    if i < |s| {
      LinesAreLines(s[i + 1..]);
      assert NoNewline(s[..i]);
    }
  }

  /** Every text is its complete lines followed by its remainder. */
  lemma {:induction false} UnlinesOfLines(s: string)
    ensures Unlines(CompleteLines(s)) + Remainder(s) == s
    decreases |s|
  {
    var i := NewlineAt(s);
    if i == |s| {
      assert Unlines([]) + s == s;
    } else {
      var rest := s[i + 1..];
      UnlinesOfLines(rest);
      UnlinesCons(s[..i], CompleteLines(rest));
      Assoc(s[..i] + "\n", Unlines(CompleteLines(rest)), Remainder(rest));
      assert s == s[..i] + "\n" + rest;
    }
  }

  lemma Assoc<T>(a: seq<T>, b: seq<T>, c: seq<T>)
    ensures a + b + c == a + (b + c)
  {
  }

  lemma UnlinesCons(l: string, ls: seq<string>)
    ensures Unlines([l] + ls) == l + "\n" + Unlines(ls)
  {
    assert ([l] + ls)[1..] == ls;
  }

  lemma {:induction false} UnlinesAppend(a: seq<string>, b: seq<string>)
    ensures Unlines(a + b) == Unlines(a) + Unlines(b)
  {
    if a == [] {
      assert a + b == b;
    } else {
      UnlinesAppend(a[1..], b);
      assert (a + b)[1..] == a[1..] + b;
    }
  }

  lemma UnlinesSnoc(ls: seq<string>, l: string)
    ensures Unlines(ls + [l]) == Unlines(ls) + l + "\n"
  {
    UnlinesAppend(ls, [l]);
    assert [l] == [l] + [];
    UnlinesCons(l, []);
    Assoc(Unlines(ls), l, "\n");
  }

  /** Cutting at an arbitrary point and carrying the remainder over loses nothing:
      the law behind every incremental line reader of the host. */
  lemma {:induction false} LinesAppend(a: string, b: string)
    ensures CompleteLines(a + b) == CompleteLines(a) + CompleteLines(Remainder(a) + b)
    ensures Remainder(a + b) == Remainder(Remainder(a) + b)
  {
    var m := Remainder(a) + b;
    var la, lm := CompleteLines(a), CompleteLines(m);
    LinesAreLines(a);
    LinesAreLines(m);
    assert Unlines(la + lm) + Remainder(m) == a + b by {
      UnlinesAppend(la, lm);
      UnlinesOfLines(a);
      UnlinesOfLines(m);
      Assoc(Unlines(la), Unlines(lm), Remainder(m));
      Assoc(Unlines(la), Remainder(a), b);
    }
    LinesOfUnlines(la + lm, Remainder(m));
  }

  lemma JoinOfSplit(s: string)
    ensures Lines(Split(s)) && Join(Split(s)) == s
  {
    LinesAreLines(s);
    UnlinesOfLines(s);
    assert Split(s)[..|Split(s)| - 1] == CompleteLines(s);
  }

  lemma SplitOfJoin(ls: seq<string>)
    requires Lines(ls) && |ls| > 0
    ensures Split(Join(ls)) == ls
  {
    LinesOfUnlines(ls[..|ls| - 1], ls[|ls| - 1]);
  }

  /** Prefixing newline-terminated text prepends its lines. */
  lemma SplitAfterLines(ls: seq<string>, s: string)
    requires Lines(ls)
    ensures Split(Unlines(ls) + s) == ls + Split(s)
  {
    LinesOfUnlines(ls, "");
    assert Unlines(ls) + "" == Unlines(ls);
    LinesAppend(Unlines(ls), s);
    assert "" + s == s;
  }

  /** Joining lists of lines with one newline between them. */
  lemma JoinConcat(a: seq<string>, b: seq<string>)
    requires |a| > 0 && |b| > 0
    ensures Join(a + b) == Join(a) + "\n" + Join(b)
  {
    var b' := b[..|b| - 1];
    assert (a + b)[..|a + b| - 1] == a + b';
    UnlinesAppend(a, b');
    assert a == a[..|a| - 1] + [a[|a| - 1]];
    UnlinesAppend(a[..|a| - 1], [a[|a| - 1]]);
    assert Unlines([a[|a| - 1]]) == a[|a| - 1] + "\n";
  }

  lemma FrontAndLast<T>(before: seq<T>, s: seq<T>)
    requires s != []
    ensures before + s[..|s| - 1] + [s[|s| - 1]] == before + s
  {
  }

  // ---------------------------------------------------------------------------
  // Taking lines off a text one at a time
  // ---------------------------------------------------------------------------

  /** done are the first lines of whole, and rest is what follows them. */
  predicate LeftOf(rest: string, done: seq<string>, whole: string) {
    done + CompleteLines(rest) == CompleteLines(whole) && Remainder(rest) == Remainder(whole)
  }

  lemma LeftAtStart(whole: string)
    ensures LeftOf(whole, [], whole)
  {
  }

  lemma LeftAtEnd(rest: string, done: seq<string>, whole: string)
    requires LeftOf(rest, done, whole) && NewlineAt(rest) == |rest|
    ensures done == CompleteLines(whole) && rest == Remainder(whole)
  {
    assert done + [] == done;
  }

  lemma LeftAfterLine(rest: string, done: seq<string>, whole: string)
    requires LeftOf(rest, done, whole) && NewlineAt(rest) < |rest|
    ensures LeftOf(rest[NewlineAt(rest) + 1..], done + [rest[..NewlineAt(rest)]], whole)
  {
    hide LeftOf;
    FirstLineCut(rest);
    RestCut(rest, NewlineAt(rest));
    LineTaken(rest, rest[..NewlineAt(rest)], rest[NewlineAt(rest) + 1..], done, whole);
  }

  lemma LineTaken(rest: string, line: string, after: string, done: seq<string>, whole: string)
    requires LeftOf(rest, done, whole)
    requires CompleteLines(rest) == [line] + CompleteLines(after) && Remainder(rest) == Remainder(after)
    ensures LeftOf(after, done + [line], whole)
  {
    hide CompleteLines, Remainder;
    Assoc(done, [line], CompleteLines(after));
  }

  lemma CutLine(s: string, i: nat)
    requires i < |s| && s[i] == '\n'
    ensures s[..i + 1] == s[..i] + "\n"
  {
  }

  lemma FirstLineCut(rest: string)
    requires NewlineAt(rest) < |rest|
    ensures CompleteLines(rest) == [rest[..NewlineAt(rest)]] + CompleteLines(rest[NewlineAt(rest) + 1..])
  {
    hide NewlineAt;
  }

  lemma RestCut(rest: string, i: nat)
    requires i == NewlineAt(rest) < |rest|
    ensures Remainder(rest) == Remainder(rest[i + 1..])
  {
    hide NewlineAt, CompleteLines;
    var after := rest[i + 1..];
    assert Remainder(rest) == Remainder(after);
  }
}
