/** Searching, trimming and splitting text, as utils.hpp does it. */
module Strings {

  /** The first position of c, or the length of s when there is none. */
  function Find(s: string, c: char): (i: nat)
    ensures i <= |s|
  {
    if s == "" || s[0] == c then 0 else 1 + Find(s[1..], c)
  }

  lemma {:induction false} FindIs(s: string, c: char)
    ensures var i := Find(s, c); c !in s[..i] && (i < |s| ==> s[i] == c)
    decreases |s|
  {
    if s != "" && s[0] != c {
      FindIs(s[1..], c);
      assert s[..Find(s, c)] == [s[0]] + s[1..][..Find(s[1..], c)];
    }
  }

  function TrimLeft(s: string): string {
    if s != "" && s[0] == ' ' then TrimLeft(s[1..]) else s
  }

  function TrimRight(s: string): string {
    if s != "" && s[|s| - 1] == ' ' then TrimRight(s[..|s| - 1]) else s
  }

  function Trim(s: string): string {
    TrimRight(TrimLeft(s))
  }

  function Spaces(n: nat): string {
    seq(n, i => ' ')
  }

  predicate Tight(s: string) {
    s != "" ==> s[0] != ' ' && s[|s| - 1] != ' '
  }

  lemma {:induction false} TrimLeftIs(s: string) returns (m: nat)
    ensures s == Spaces(m) + TrimLeft(s) && (TrimLeft(s) != "" ==> TrimLeft(s)[0] != ' ')
    decreases |s|
  {
    m := 0;
    if s != "" && s[0] == ' ' {
      var k := TrimLeftIs(s[1..]);
      m := k + 1;
      assert s == [' '] + s[1..];
      assert Spaces(m) == [' '] + Spaces(k);
    }
  }

  lemma {:induction false} TrimRightIs(s: string) returns (n: nat)
    ensures s == TrimRight(s) + Spaces(n)
    ensures TrimRight(s) != "" ==> TrimRight(s)[|TrimRight(s)| - 1] != ' ' && TrimRight(s)[0] == s[0]
    decreases |s|
  {
    n := 0;
    if s != "" && s[|s| - 1] == ' ' {
      var k := TrimRightIs(s[..|s| - 1]);
      n := k + 1;
      assert s == s[..|s| - 1] + [' '];
      assert Spaces(n) == Spaces(k) + [' '];
    }
  }

  /** Trimming takes off spaces at both ends and nothing else, and leaves none there. */
  lemma TrimIs(s: string) returns (m: nat, n: nat)
    ensures s == Spaces(m) + Trim(s) + Spaces(n) && Tight(Trim(s))
  {
    m := TrimLeftIs(s);
    n := TrimRightIs(TrimLeft(s));
    assert s == Spaces(m) + Trim(s) + Spaces(n);
  }

  lemma {:induction false} TrimLeftOfPadded(t: string, m: nat)
    requires t != "" ==> t[0] != ' '
    ensures TrimLeft(Spaces(m) + t) == t
  {
    if m == 0 {
      assert Spaces(0) + t == t;
    } else {
      assert (Spaces(m) + t)[1..] == Spaces(m - 1) + t;
      TrimLeftOfPadded(t, m - 1);
    }
  }

  lemma {:induction false} TrimRightOfPadded(t: string, n: nat)
    requires t != "" ==> t[|t| - 1] != ' '
    ensures TrimRight(t + Spaces(n)) == t
  {
    if n == 0 {
      assert t + Spaces(0) == t;
    } else {
      var p := t + Spaces(n);
      assert p[..|p| - 1] == t + Spaces(n - 1) && p[|p| - 1] == ' ';
      TrimRightOfPadded(t, n - 1);
    }
  }

  /** Trimming finds what was padded. */
  lemma TrimOfPadded(s: string, m: nat, n: nat)
    requires Tight(s)
    ensures Trim(Spaces(m) + s + Spaces(n)) == s
  {
    assert Spaces(m) + s + Spaces(n) == Spaces(m) + (s + Spaces(n));
    if s == "" {
      assert Spaces(m) + s + Spaces(n) == Spaces(m + n) + s;
      TrimLeftOfPadded(s, m + n);
    } else {
      TrimLeftOfPadded(s + Spaces(n), m);
      TrimRightOfPadded(s, n);
    }
  }

  // ---------- splitting ----------

  /** What lies between the delimiters, untrimmed. */
  function Pieces(s: string, c: char): (ps: seq<string>)
    ensures ps != []
    decreases |s|
  {
    var i := Find(s, c);
    if i == |s| then [s] else [s[..i]] + Pieces(s[i + 1..], c)
  }

  function Trimmed(ps: seq<string>): (r: seq<string>)
    ensures |r| == |ps|
  {
    if ps == [] then [] else [Trim(ps[0])] + Trimmed(ps[1..])
  }

  function Join(ps: seq<string>, c: char): string {
    if ps == [] then "" else if |ps| == 1 then ps[0] else ps[0] + [c] + Join(ps[1..], c)
  }

  lemma {:induction false} FindFirst(a: string, c: char, b: string)
    requires c !in a
    ensures Find(a + [c] + b, c) == |a|
    decreases |a|
  {
    if a == "" {
      assert a + [c] + b == [c] + b;
    } else {
      FindFirst(a[1..], c, b);
      assert (a + [c] + b)[1..] == a[1..] + [c] + b;
    }
  }

  lemma {:induction false} FindNone(a: string, c: char)
    requires c !in a
    ensures Find(a, c) == |a|
    decreases |a|
  {
    if a != "" { FindNone(a[1..], c); }
  }

  /** Splitting loses nothing and cuts at every delimiter. */
  lemma {:induction false} JoinOfPieces(s: string, c: char)
    ensures Join(Pieces(s, c), c) == s
    ensures forall p :: p in Pieces(s, c) ==> c !in p
    decreases |s|
  {
    var i := Find(s, c);
    FindIs(s, c);
    if i < |s| {
      JoinOfPieces(s[i + 1..], c);
      assert Pieces(s, c)[1..] == Pieces(s[i + 1..], c);
      assert s == s[..i] + [c] + s[i + 1..];
    }
  }

  /** And it is the only way to cut the text into delimiter-free pieces. */
  lemma {:induction false} PiecesOfJoin(ps: seq<string>, c: char)
    requires ps != [] && forall p :: p in ps ==> c !in p
    ensures Pieces(Join(ps, c), c) == ps
    decreases |ps|
  {
    if |ps| == 1 {
      FindNone(ps[0], c);
    } else {
      PiecesOfJoin(ps[1..], c);
      var s, rest := Join(ps, c), Join(ps[1..], c);
      FindFirst(ps[0], c, rest);
      assert s[..|ps[0]|] == ps[0] && s[|ps[0]| + 1..] == rest;
    }
  }

  lemma TrimmedFirst(p: string, ps: seq<string>)
    ensures Trimmed([p] + ps) == [Trim(p)] + Trimmed(ps)
  {
    assert ([p] + ps)[1..] == ps;
  }

  lemma FirstPiece(s: string, c: char, i: nat)
    requires i == Find(s, c)
    ensures Trimmed(Pieces(s, c)) == [Trim(s[..i])] + if i == |s| then [] else Trimmed(Pieces(s[i + 1..], c))
  {
    if i == |s| {
      assert s[..i] == s;
      assert [s] == [s] + [];
      TrimmedFirst(s, []);
    } else {
      TrimmedFirst(s[..i], Pieces(s[i + 1..], c));
    }
  }

  /** What a scan that has collected `res` and has `rest` before it will end with. */
  function Ending(res: seq<string>, rest: string, c: char): seq<string> {
    res + Trimmed(Pieces(rest, c))
  }

  /** One round of the splitting loop. */
  lemma NextPiece(res: seq<string>, rest: string, c: char, i: nat)
    requires i == Find(rest, c) < |rest|
    ensures Ending(res, rest, c) == Ending(res + [Trim(rest[..i])], rest[i + 1..], c)
  {
    FirstPiece(rest, c, i);
    Regroup(res, Trim(rest[..i]), Trimmed(Pieces(rest[i + 1..], c)));
  }

  lemma LastPiece(res: seq<string>, rest: string, c: char)
    requires Find(rest, c) == |rest|
    ensures Ending(res, rest, c) == res + [Trim(rest)]
  {
    FirstPiece(rest, c, |rest|);
    assert rest[..|rest|] == rest;
  }

  lemma Regroup<T>(a: seq<T>, x: T, b: seq<T>)
    ensures a + ([x] + b) == a + [x] + b
  {
  }

  /** `split`: each piece in turn, trimmed. */
  method Split(s: string, delim: char) returns (res: seq<string>)
    ensures res == Trimmed(Pieces(s, delim))
  {
    res := [];
    var previous := 0;
    ghost var rest := s;
    var current := Find(s, delim);
    while current < |s|
      invariant previous <= current <= |s| && rest == s[previous..] && current == previous + Find(rest, delim)
      invariant Ending(res, rest, delim) == Trimmed(Pieces(s, delim))
      decreases |s| - current
    {
      NextPiece(res, rest, delim, current - previous);
      assert s[previous..current] == rest[..current - previous];
      res := res + [Trim(s[previous..current])];
      rest := rest[current - previous + 1..];
      previous := current + 1;
      current := previous + Find(s[previous..], delim);
    }
    LastPiece(res, rest, delim);
    assert s[previous..current] == rest;
    res := res + [Trim(s[previous..current])];
  }

  lemma TightIsTrimmed(s: string)
    requires Tight(s)
    ensures Trim(s) == s
  {
  }

  /** Text without spaces splits in two exactly when it has one delimiter. */
  lemma SplitsInTwo(s: string, c: char, a: string, b: string)
    requires ' ' !in s && c != ' '
    ensures Trimmed(Pieces(s, c)) == [a, b] <==> s == a + [c] + b && c !in a && c !in b
  {
    JoinOfPieces(s, c);
    var ps := Pieces(s, c);
    if |ps| == 2 {
      assert s == ps[0] + [c] + ps[1];
      assert forall k :: 0 <= k < |ps[0]| ==> s[k] == ps[0][k];
      assert forall k :: 0 <= k < |ps[1]| ==> s[|ps[0]| + 1 + k] == ps[1][k];
      TightIsTrimmed(ps[0]);
      TightIsTrimmed(ps[1]);
      assert Trimmed(ps) == ps;
    }
    if s == a + [c] + b && c !in a && c !in b {
      assert Join([a, b], c) == s;
      PiecesOfJoin([a, b], c);
    }
  }
}
