/** Small data types and string helpers shared by the other modules. */
module Prelude {

  datatype Option<+T> = None | Some(value: T)

  /** Positions below `n`, in order, none twice. */
  predicate Rises(at: seq<nat>, n: nat) {
    (forall i, j | 0 <= i < j < |at| :: at[i] < at[j]) && (forall i | 0 <= i < |at| :: at[i] < n)
  }

  /** The pieces of a Python list of strings, joined with no separator. */
  function Join(pieces: seq<string>): string {
    if pieces == [] then "" else pieces[0] + Join(pieces[1..])
  }

  lemma {:induction false} JoinAppend(a: seq<string>, b: seq<string>)
    ensures Join(a + b) == Join(a) + Join(b)
  {
    if a == [] {
      assert a + b == b;
    } else {
      assert (a + b)[1..] == a[1..] + b;
      JoinAppend(a[1..], b);
    }
  }

  predicate StartsWith(s: string, prefix: string) {
    |prefix| <= |s| && s[..|prefix|] == prefix
  }

  /** `split(c, 1)` into two parts, at the first `c`. */
  function Break(s: string, c: char): (r: Option<(string, string)>)
    ensures r.Some? ==> |r.value.1| < |s|
  {
    if s == "" then None
    else if s[0] == c then Some(("", s[1..]))
    else
      var r := Break(s[1..], c);
      if r.None? then None else Some(([s[0]] + r.value.0, r.value.1))
  }

  lemma {:induction false} BreakSplits(s: string, c: char)
    ensures Break(s, c).None? <==> c !in s
    ensures var r := Break(s, c); r.Some? ==> s == r.value.0 + [c] + r.value.1 && c !in r.value.0
  {
    if s != "" && s[0] != c {
      BreakSplits(s[1..], c);
      assert s == [s[0]] + s[1..];
    }
  }

  lemma {:induction false} BreakFirst(a: string, c: char, b: string)
    requires c !in a
    ensures Break(a + [c] + b, c) == Some((a, b))
  {
    var s := a + [c] + b;
    if a == "" {
      assert s[1..] == b;
    } else {
      assert s[1..] == a[1..] + [c] + b;
      BreakFirst(a[1..], c, b);
      assert a == [a[0]] + a[1..];
    }
  }

  /** `str.replace` with a one-character pattern. */
  function Replace(s: string, c: char, repl: string): string {
    if s == "" then "" else (if s[0] == c then repl else [s[0]]) + Replace(s[1..], c, repl)
  }

  lemma {:induction false} ReplaceAppend(a: string, b: string, c: char, repl: string)
    ensures Replace(a + b, c, repl) == Replace(a, c, repl) + Replace(b, c, repl)
  {
    if a == "" {
      assert a + b == b;
    } else {
      assert (a + b)[1..] == a[1..] + b;
      ReplaceAppend(a[1..], b, c, repl);
    }
  }

  /** Replacing `c` removes it, and brings in only characters of the replacement. */
  lemma {:induction false} ReplaceChars(s: string, c: char, repl: string, x: char)
    requires x !in repl
    ensures x in Replace(s, c, repl) <==> x in s && x != c
  {
    if s != "" {
      ReplaceChars(s[1..], c, repl, x);
    }
  }

  /** Some element of a set: `scalar_one` on a query with one row. */
  ghost function Any<T(!new)>(s: set<T>): (x: T)
    requires s != {}
    ensures x in s
  {
    var x :| x in s; x
  }

  predicate IsMax(s: set<int>, m: int) {
    m in s && forall x | x in s :: x <= m
  }

  lemma {:induction false} MaxExists(s: set<int>)
    requires s != {}
    ensures exists m :: IsMax(s, m)
    decreases |s|
  {
    var x := Any(s);
    var rest := s - {x};
    if rest == {} {
      assert s == {x};
      assert IsMax(s, x);
    } else {
      MaxExists(rest);
      var m :| IsMax(rest, m);
      assert s == rest + {x};
      if x > m {
        assert IsMax(s, x);
      } else {
        assert IsMax(s, m);
      }
    }
  }

  function Max(s: set<int>): (m: int)
    requires s != {}
    ensures IsMax(s, m)
  {
    MaxExists(s);
    var m :| m in s && IsMax(s, m); m
  }

  predicate IsMin(s: set<int>, m: int) {
    m in s && forall x | x in s :: m <= x
  }

  lemma {:induction false} MinExists(s: set<int>)
    requires s != {}
    ensures exists m :: IsMin(s, m)
  {
    var negated := set x | x in s :: -x;
    assert -Any(s) in negated;
    MaxExists(negated);
    var m :| IsMax(negated, m);
    forall x | x in s ensures -m <= x {
      assert -x in negated;
    }
    assert IsMin(s, -m);
  }

  function Min(s: set<int>): (m: int)
    requires s != {}
    ensures IsMin(s, m)
  {
    MinExists(s);
    var m :| m in s && IsMin(s, m); m
  }

  /** The elements of a set in increasing order: `ORDER BY id`. */
  function Ascending(s: set<int>): (r: seq<int>)
    ensures forall x :: x in r <==> x in s
    ensures forall i, j | 0 <= i < j < |r| :: r[i] < r[j]
    decreases |s|
  {
    if s == {} then []
    else [Min(s)] + Ascending(s - {Min(s)})
  }
}
