/**
 * The two string operations the predicate compiler is built on: Python's
 * `str.split` with a one-character separator, and `re.findall` with the
 * pattern `\[(.*?)\]` (the text of each bracketed group, shortest match,
 * `.` not matching a newline).
 */
module Text {
  import opened Wrappers

  /** `s.split(c)`: the pieces between occurrences of `c`; never empty. */
  function Split(s: string, c: char): (r: seq<string>)
    ensures |r| >= 1
    ensures forall i :: 0 <= i < |r| ==> c !in r[i]
    decreases |s|
  {
    if s == [] then [""]
    else
      var rest := Split(s[1..], c);
      if s[0] == c then [""] + rest
      else [[s[0]] + rest[0]] + rest[1..]
  }

  /** `c.join(ps)`. */
  function Join(ps: seq<string>, c: char): string
    requires |ps| >= 1
    decreases |ps|
  {
    if |ps| == 1 then ps[0] else ps[0] + [c] + Join(ps[1..], c)
  }

  /** Joining the pieces again gives back the split string. */
  lemma {:induction false} JoinSplit(s: string, c: char)
    ensures Join(Split(s, c), c) == s
    decreases |s|
  {
    if s != [] {
      JoinSplit(s[1..], c);
      var rest := Split(s[1..], c);
      if s[0] != c {
        if |rest| == 1 {
          assert Split(s, c) == [[s[0]] + rest[0]];
        } else {
          assert Split(s, c)[1..] == rest[1..];
        }
      }
    }
  }

  /** Splitting a join of separator-free pieces gives back the pieces. */
  lemma {:induction false} SplitJoin(ps: seq<string>, c: char)
    requires |ps| >= 1
    requires forall i :: 0 <= i < |ps| ==> c !in ps[i]
    ensures Split(Join(ps, c), c) == ps
    decreases |ps|, |ps[0]|
  {
    if ps[0] != [] {
      var p0 := ps[0];
      var ps' := [p0[1..]] + ps[1..];
      JoinHead(ps, c);
      SplitJoin(ps', c);
      SplitCons(p0[0], Join(ps', c), c);
      assert [p0[0]] + p0[1..] == p0;
      assert ps == [p0] + ps'[1..];
    } else if |ps| > 1 {
      SplitJoin(ps[1..], c);
      assert Join(ps, c) == [c] + Join(ps[1..], c);
      SplitCons(c, Join(ps[1..], c), c);
    }
  }

  lemma SplitCons(x: char, t: string, c: char)
    ensures Split([x] + t, c) ==
      if x == c then [""] + Split(t, c) else [[x] + Split(t, c)[0]] + Split(t, c)[1..]
  {
    assert ([x] + t)[1..] == t;
  }

  /** The first character of a join is that of its first piece, when that piece is not empty. */
  lemma JoinHead(ps: seq<string>, c: char)
    requires |ps| >= 1 && ps[0] != []
    ensures Join(ps, c) == [ps[0][0]] + Join([ps[0][1..]] + ps[1..], c)
  {
    var ps' := [ps[0][1..]] + ps[1..];
    assert ps[0] == [ps[0][0]] + ps[0][1..];
    if |ps| > 1 {
      assert ps'[1..] == ps[1..];
    }
  }

  /** A string with n separators splits into n + 1 pieces. */
  lemma {:induction false} SplitCount(s: string, c: char)
    ensures |Split(s, c)| == multiset(s)[c] + 1
    decreases |s|
  {
    if s != [] {
      SplitCount(s[1..], c);
      assert s == [s[0]] + s[1..];
      assert multiset(s) == multiset([s[0]]) + multiset(s[1..]);
    }
  }

  /**
   * The index of the `]` that closes a group whose text starts at `i`: the
   * first `]` at or after `i`, unless a newline comes before it.
   */
  function CloseAt(s: string, i: nat): (r: Option<nat>)
    requires i <= |s|
    ensures r.Some? ==> i <= r.value < |s| && s[r.value] == ']'
    ensures r.Some? ==> forall k :: i <= k < r.value ==> s[k] != ']' && s[k] != '\n'
    ensures r.None? ==> forall j :: i <= j < |s| && s[j] == ']' ==> exists k :: i <= k < j && s[k] == '\n'
    decreases |s| - i
  {
    if i == |s| then None
    else if s[i] == ']' then Some(i)
    else if s[i] == '\n' then None
    else CloseAt(s, i + 1)
  }

  /**
   * `re.findall(r'(?:\[(.*?)\])', s)`: scanning left to right, a `[` opens a
   * group that ends at the next `]`; a `[` with no such `]` before a newline
   * is skipped; scanning resumes after the closing `]`.
   */
  function Groups(s: string): (r: seq<string>)
    ensures forall k :: 0 <= k < |r| ==> ']' !in r[k] && '\n' !in r[k]
    decreases |s|
  {
    if s == [] then []
    else if s[0] == '[' then
      match CloseAt(s, 1)
      case Some(j) => [s[1..j]] + Groups(s[j + 1..])
      case None => Groups(s[1..])
    else Groups(s[1..])
  }

  /** The predicate text `[g1][g2]...` for group texts g1, g2, .... */
  function Bracketed(gs: seq<string>): string
    decreases |gs|
  {
    if gs == [] then "" else "[" + gs[0] + "]" + Bracketed(gs[1..])
  }

  lemma {:induction false} CloseAtFirst(s: string, i: nat, j: nat)
    requires i <= j < |s| && s[j] == ']'
    requires forall k :: i <= k < j ==> s[k] != ']' && s[k] != '\n'
    ensures CloseAt(s, i) == Some(j)
    decreases j - i
  {
    if i < j {
      CloseAtFirst(s, i + 1, j);
    }
  }

  /** Groups finds back exactly the groups a predicate was written from. */
  lemma {:induction false} GroupsOfBracketed(gs: seq<string>)
    requires forall k :: 0 <= k < |gs| ==> ']' !in gs[k] && '\n' !in gs[k]
    ensures Groups(Bracketed(gs)) == gs
    decreases |gs|
  {
    if gs != [] {
      var g := gs[0];
      var rest := Bracketed(gs[1..]);
      var s := Bracketed(gs);
      assert s == "[" + g + "]" + rest;
      CloseAtFirst(s, 1, |g| + 1);
      assert s[1..|g| + 1] == g;
      assert s[|g| + 2..] == rest;
      GroupsOfBracketed(gs[1..]);
    }
  }

  /** Text without a `[` holds no group. */
  lemma {:induction false} NoBracketNoGroups(s: string)
    requires '[' !in s
    ensures Groups(s) == []
    decreases |s|
  {
    if s != [] {
      assert s[0] in s;
      assert forall c :: c in s[1..] ==> c in s;
      NoBracketNoGroups(s[1..]);
    }
  }
}
