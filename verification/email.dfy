/** The two email shapes the portfolio checks.
    The message schema uses `/^\S+@\S+\.\S+$/`; both contact forms use
    `/^[^\s@]+@[^\s@]+\.[^\s@]+$/`. Each is stated once as the split the regular
    expression describes and once as a direct check, and the two are proved equal. */
module Email {
  import opened Text

  /** `s` splits as `a + "@" + b + "." + c` with `a`, `b`, `c` non-empty, the `@` at `i` and the `.` at `j`. */
  predicate SplitAt(s: string, i: int, j: int) {
    0 < i && i + 1 < j && j + 1 < |s| && s[i] == '@' && s[j] == '.'
  }

  /** No `@` in `s` other than the one at `i`. */
  predicate OnlyAtSign(s: string, i: int) {
    forall k :: 0 <= k < |s| && k != i ==> s[k] != '@'
  }

  /** What `/^\S+@\S+\.\S+$/` accepts: the three parts may themselves hold `@` and `.`. */
  ghost predicate SchemaPattern(s: string) {
    NoSpace(s) && exists i, j :: SplitAt(s, i, j)
  }

  /** What `/^[^\s@]+@[^\s@]+\.[^\s@]+$/` accepts: no part holds `@`. */
  ghost predicate FormPattern(s: string) {
    NoSpace(s) && exists i, j :: SplitAt(s, i, j) && OnlyAtSign(s, i)
  }

  /** Index of the first `c` at or after `k`, or -1. */
  function IndexFrom(s: string, c: char, k: nat): (r: int)
    ensures -1 <= r < |s|
    ensures r >= 0 ==> k <= r && s[r] == c && forall m :: k <= m < r ==> s[m] != c
    ensures r == -1 ==> forall m :: k <= m < |s| ==> s[m] != c
    decreases |s| - k
  {
    if k >= |s| then -1 else if s[k] == c then k else IndexFrom(s, c, k + 1)
  }

  /** Index of the last `c` before `k`, or -1. */
  function LastIndexBefore(s: string, c: char, k: nat): (r: int)
    requires k <= |s|
    ensures -1 <= r < k
    ensures r >= 0 ==> s[r] == c && forall m :: r < m < k ==> s[m] != c
    ensures r == -1 ==> forall m :: 0 <= m < k ==> s[m] != c
    decreases k
  {
    if k <= 0 then -1 else if s[k - 1] == c then k - 1 else LastIndexBefore(s, c, k - 1)
  }

  /** Direct check for the schema shape: the first `@` after the first character
      lies at least two places before the last `.` that is not the final character. */
  predicate SchemaEmailOk(s: string) {
    |s| > 0 && NoSpace(s) &&
    var at := IndexFrom(s, '@', 1);
    var dot := LastIndexBefore(s, '.', |s| - 1);
    at >= 0 && dot >= 0 && at + 2 <= dot
  }

  lemma SchemaEmailOkIff(s: string)
    ensures SchemaEmailOk(s) <==> SchemaPattern(s)
  {
    if |s| >= 1 {
      var at := IndexFrom(s, '@', 1);
      var dot := LastIndexBefore(s, '.', |s| - 1);
      if at >= 0 && dot >= 0 && at + 2 <= dot {
        assert SplitAt(s, at, dot);
      }
      if exists i, j :: SplitAt(s, i, j) {
        var i, j :| SplitAt(s, i, j);
        assert at >= 0 && at <= i;
        assert dot >= j;
      }
    }
  }

  /** Number of occurrences of `c` in `s`. */
  function CountChar(s: string, c: char): nat {
    if s == [] then 0 else (if s[0] == c then 1 else 0) + CountChar(s[1..], c)
  }

  lemma {:induction false} CountCharAppend(a: string, b: string, c: char)
    ensures CountChar(a + b, c) == CountChar(a, c) + CountChar(b, c)
  {
    if a != [] {
      assert (a + b)[1..] == a[1..] + b;
      CountCharAppend(a[1..], b, c);
    } else {
      assert a + b == b;
    }
  }

  lemma {:induction false} CountCharZero(s: string, c: char)
    ensures CountChar(s, c) == 0 <==> forall k :: 0 <= k < |s| ==> s[k] != c
  {
    if s != [] {
      CountCharZero(s[1..], c);
      assert forall k :: 1 <= k < |s| ==> s[k] == s[1..][k - 1];
    }
  }

  /** With a `c` at `i`, `c` occurs once exactly when `i` is its only position. */
  lemma CountCharOne(s: string, c: char, i: int)
    requires 0 <= i < |s| && s[i] == c
    ensures CountChar(s, c) == 1 <==> forall k :: 0 <= k < |s| && k != i ==> s[k] != c
  {
    assert s == s[..i] + [s[i]] + s[i + 1..];
    CountCharAppend(s[..i] + [s[i]], s[i + 1..], c);
    CountCharAppend(s[..i], [s[i]], c);
    CountCharZero(s[..i], c);
    CountCharZero(s[i + 1..], c);
    assert forall k :: i < k < |s| ==> s[k] == s[i + 1..][k - i - 1];
  }

  /** Direct check for the form shape, in the terms a reader of the form code would use:
      exactly one `@`, no white space, a non-empty local part, and a `.` in the domain
      that is neither its first nor its last character. */
  predicate FormEmailOk(s: string) {
    NoSpace(s) && CountChar(s, '@') == 1 &&
    var at := IndexFrom(s, '@', 0);
    at > 0 &&
    var domain := s[at + 1..];
    |domain| >= 3 && '.' in domain[1..|domain| - 1]
  }

  lemma FormEmailOkIff(s: string)
    ensures FormEmailOk(s) <==> FormPattern(s)
  {
    var at := IndexFrom(s, '@', 0);
    if FormEmailOk(s) {
      CountCharOne(s, '@', at);
      var domain := s[at + 1..];
      var p :| 0 <= p < |domain| - 2 && domain[1..|domain| - 1][p] == '.';
      assert s[at + 2 + p] == '.';
      assert SplitAt(s, at, at + 2 + p) && OnlyAtSign(s, at);
    }
    if FormPattern(s) {
      var i, j :| SplitAt(s, i, j) && OnlyAtSign(s, i);
      CountCharOne(s, '@', i);
      assert at == i;
      var domain := s[at + 1..];
      assert domain[1..|domain| - 1][j - i - 2] == '.';
    }
  }

  /** Every address the form accepts also satisfies the schema. */
  lemma FormImpliesSchema(s: string)
    requires FormEmailOk(s)
    ensures SchemaEmailOk(s)
  {
    FormEmailOkIff(s);
    SchemaEmailOkIff(s);
  }

  /** The converse fails: the schema accepts a second `@` that the form refuses. */
  lemma SchemaAcceptsMoreThanForm()
    ensures SchemaEmailOk("a@b@c.d") && !FormEmailOk("a@b@c.d")
  {
    var s := "a@b@c.d";
    assert SplitAt(s, 1, 5);
    SchemaEmailOkIff(s);
    CountCharOne(s, '@', 1);
    assert s[3] == '@';
  }
}
