/**
 * Python's ordering of `str` values (character by character, a proper prefix
 * first) and `sorted()` on a list of strings.
 */
module StringOrder {

  /** `a < b` on Python strings. */
  predicate Below(a: string, b: string)
    decreases |a|
  {
    if |a| == 0 then |b| > 0
    else if |b| == 0 then false
    else a[0] < b[0] || (a[0] == b[0] && Below(a[1..], b[1..]))
  }

  /** `a <= b` on Python strings. */
  predicate AtMost(a: string, b: string)
  {
    a == b || Below(a, b)
  }

  lemma {:induction false} BelowIrreflexive(a: string)
    ensures !Below(a, a)
    decreases |a|
  {
    if |a| > 0 {
      BelowIrreflexive(a[1..]);
    }
  }

  lemma {:induction false} BelowTransitive(a: string, b: string, c: string)
    requires Below(a, b) && Below(b, c)
    ensures Below(a, c)
    decreases |a|
  {
    if |a| > 0 && a[0] == b[0] && b[0] == c[0] {
      BelowTransitive(a[1..], b[1..], c[1..]);
    }
  }

  lemma {:induction false} BelowTotal(a: string, b: string)
    ensures a == b || Below(a, b) || Below(b, a)
    decreases |a|
  {
    if |a| > 0 && |b| > 0 && a[0] == b[0] {
      BelowTotal(a[1..], b[1..]);
      if a[1..] == b[1..] {
        assert a == [a[0]] + a[1..] && b == [b[0]] + b[1..];
      }
    }
  }

  lemma BelowAsymmetric(a: string, b: string)
    requires Below(a, b)
    ensures !Below(b, a)
  {
    if Below(b, a) {
      BelowTransitive(a, b, a);
      BelowIrreflexive(a);
    }
  }

  /** Ascending order, as `sorted()` leaves a list of strings. */
  predicate Ascending(s: seq<string>)
  {
    forall i, j :: 0 <= i < j < |s| ==> AtMost(s[i], s[j])
  }

  /** Inserting `k` into an ascending list just before the first element not below it. */
  function Insert(k: string, s: seq<string>): (r: seq<string>)
    requires Ascending(s)
    ensures Ascending(r)
    ensures multiset(r) == multiset(s) + multiset{k}
    decreases |s|
  {
    if s == [] then [k]
    else if AtMost(k, s[0]) then
      assert forall j :: 0 <= j < |s| ==> AtMost(k, s[j]) by {
        forall j | 0 <= j < |s| ensures AtMost(k, s[j]) {
          if k != s[0] && s[0] != s[j] { BelowTransitive(k, s[0], s[j]); }
        }
      }
      assert s == [s[0]] + s[1..];
      [k] + s
    else
      var rest := Insert(k, s[1..]);
      BelowTotal(k, s[0]);
      assert s == [s[0]] + s[1..];
      assert forall j :: 0 <= j < |rest| ==> AtMost(s[0], rest[j]) by {
        forall j | 0 <= j < |rest| ensures AtMost(s[0], rest[j]) {
          assert rest[j] in multiset(rest);
          assert rest[j] == k || rest[j] in s[1..];
        }
      }
      [s[0]] + rest
  }

  /** `sorted(s)` for a list of strings. */
  function Sort(s: seq<string>): (r: seq<string>)
    ensures Ascending(r)
    ensures multiset(r) == multiset(s)
    decreases |s|
  {
    if s == [] then []
    else
      assert s == [s[0]] + s[1..];
      Insert(s[0], Sort(s[1..]))
  }

  /** There is only one ascending arrangement of a multiset of strings, so any correct sort agrees with `Sort`. */
  lemma {:induction false} AscendingUnique(a: seq<string>, b: seq<string>)
    requires Ascending(a) && Ascending(b)
    requires multiset(a) == multiset(b)
    ensures a == b
    decreases |a|
  {
    if a == [] {
      assert |b| == |multiset(b)| == 0;
    } else {
      assert |b| == |multiset(b)| == |multiset(a)| > 0;
      SameHead(a, b);
      TailMultiset(a);
      TailMultiset(b);
      AscendingUnique(a[1..], b[1..]);
      assert a == [a[0]] + a[1..] && b == [b[0]] + b[1..];
    }
  }

  /** Two ascending arrangements of one multiset start with its least element. */
  lemma SameHead(a: seq<string>, b: seq<string>)
    requires Ascending(a) && Ascending(b) && |a| > 0 && |b| > 0
    requires multiset(a) == multiset(b)
    ensures a[0] == b[0]
  {
    assert a[0] in multiset(b) && b[0] in multiset(a);
    var i :| 0 <= i < |b| && b[i] == a[0];
    var j :| 0 <= j < |a| && a[j] == b[0];
    assert AtMost(b[0], a[0]) && AtMost(a[0], b[0]);
    if a[0] != b[0] {
      BelowAsymmetric(a[0], b[0]);
    }
  }

  lemma TailMultiset(a: seq<string>)
    requires |a| > 0
    ensures multiset(a[1..]) == multiset(a) - multiset{a[0]}
  {
    assert a == [a[0]] + a[1..];
  }
}
