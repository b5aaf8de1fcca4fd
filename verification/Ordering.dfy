/** The order Python sorts strings in, and sorting a set of them: what every canonical order here rests on. */
module Ordering {

  /** Lexicographic by code point, a proper prefix first. */
  predicate Before(a: string, b: string) {
    if b == "" then false
    else if a == "" then true
    else if a[0] != b[0] then a[0] < b[0]
    else Before(a[1..], b[1..])
  }

  /** The texts first differ at `k`, and `a` has the lesser character there. */
  predicate LesserAt(a: string, b: string, k: nat) {
    k < |a| && k < |b| && a[..k] == b[..k] && a[k] < b[k]
  }

  /** A text is before another exactly when it is a proper beginning of it, or has the lesser character where they first
      differ. */
  lemma {:induction false} BeforeExactly(a: string, b: string)
    ensures Before(a, b) <==> a < b || exists k: nat :: LesserAt(a, b, k)
  {
    if a != "" && b != "" {
      BeforeExactly(a[1..], b[1..]);
      assert a == [a[0]] + a[1..] && b == [b[0]] + b[1..];
      if k: nat :| LesserAt(a, b, k) {
        LesserPast(a, b, k);
      }
      if a[0] == b[0] {
        if k: nat :| LesserAt(a[1..], b[1..], k) {
          assert a[..k + 1] == [a[0]] + a[1..][..k] && b[..k + 1] == [b[0]] + b[1..][..k];
          assert LesserAt(a, b, k + 1);
        }
      } else if a[0] < b[0] {
        assert LesserAt(a, b, 0);
      }
    }
  }

  lemma LesserPast(a: string, b: string, k: nat)
    requires LesserAt(a, b, k)
    ensures if k == 0 then a[0] < b[0] else a[0] == b[0] && LesserAt(a[1..], b[1..], k - 1)
  {
    assert k > 0 ==> a[..k][0] == b[..k][0];
    assert k > 0 ==> a[1..][..k - 1] == a[..k][1..] && b[1..][..k - 1] == b[..k][1..];
  }

  lemma {:induction false} BeforeTotal(a: string, b: string)
    ensures Before(a, b) || a == b || Before(b, a)
  {
    if a != "" && b != "" && a[0] == b[0] {
      BeforeTotal(a[1..], b[1..]);
      assert a == [a[0]] + a[1..] && b == [b[0]] + b[1..];
    }
  }

  lemma {:induction false} BeforeAsymmetric(a: string, b: string)
    ensures !(Before(a, b) && Before(b, a))
    ensures !Before(a, a)
  {
    if a != "" {
      BeforeAsymmetric(a[1..], if b == "" then "" else b[1..]);
    }
  }

  lemma {:induction false} BeforeTransitive(a: string, b: string, c: string)
    requires Before(a, b) && Before(b, c)
    ensures Before(a, c)
  {
    if a != "" && a[0] == b[0] && b[0] == c[0] {
      BeforeTransitive(a[1..], b[1..], c[1..]);
    }
  }

  /** A common prefix does not decide. */
  lemma {:induction false} BeforePrefixed(p: string, a: string, b: string)
    ensures Before(p + a, p + b) == Before(a, b)
  {
    if p == "" {
      assert p + a == a && p + b == b;
    } else {
      assert (p + a)[1..] == p[1..] + a && (p + b)[1..] == p[1..] + b;
      BeforePrefixed(p[1..], a, b);
    }
  }

  ghost predicate Ascending(s: seq<string>) {
    forall i, j | 0 <= i < j < |s| :: Before(s[i], s[j])
  }

  /** `sorted` of a set's members. */
  method SortedKeys(keys: set<string>) returns (sorted: seq<string>)
    ensures Ascending(sorted) && forall k :: k in sorted <==> k in keys
  {
    sorted := [];
    var left := keys;
    while left != {}
      invariant left <= keys && Ascending(sorted)
      invariant forall k :: k in sorted <==> k in keys - left
      decreases |left|
    {
      var k :| k in left;
      left := left - {k};
      sorted := Inserted(sorted, k);
    }
  }

  method Inserted(sorted: seq<string>, k: string) returns (more: seq<string>)
    requires Ascending(sorted) && k !in sorted
    ensures Ascending(more) && forall x :: x in more <==> x in sorted || x == k
  {
    hide Before;
    var i := 0;
    while i < |sorted| && Before(sorted[i], k)
      invariant 0 <= i <= |sorted| && forall j | 0 <= j < i :: Before(sorted[j], k)
    {
      i := i + 1;
    }
    more := sorted[..i] + [k] + sorted[i..];
    forall j | i <= j < |sorted| ensures Before(k, sorted[j]) {
      BeforeTotal(sorted[i], k);
      if i < j { BeforeTransitive(k, sorted[i], sorted[j]); }
    }
    assert sorted == sorted[..i] + sorted[i..];
  }
}
