/** Python's ordering of str values (code point by code point, a proper prefix
    first) and sorted() over a list of strings. */
module StringOrder {

  /** a <= b in Python's string order. */
  predicate StrLe(a: string, b: string)
  {
    |a| == 0 || (|b| > 0 && (a[0] < b[0] || (a[0] == b[0] && StrLe(a[1..], b[1..]))))
  }

  lemma {:induction false} StrLeTotal(a: string, b: string)
    ensures StrLe(a, b) || StrLe(b, a)
  {
    if |a| > 0 && |b| > 0 && a[0] == b[0] {
      StrLeTotal(a[1..], b[1..]);
    }
  }

  lemma {:induction false} StrLeTransitive(a: string, b: string, c: string)
    requires StrLe(a, b) && StrLe(b, c)
    ensures StrLe(a, c)
  {
    if |a| > 0 && a[0] == b[0] && b[0] == c[0] {
      StrLeTransitive(a[1..], b[1..], c[1..]);
    }
  }

  lemma {:induction false} StrLeAntisymmetric(a: string, b: string)
    requires StrLe(a, b) && StrLe(b, a)
    ensures a == b
  {
    if |a| > 0 {
      StrLeAntisymmetric(a[1..], b[1..]);
      assert a == [a[0]] + a[1..] && b == [b[0]] + b[1..];
    }
  }

  predicate Sorted(s: seq<string>)
  {
    forall i, j :: 0 <= i < j < |s| ==> StrLe(s[i], s[j])
  }

  /** Every element of s is at least x. */
  predicate AllAtLeast(x: string, s: seq<string>)
  {
    forall i :: 0 <= i < |s| ==> StrLe(x, s[i])
  }

  /** x placed before the first element of s that it does not exceed. */
  function Insert(x: string, s: seq<string>): (r: seq<string>)
    ensures multiset(r) == multiset(s) + multiset{x}
    ensures |r| == |s| + 1
  {
    if |s| == 0 then [x]
    else if StrLe(x, s[0]) then
      assert s == [s[0]] + s[1..];
      [x] + s
    else
      assert s == [s[0]] + s[1..];
      [s[0]] + Insert(x, s[1..])
  }

  /** A lower bound of s and x bounds what Insert builds from them. */
  lemma {:induction false} InsertKeepsLowerBound(y: string, x: string, s: seq<string>)
    requires AllAtLeast(y, s) && StrLe(y, x)
    ensures AllAtLeast(y, Insert(x, s))
  {
    if |s| > 0 && !StrLe(x, s[0]) {
      InsertKeepsLowerBound(y, x, s[1..]);
    }
  }

  lemma {:induction false} InsertSorted(x: string, s: seq<string>)
    requires Sorted(s)
    ensures Sorted(Insert(x, s))
  {
    if |s| == 0 {
    } else if StrLe(x, s[0]) {
      forall i | 0 <= i < |s| ensures StrLe(x, s[i]) {
        if i > 0 { StrLeTransitive(x, s[0], s[i]); }
      }
    } else {
      StrLeTotal(x, s[0]);
      InsertSorted(x, s[1..]);
      InsertKeepsLowerBound(s[0], x, s[1..]);
      var r := Insert(x, s);
      assert r == [s[0]] + Insert(x, s[1..]);
      forall i, j | 0 <= i < j < |r| ensures StrLe(r[i], r[j]) {
        if i > 0 { assert r[i] == Insert(x, s[1..])[i - 1] && r[j] == Insert(x, s[1..])[j - 1]; }
        else { assert r[j] == Insert(x, s[1..])[j - 1]; }
      }
    }
  }

  /** sorted(s): the elements of s in ascending order. */
  function SortStrings(s: seq<string>): (r: seq<string>)
    ensures Sorted(r)
    ensures multiset(r) == multiset(s)
    ensures |r| == |s|
  {
    if |s| == 0 then []
    else
      assert s == [s[0]] + s[1..];
      InsertSorted(s[0], SortStrings(s[1..]));
      Insert(s[0], SortStrings(s[1..]))
  }
}
