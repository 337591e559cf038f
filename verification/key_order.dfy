/** The iteration order of a `std::map<std::string, _>`: keys in ascending
    lexicographic order of their characters, a proper prefix first. */
module KeyOrder {

  /** Strict lexicographic order on strings, as `std::string::operator<`. */
  predicate Less(a: string, b: string)
  {
    if |a| == 0 then |b| > 0
    else if |b| == 0 then false
    else if a[0] != b[0] then a[0] < b[0]
    else Less(a[1..], b[1..])
  }

  lemma {:induction false} LessIrreflexive(a: string)
    ensures !Less(a, a)
  {
    if |a| > 0 {
      LessIrreflexive(a[1..]);
    }
  }

  lemma {:induction false} LessAsymmetric(a: string, b: string)
    requires Less(a, b)
    ensures !Less(b, a)
  {
    if |a| > 0 && |b| > 0 && a[0] == b[0] {
      LessAsymmetric(a[1..], b[1..]);
    }
  }

  lemma {:induction false} LessTransitive(a: string, b: string, c: string)
    requires Less(a, b) && Less(b, c)
    ensures Less(a, c)
  {
    if |a| > 0 && a[0] == b[0] && b[0] == c[0] {
      LessTransitive(a[1..], b[1..], c[1..]);
    }
  }

  lemma {:induction false} LessTotal(a: string, b: string)
    ensures a == b || Less(a, b) || Less(b, a)
  {
    if |a| > 0 && |b| > 0 && a[0] == b[0] {
      LessTotal(a[1..], b[1..]);
      if a[1..] == b[1..] {
        assert a == [a[0]] + a[1..] && b == [b[0]] + b[1..];
      }
    }
  }

  /** `k` is the first element of `s` in key order. */
  predicate IsLeast(k: string, s: set<string>)
  {
    k in s && forall j :: j in s ==> j == k || Less(k, j)
  }

  lemma {:induction false} LeastExists(s: set<string>)
    requires s != {}
    ensures exists k :: IsLeast(k, s)
    decreases s
  {
    var x :| x in s;
    var rest := s - {x};
    if rest == {} {
      assert s == {x};
      assert IsLeast(x, s);
    } else {
      LeastExists(rest);
      var y :| IsLeast(y, rest);
      LessTotal(x, y);
      if Less(x, y) {
        forall j | j in s
          ensures j == x || Less(x, j)
        {
          if j != x && j != y {
            LessTransitive(x, y, j);
          }
        }
        assert IsLeast(x, s);
      } else {
        assert IsLeast(y, s);
      }
    }
  }

  lemma LeastUnique(s: set<string>)
    ensures forall k, k' :: IsLeast(k, s) && IsLeast(k', s) ==> k == k'
  {
    forall k, k' | IsLeast(k, s) && IsLeast(k', s)
      ensures k == k'
    {
      if k != k' {
        LessAsymmetric(k, k');
      }
    }
  }

  /** The smallest element of a non-empty set of keys. */
  function Least(s: set<string>): (k: string)
    requires s != {}
    ensures k in s
    ensures forall j :: j in s && j != k ==> Less(k, j)
  {
    LeastExists(s);
    LeastUnique(s);
    var k :| IsLeast(k, s);
    k
  }

  /** The elements of `s` in the order a `std::map` with these keys visits them. */
  function Sorted(s: set<string>): (ks: seq<string>)
    ensures forall k :: k in ks <==> k in s
    ensures forall i, j :: 0 <= i < j < |ks| ==> Less(ks[i], ks[j])
    ensures |ks| == |s|
    decreases s
  {
    if s == {} then []
    else
      var k := Least(s);
      var rest := Sorted(s - {k});
      assert forall j :: 0 <= j < |rest| ==> Less(k, rest[j]);
      assert |s - {k}| == |s| - 1;
      [k] + rest
  }

  /** The keys of `m` in iteration order. */
  function SortedKeys<V>(m: map<string, V>): (ks: seq<string>)
    ensures forall k :: k in ks <==> k in m
    ensures forall i, j :: 0 <= i < j < |ks| ==> Less(ks[i], ks[j])
  {
    Sorted(m.Keys)
  }
}
