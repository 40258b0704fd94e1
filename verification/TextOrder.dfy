// The order of strings, as ordered maps and sets use it, and listing a finite set in that order.

module TextOrder {

  /** Lexicographic order. */
  predicate Less(a: string, b: string) {
    b != [] && (a == [] || a[0] < b[0] || (a[0] == b[0] && Less(a[1..], b[1..])))
  }

  /** The texts agree up to some place, where the first one ends or has the smaller character. */
  lemma {:induction false} LessIff(a: string, b: string)
    ensures Less(a, b) <==>
      exists k: nat :: k <= |a| && k < |b| && a[..k] == b[..k] && (k == |a| || a[k] < b[k])
  {
    if a == [] && b != [] {
      assert a[..0] == b[..0];
    } else if a != [] && b != [] {
      LessIff(a[1..], b[1..]);
      if a[0] < b[0] {
        assert a[..0] == b[..0];
      }
      if a[0] == b[0] && Less(a[1..], b[1..]) {
        var k: nat :| k <= |a[1..]| && k < |b[1..]| && a[1..][..k] == b[1..][..k] && (k == |a[1..]| || a[1..][k] < b[1..][k]);
        assert a[..k + 1] == [a[0]] + a[1..][..k] && b[..k + 1] == [b[0]] + b[1..][..k];
        assert a[..k + 1] == b[..k + 1];
      }
      if k: nat :| k <= |a| && k < |b| && a[..k] == b[..k] && (k == |a| || a[k] < b[k]) && k > 0 {
        assert a[..k][0] == b[..k][0] && a[..k][1..] == b[..k][1..];
        assert a[1..][..k - 1] == a[..k][1..] && b[1..][..k - 1] == b[..k][1..];
      }
    }
  }

  lemma {:induction false} LessIsStrict(a: string)
    ensures !Less(a, a)
  {
    if a != [] {
      LessIsStrict(a[1..]);
    }
  }

  lemma {:induction false} LessIsTransitive(a: string, b: string, c: string)
    requires Less(a, b) && Less(b, c)
    ensures Less(a, c)
  {
    if a != [] && a[0] == b[0] && b[0] == c[0] {
      LessIsTransitive(a[1..], b[1..], c[1..]);
    }
  }

  lemma {:induction false} LessIsConnected(a: string, b: string)
    ensures a == b || Less(a, b) || Less(b, a)
  {
    if a != [] && b != [] && a[0] == b[0] {
      LessIsConnected(a[1..], b[1..]);
      assert a == [a[0]] + a[1..] && b == [b[0]] + b[1..];
    }
  }

  predicate IsLeast(k: string, s: set<string>) {
    k in s && forall x :: x in s ==> x == k || Less(k, x)
  }

  lemma {:induction false} LeastExists(s: set<string>)
    requires s != {}
    ensures exists k :: IsLeast(k, s)
  {
    var x :| x in s;
    var rest := s - {x};
    if rest == {} {
      assert s == {x};
      assert IsLeast(x, s);
    } else {
      LeastExists(rest);
      var k :| IsLeast(k, rest);
      LessIsConnected(x, k);
      if Less(x, k) {
        forall y | y in s ensures y == x || Less(x, y) {
          if y != x && y != k { LessIsTransitive(x, k, y); }
        }
        assert IsLeast(x, s);
      } else {
        assert IsLeast(k, s);
      }
    }
  }

  ghost function Least(s: set<string>): (k: string)
    requires s != {}
    ensures IsLeast(k, s)
  {
    LeastExists(s);
    var k :| IsLeast(k, s);
    k
  }

  lemma LeastIsUnique(k: string, s: set<string>)
    requires IsLeast(k, s)
    ensures k == Least(s)
  {
    var l := Least(s);
    if k != l {
      LessIsTransitive(k, l, k);
      LessIsStrict(k);
    }
  }

  /** The elements of a set, in order. */
  ghost function InOrder(s: set<string>): seq<string> {
    if s == {} then [] else [Least(s)] + InOrder(s - {Least(s)})
  }

  lemma {:induction false} InOrderLists(s: set<string>)
    ensures forall x :: x in InOrder(s) <==> x in s
    ensures forall i, j :: 0 <= i < j < |InOrder(s)| ==> Less(InOrder(s)[i], InOrder(s)[j])
    ensures forall i, j :: 0 <= i < j < |InOrder(s)| ==> InOrder(s)[i] != InOrder(s)[j]
    decreases |s|
  {
    if s != {} {
      var k := Least(s);
      InOrderLists(s - {k});
      var rest := InOrder(s - {k});
      assert InOrder(s) == [k] + rest;
      forall i | 0 <= i < |rest| ensures Less(k, rest[i]) && rest[i] != k {
        assert rest[i] in s - {k};
      }
    }
  }

  /** Takes the least element out of a set: one step of walking an ordered set. */
  method TakeLeast(s: set<string>) returns (k: string, rest: set<string>)
    requires s != {}
    ensures k in s && rest == s - {k}
    ensures InOrder(s) == [k] + InOrder(rest)
  {
    LeastExists(s);
    k :| k in s && IsLeast(k, s);
    rest := s - {k};
    LeastIsUnique(k, s);
  }
}
