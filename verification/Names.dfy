/** Code-point order on strings and the sorted listing of a finite set of names. */
module Names {

  predicate Lt(a: string, b: string) {
    b != "" && (a == "" || a[0] < b[0] || (a[0] == b[0] && Lt(a[1..], b[1..])))
  }

  lemma {:induction false} LtIrreflexive(a: string)
    ensures !Lt(a, a)
  {
    if a == "" {
    } else {
      LtIrreflexive(a[1..]);
    }
  }

  lemma {:induction false} LtTransitive(a: string, b: string, c: string)
    requires Lt(a, b) && Lt(b, c)
    ensures Lt(a, c)
  {
    if a != "" && a[0] == b[0] && b[0] == c[0] {
      LtTransitive(a[1..], b[1..], c[1..]);
    }
  }

  lemma {:induction false} LtTotal(a: string, b: string)
    ensures a == b || Lt(a, b) || Lt(b, a)
  {
    if a != "" && b != "" && a[0] == b[0] {
      LtTotal(a[1..], b[1..]);
      assert a == [a[0]] + a[1..] && b == [b[0]] + b[1..];
    }
  }

  predicate IsFirst(n: string, names: set<string>) {
    n in names && forall x :: x in names && x != n ==> Lt(n, x)
  }

  lemma {:induction false} FirstExists(names: set<string>) returns (n: string)
    requires names != {}
    ensures IsFirst(n, names)
  {
    var p :| p in names;
    var rest := names - {p};
    n := p;
    if rest == {} {
      assert names == {p};
    } else {
      var m := FirstExists(rest);
      LtTotal(m, p);
      n := if Lt(m, p) then m else p;
      forall x | x in names && x != n ensures Lt(n, x) {
        if x != p && n == p && x != m {
          assert x in rest;
          LtTransitive(p, m, x);
        } else if x != p {
          assert x in rest;
        }
      }
    }
  }

  lemma HasFirst(names: set<string>)
    requires names != {}
    ensures exists n :: IsFirst(n, names)
  {
    var n := FirstExists(names);
  }

  lemma FirstUnique(names: set<string>, a: string, b: string)
    requires IsFirst(a, names) && IsFirst(b, names)
    ensures a == b
  {
    if a != b {
      LtTransitive(a, b, a);
      LtIrreflexive(a);
    }
  }

  function First(names: set<string>): (n: string)
    requires names != {}
    ensures IsFirst(n, names)
  {
    HasFirst(names);
    assert forall a, b :: IsFirst(a, names) && IsFirst(b, names) ==> a == b by {
      forall a, b | IsFirst(a, names) && IsFirst(b, names) ensures a == b {
        FirstUnique(names, a, b);
      }
    }
    var n :| IsFirst(n, names);
    n
  }

  ghost predicate Increasing(s: seq<string>) {
    forall i, j :: 0 <= i < j < |s| ==> Lt(s[i], s[j])
  }

  ghost predicate Lists(s: seq<string>, names: set<string>) {
    && (forall n :: n in s <==> n in names)
    && (forall i, j :: 0 <= i < j < |s| ==> s[i] != s[j])
  }

  lemma ListsCons(n: string, rest: seq<string>, names: set<string>)
    requires IsFirst(n, names) && Lists(rest, names - {n}) && Increasing(rest)
    ensures Lists([n] + rest, names) && Increasing([n] + rest)
  {
    forall x ensures x in [n] + rest <==> x in names {
      assert x in rest <==> x in names - {n};
    }
    forall i | 0 <= i < |rest| ensures Lt(n, rest[i]) && n != rest[i] {
      assert rest[i] in rest;
    }
  }

  function Sorted(names: set<string>): (s: seq<string>)
    ensures Lists(s, names) && Increasing(s)
    decreases |names|
  {
    if names == {} then []
    else
      var n := First(names);
      var rest := Sorted(names - {n});
      ListsCons(n, rest, names);
      [n] + rest
  }

  lemma Distinct(a: string, b: string)
    requires Lt(a, b)
    ensures a != b && !Lt(b, a)
  {}

  /** There is only one sorted listing. */
  lemma {:induction false} SortedUnique(a: seq<string>, b: seq<string>)
    requires Increasing(a) && Increasing(b) && forall n :: n in a <==> n in b
    ensures a == b
  {
    if a != [] && b != [] {
      assert a[0] in b && b[0] in a;
      HeadUnique(a, b);
      TailMembers(a);
      TailMembers(b);
      SortedUnique(a[1..], b[1..]);
    } else {
      Empty(a);
      Empty(b);
    }
  }

  lemma Empty(a: seq<string>)
    ensures a == [] || exists n :: n in a
  {
    if a != [] {
      assert a[0] in a;
    }
  }

  lemma HeadUnique(a: seq<string>, b: seq<string>)
    requires a != [] && b != [] && Increasing(a) && Increasing(b)
    requires a[0] in b && b[0] in a
    ensures a[0] == b[0]
  {
    var i :| 0 <= i < |a| && a[i] == b[0];
    var j :| 0 <= j < |b| && b[j] == a[0];
    if i > 0 && j > 0 {
      Distinct(a[0], a[i]);
    }
  }

  lemma TailMembers(a: seq<string>)
    requires a != [] && Increasing(a)
    ensures Increasing(a[1..])
    ensures forall n :: n in a[1..] <==> n in a && n != a[0]
  {
    forall i | 0 < i < |a| ensures a[i] != a[0] {
      Distinct(a[0], a[i]);
    }
    assert a == [a[0]] + a[1..];
  }
}
