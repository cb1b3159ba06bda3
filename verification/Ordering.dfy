/** Ordering by a number first and by an id second, as a Redis sorted set keeps its members. */
module Ordering {
  /** Character by character; a proper prefix comes first. */
  predicate LexLess(a: string, b: string) {
    if b == "" then false
    else if a == "" then true
    else a[0] < b[0] || (a[0] == b[0] && LexLess(a[1..], b[1..]))
  }

  /** The texts agree up to `k`, where `a` ends or has the smaller character. */
  predicate FirstDifferAt(a: string, b: string, k: nat) {
    k <= |a| && k < |b| && a[..k] == b[..k] && (k == |a| || a[k] < b[k])
  }

  /** Lexicographic order is decided at the first difference. */
  lemma {:induction false} LexIsFirstDifference(a: string, b: string)
    ensures LexLess(a, b) <==> exists k: nat :: FirstDifferAt(a, b, k)
  {
    if a == "" || b == "" {
      assert b != "" ==> FirstDifferAt(a, b, 0);
    } else {
      LexIsFirstDifference(a[1..], b[1..]);
      assert a == [a[0]] + a[1..] && b == [b[0]] + b[1..];
      if LexLess(a, b) {
        if a[0] < b[0] {
          assert FirstDifferAt(a, b, 0);
        } else {
          var k: nat :| FirstDifferAt(a[1..], b[1..], k);
          assert a[..k + 1] == [a[0]] + a[1..][..k] && b[..k + 1] == [b[0]] + b[1..][..k];
          assert FirstDifferAt(a, b, k + 1);
        }
      }
      if k: nat :| FirstDifferAt(a, b, k) && k > 0 {
        assert a[1..][..k - 1] == a[..k][1..] && b[1..][..k - 1] == b[..k][1..];
        assert a[..k][0] == b[..k][0];
        assert FirstDifferAt(a[1..], b[1..], k - 1);
      }
    }
  }

  lemma {:induction false} LexTotal(a: string, b: string)
    ensures a == b || LexLess(a, b) || LexLess(b, a)
  {
    if a != "" && b != "" && a[0] == b[0] {
      LexTotal(a[1..], b[1..]);
      assert a == [a[0]] + a[1..] && b == [b[0]] + b[1..];
    }
  }

  lemma {:induction false} LexAsymmetric(a: string, b: string)
    ensures !(LexLess(a, b) && LexLess(b, a))
  {
    if a != "" && b != "" { LexAsymmetric(a[1..], b[1..]); }
  }

  lemma {:induction false} LexTransitive(a: string, b: string, c: string)
    requires LexLess(a, b) && LexLess(b, c)
    ensures LexLess(a, c)
  {
    if a != "" && a[0] == b[0] && b[0] == c[0] { LexTransitive(a[1..], b[1..], c[1..]); }
  }

  datatype Entry = Entry(score: int, id: string)

  predicate Before(a: Entry, b: Entry) {
    a.score < b.score || (a.score == b.score && LexLess(a.id, b.id))
  }

  lemma BeforeTotal(a: Entry, b: Entry)
    ensures a == b || Before(a, b) || Before(b, a)
    ensures !(Before(a, b) && Before(b, a))
  {
    LexTotal(a.id, b.id);
    LexAsymmetric(a.id, b.id);
  }

  lemma BeforeTransitive(a: Entry, b: Entry, c: Entry)
    requires Before(a, b) && Before(b, c)
    ensures Before(a, c)
  {
    if a.score == b.score == c.score { LexTransitive(a.id, b.id, c.id); }
  }

  predicate Sorted(z: seq<Entry>) {
    forall i, j :: 0 <= i < j < |z| ==> Before(z[i], z[j])
  }

  /** Put `e` where it belongs. */
  function Insert(z: seq<Entry>, e: Entry): (r: seq<Entry>)
    ensures forall x :: x in r <==> x in z || x == e
  {
    if z == [] then [e]
    else if Before(e, z[0]) then [e] + z
    else
      assert z == [z[0]] + z[1..];
      [z[0]] + Insert(z[1..], e)
  }

  function Remove(z: seq<Entry>, id: string): (r: seq<Entry>)
    ensures forall x :: x in r <==> x in z && x.id != id
  {
    if z == [] then []
    else
      assert z == [z[0]] + z[1..];
      if z[0].id == id then Remove(z[1..], id) else [z[0]] + Remove(z[1..], id)
  }

  lemma SortedCons(e: Entry, z: seq<Entry>)
    requires Sorted(z) && forall x :: x in z ==> Before(e, x)
    ensures Sorted([e] + z)
  {
  }

  lemma {:induction false} InsertSorted(z: seq<Entry>, e: Entry)
    requires Sorted(z) && e !in z
    ensures Sorted(Insert(z, e))
  {
    if z != [] {
      if Before(e, z[0]) {
        forall x | x in z ensures Before(e, x) {
          if x != z[0] { BeforeTransitive(e, z[0], x); }
        }
        SortedCons(e, z);
      } else {
        BeforeTotal(e, z[0]);
        assert z[0] in z && z[0] != e;
        InsertSorted(z[1..], e);
        SortedCons(z[0], Insert(z[1..], e));
      }
    }
  }

  lemma {:induction false} RemoveSorted(z: seq<Entry>, id: string)
    requires Sorted(z)
    ensures Sorted(Remove(z, id))
  {
    if z != [] {
      RemoveSorted(z[1..], id);
      if z[0].id != id { SortedCons(z[0], Remove(z[1..], id)); }
    }
  }

  /** Two sorted sequences with the same members are equal. */
  lemma {:induction false} SortedUnique(a: seq<Entry>, b: seq<Entry>)
    requires Sorted(a) && Sorted(b) && forall x :: x in a <==> x in b
    ensures a == b
    decreases |a|
  {
    assert b != [] ==> b[0] in a;
    assert a != [] ==> a[0] in b;
    if a != [] {
      BeforeTotal(a[0], b[0]);
      SortedTail(a);
      SortedTail(b);
      SortedUnique(a[1..], b[1..]);
      assert a == [a[0]] + a[1..] && b == [b[0]] + b[1..];
    }
  }

  lemma SortedTail(a: seq<Entry>)
    requires Sorted(a) && a != []
    ensures Sorted(a[1..]) && forall x :: x in a[1..] <==> x in a && x != a[0]
  {
    assert a == [a[0]] + a[1..];
    forall x | x in a[1..] ensures x != a[0] { BeforeTotal(a[0], x); }
  }
}
