/**
 A set iterated in the order of its elements' names, which is what a
 `BTreeSet<String>` is. Held as a sequence without repetitions, so that the
 order in which a reader closes what it left open is part of the model.
 */
module OrderedSets {

  /** Strict lexicographic order on names. */
  predicate Before(a: string, b: string) {
    if b == "" then false
    else if a == "" then true
    else if a[0] != b[0] then a[0] < b[0]
    else Before(a[1..], b[1..])
  }

  /** The names part at `k`: there the first ends, or has the lesser character. */
  predicate PartsAt(a: string, b: string, k: nat) {
    && k <= |a| && k < |b| && a[..k] == b[..k] && (k == |a| || a[k] < b[k])
  }

  lemma {:induction false} BeforeIff(a: string, b: string)
    ensures Before(a, b) <==> exists k: nat :: PartsAt(a, b, k)
  {
    forall k: nat | PartsAt(a, b, k) && k > 0 ensures a != "" && b != "" && a[0] == b[0] {
      assert a[..k][0] == b[..k][0];
    }
    if b != "" && a != "" && a[0] == b[0] {
      BeforeIff(a[1..], b[1..]);
      if Before(a, b) {
        var k: nat :| PartsAt(a[1..], b[1..], k);
        assert a[..k + 1] == [a[0]] + a[1..][..k] && b[..k + 1] == [b[0]] + b[1..][..k];
        assert PartsAt(a, b, k + 1);
      }
      if k: nat :| PartsAt(a, b, k) {
        assert k > 0 && a[1..][..k - 1] == a[..k][1..] && b[1..][..k - 1] == b[..k][1..];
        assert PartsAt(a[1..], b[1..], k - 1);
      }
    } else if Before(a, b) {
      assert PartsAt(a, b, 0);
    }
  }

  lemma {:induction false} BeforeIsTransitive(a: string, b: string, c: string)
    requires Before(a, b) && Before(b, c)
    ensures Before(a, c)
  {
    if a != "" && a[0] == b[0] && b[0] == c[0] {
      BeforeIsTransitive(a[1..], b[1..], c[1..]);
    }
  }

  lemma {:induction false} BeforeIsTotal(a: string, b: string)
    ensures a == b || Before(a, b) || Before(b, a)
    ensures !(Before(a, b) && Before(b, a))
  {
    if a != "" && b != "" && a[0] == b[0] {
      BeforeIsTotal(a[1..], b[1..]);
      assert a == [a[0]] + a[1..] && b == [b[0]] + b[1..];
    }
  }

  function Elements<T>(s: seq<T>): set<T> {
    set x | x in s
  }

  ghost predicate Distinct<T>(s: seq<T>) {
    forall i, j :: 0 <= i < j < |s| ==> s[i] != s[j]
  }

  /** No element comes after one whose name is later than its own. */
  ghost predicate Ordered<T>(s: seq<T>, name: T -> string) {
    forall i, j :: 0 <= i < j < |s| ==> !Before(name(s[j]), name(s[i]))
  }

  lemma ConsElements<T>(x: T, s: seq<T>)
    ensures Elements([x] + s) == {x} + Elements(s)
    ensures Distinct([x] + s) <==> x !in s && Distinct(s)
  {
    var all := [x] + s;
    assert forall i :: 0 <= i < |s| ==> all[i + 1] == s[i];
    assert all[0] == x;
    if Distinct(all) {
      forall i, j | 0 <= i < j < |s| ensures s[i] != s[j] {
        assert all[i + 1] != all[j + 1];
      }
      forall i | 0 <= i < |s| ensures s[i] != x {
        assert all[0] != all[i + 1];
      }
    }
  }

  /** Add `x` where its name puts it; a set that holds it already is unchanged. */
  function Insert<T(==)>(s: seq<T>, x: T, name: T -> string): seq<T> {
    if x in s then s
    else if s == [] || Before(name(x), name(s[0])) then [x] + s
    else [s[0]] + Insert(s[1..], x, name)
  }

  /** Take `x` out, keeping the order of the rest. */
  function Without<T(==)>(s: seq<T>, x: T): seq<T> {
    if s == [] then []
    else if s[0] == x then Without(s[1..], x)
    else [s[0]] + Without(s[1..], x)
  }

  lemma {:induction false} InsertAdds<T>(s: seq<T>, x: T, name: T -> string)
    ensures Elements(Insert(s, x, name)) == Elements(s) + {x}
    ensures Distinct(s) ==> Distinct(Insert(s, x, name))
  {
    if x in s {
    } else if s == [] || Before(name(x), name(s[0])) {
      ConsElements(x, s);
    } else {
      var rest := Insert(s[1..], x, name);
      InsertAdds(s[1..], x, name);
      assert s == [s[0]] + s[1..];
      assert s[0] in rest ==> s[0] in Elements(rest);
      ConsElements(s[0], s[1..]);
      ConsElements(s[0], rest);
    }
  }

  lemma {:induction false} WithoutRemoves<T>(s: seq<T>, x: T)
    ensures Elements(Without(s, x)) == Elements(s) - {x}
    ensures Distinct(s) ==> Distinct(Without(s, x))
  {
    if s != [] {
      var rest := Without(s[1..], x);
      WithoutRemoves(s[1..], x);
      assert s == [s[0]] + s[1..];
      assert s[0] in rest ==> s[0] in Elements(rest);
      ConsElements(s[0], s[1..]);
      ConsElements(s[0], rest);
    }
  }

  lemma {:induction false} InsertKeepsOrder<T>(s: seq<T>, x: T, name: T -> string)
    requires Ordered(s, name)
    ensures Ordered(Insert(s, x, name), name)
  {
    if x in s || s == [] {
    } else if Before(name(x), name(s[0])) {
      forall j | 0 <= j < |s| ensures !Before(name(s[j]), name(x)) {
        if Before(name(s[j]), name(x)) {
          BeforeIsTransitive(name(s[j]), name(x), name(s[0]));
          BeforeIsTotal(name(s[0]), name(s[j]));
        }
      }
    } else {
      InsertKeepsOrder(s[1..], x, name);
      var rest := Insert(s[1..], x, name);
      InsertAdds(s[1..], x, name);
      forall j | 0 <= j < |rest| ensures !Before(name(rest[j]), name(s[0])) {
        assert rest[j] in Elements(rest);
      }
    }
  }

  lemma {:induction false} WithoutKeepsOrder<T>(s: seq<T>, x: T, name: T -> string)
    requires Ordered(s, name)
    ensures Ordered(Without(s, x), name)
  {
    if s != [] {
      WithoutKeepsOrder(s[1..], x, name);
      var rest := Without(s[1..], x);
      WithoutRemoves(s[1..], x);
      forall j | 0 <= j < |rest| ensures !Before(name(rest[j]), name(s[0])) {
        assert rest[j] in Elements(rest);
      }
    }
  }

  /** The order of two sequences with the same names is the same. */
  lemma SameNamesSameOrder<S, T>(s: seq<S>, name: S -> string, t: seq<T>, title: T -> string)
    requires |s| == |t| && (forall i :: 0 <= i < |s| ==> name(s[i]) == title(t[i]))
    requires Ordered(s, name)
    ensures Ordered(t, title)
  {
    forall i, j | 0 <= i < j < |t| ensures !Before(title(t[j]), title(t[i])) {
      assert !Before(name(s[j]), name(s[i]));
    }
  }
}
