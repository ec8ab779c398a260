/**
 The typo check on a skill's front matter: how many edits lie between two keys,
 and the known key that is one edit away.
 */
module Skills {
  import opened Common

  // The program compares UTF-16 code units; nothing here depends on what a text is made of.

  // ---- edits -----------------------------------------------------------------

  /** `b` is `a` with one character put in at `k`. */
  predicate Inserted<T(==)>(a: seq<T>, b: seq<T>, k: nat) {
    |b| == |a| + 1 && k <= |a| && b[..k] == a[..k] && b[k + 1..] == a[k..]
  }

  /** `b` is `a` with the character at `k` exchanged for another. */
  predicate Replaced<T(==)>(a: seq<T>, b: seq<T>, k: nat) {
    |b| == |a| && k < |a| && b[..k] == a[..k] && b[k] != a[k] && b[k + 1..] == a[k + 1..]
  }

  predicate EditedAt<T(==)>(a: seq<T>, b: seq<T>, k: nat) {
    Inserted(a, b, k) || Inserted(b, a, k) || Replaced(a, b, k)
  }

  /** One character put in, taken out or exchanged. */
  ghost predicate OneEdit<T>(a: seq<T>, b: seq<T>) {
    exists k: nat :: EditedAt(a, b, k)
  }

  /** Whether `edits` edits, one after another, lead from `a` to `b`. */
  ghost predicate Leads<T(!new)>(a: seq<T>, b: seq<T>, edits: nat)
    decreases edits
  {
    if edits == 0 then a == b
    else exists mid: seq<T> :: Leads(a, mid, edits - 1) && OneEdit(mid, b)
  }

  // ---- the distance ------------------------------------------------------------

  function Min(a: nat, b: nat): nat { if a < b then a else b }

  function Last<T>(a: seq<T>): T
    requires a != []
  {
    a[|a| - 1]
  }

  function Front<T>(a: seq<T>): seq<T>
    requires a != []
  {
    a[..|a| - 1]
  }

  /** The distance as it is defined, from the last characters back. */
  function Dist<T(==)>(a: seq<T>, b: seq<T>): nat
    decreases |a| + |b|
  {
    if a == [] then |b|
    else if b == [] then |a|
    else
      Min(Min(Dist(Front(a), b) + 1, Dist(a, Front(b)) + 1),
          Dist(Front(a), Front(b)) + if Last(a) == Last(b) then 0 else 1)
  }

  // ---- no shorter way ------------------------------------------------------------

  /** Dropping the last character of either side costs at most one more edit. */
  lemma {:induction false} DroppingCostsOne<T>(a: seq<T>, b: seq<T>)
    requires b != []
    ensures Dist(a, Front(b)) <= Dist(a, b) + 1
    ensures Dist(a, b) <= Dist(a, Front(b)) + 1
    decreases |a| + |b|
  {
    if a != [] {
      DroppingCostsOne(Front(a), b);
    }
  }

  lemma {:induction false} InsertingCostsOne<T>(a: seq<T>, b: seq<T>, c: seq<T>, k: nat)
    requires Inserted(b, c, k)
    ensures Dist(a, c) <= Dist(a, b) + 1 && Dist(a, b) <= Dist(a, c) + 1
    decreases |a| + |b|
  {
    if k == |b| {
      assert Front(c) == b;
      DroppingCostsOne(a, c);
    } else {
      InsertedInFront(b, c, k);
      if a != [] {
        InsertingCostsOne(Front(a), b, c, k);
        InsertingCostsOne(a, Front(b), Front(c), k);
        InsertingCostsOne(Front(a), Front(b), Front(c), k);
      }
    }
  }

  lemma InsertedInFront<T>(b: seq<T>, c: seq<T>, k: nat)
    requires Inserted(b, c, k) && k < |b|
    ensures Inserted(Front(b), Front(c), k) && Last(b) == Last(c)
  {
    assert Last(c) == c[k + 1..][|b| - k - 1] == b[k..][|b| - k - 1];
    assert Front(c)[k + 1..] == c[k + 1..][..|b| - k - 1];
    assert Front(b)[k..] == b[k..][..|b| - k - 1];
    assert Front(c)[..k] == c[..k] && Front(b)[..k] == b[..k];
  }

  lemma {:induction false} ReplacingCostsOne<T>(a: seq<T>, b: seq<T>, c: seq<T>, k: nat)
    requires Replaced(b, c, k)
    ensures Dist(a, c) <= Dist(a, b) + 1
    decreases |a| + |b|
  {
    if a != [] {
      ReplacingCostsOne(Front(a), b, c, k);
      if k == |b| - 1 {
        assert Front(b) == Front(c);
      } else {
        ReplacedInFront(b, c, k);
        ReplacingCostsOne(a, Front(b), Front(c), k);
        ReplacingCostsOne(Front(a), Front(b), Front(c), k);
      }
    }
  }

  lemma ReplacedInFront<T>(b: seq<T>, c: seq<T>, k: nat)
    requires Replaced(b, c, k) && k < |b| - 1
    ensures Replaced(Front(b), Front(c), k) && Last(b) == Last(c)
  {
    var n := |b| - k - 2;
    assert Last(c) == c[k + 1..][n] == b[k + 1..][n];
    assert Front(c)[k + 1..] == c[k + 1..][..n];
    assert Front(b)[k + 1..] == b[k + 1..][..n];
    assert Front(c)[..k] == c[..k] && Front(b)[..k] == b[..k];
  }

  lemma AnEditCostsOne<T>(a: seq<T>, b: seq<T>, c: seq<T>)
    requires OneEdit(b, c)
    ensures Dist(a, c) <= Dist(a, b) + 1
  {
    var k: nat :| EditedAt(b, c, k);
    if Inserted(b, c, k) {
      InsertingCostsOne(a, b, c, k);
    } else if Inserted(c, b, k) {
      InsertingCostsOne(a, c, b, k);
    } else {
      ReplacingCostsOne(a, b, c, k);
    }
  }

  lemma {:induction false} NoDistanceToItself<T>(a: seq<T>)
    ensures Dist(a, a) == 0
    decreases |a|
  {
    if a != [] {
      NoDistanceToItself(Front(a));
    }
  }

  /** However the edits are chosen, there are at least as many as the distance. */
  lemma {:induction false} NoFewerEdits<T(!new)>(a: seq<T>, b: seq<T>, edits: nat)
    requires Leads(a, b, edits)
    ensures Dist(a, b) <= edits
    decreases edits
  {
    if edits == 0 {
      NoDistanceToItself(a);
    } else {
      var mid: seq<T> :| Leads(a, mid, edits - 1) && OneEdit(mid, b);
      NoFewerEdits(a, mid, edits - 1);
      AnEditCostsOne(a, mid, b);
    }
  }

  // ---- a way that short ------------------------------------------------------------

  lemma TheLastOneIsAnEdit<T>(a: seq<T>)
    requires a != []
    ensures OneEdit(Front(a), a) && OneEdit(a, Front(a))
  {
    assert Inserted(Front(a), a, |a| - 1);
    assert EditedAt(Front(a), a, |a| - 1) && EditedAt(a, Front(a), |a| - 1);
  }

  lemma AnEditBeforeMore<T>(a: seq<T>, b: seq<T>, x: T)
    requires OneEdit(a, b)
    ensures OneEdit(a + [x], b + [x])
  {
    var k: nat :| EditedAt(a, b, k);
    if Inserted(a, b, k) {
      InsertedBeforeMore(a, b, k, x);
    } else if Inserted(b, a, k) {
      InsertedBeforeMore(b, a, k, x);
    } else {
      assert (a + [x])[..k] == a[..k] && (b + [x])[..k] == b[..k];
      assert (a + [x])[k + 1..] == a[k + 1..] + [x] && (b + [x])[k + 1..] == b[k + 1..] + [x];
    }
    assert EditedAt(a + [x], b + [x], k);
  }

  lemma InsertedBeforeMore<T>(a: seq<T>, b: seq<T>, k: nat, x: T)
    requires Inserted(a, b, k)
    ensures Inserted(a + [x], b + [x], k)
  {
    assert (a + [x])[..k] == a[..k] && (b + [x])[..k] == b[..k];
    assert (a + [x])[k..] == a[k..] + [x] && (b + [x])[k + 1..] == b[k + 1..] + [x];
  }

  lemma {:induction false} LeadsBeforeMore<T(!new)>(a: seq<T>, b: seq<T>, edits: nat, x: T)
    requires Leads(a, b, edits)
    ensures Leads(a + [x], b + [x], edits)
    decreases edits
  {
    if edits > 0 {
      var mid: seq<T> :| Leads(a, mid, edits - 1) && OneEdit(mid, b);
      LeadsBeforeMore(a, mid, edits - 1, x);
      AnEditBeforeMore(mid, b, x);
    }
  }

  lemma {:induction false} OneEditFirst<T(!new)>(a: seq<T>, mid: seq<T>, b: seq<T>, edits: nat)
    requires OneEdit(a, mid) && Leads(mid, b, edits)
    ensures Leads(a, b, edits + 1)
    decreases edits
  {
    if edits == 0 {
      assert Leads(a, a, 0);
    } else {
      var next: seq<T> :| Leads(mid, next, edits - 1) && OneEdit(next, b);
      OneEditFirst(a, mid, next, edits - 1);
    }
  }

  lemma OneEditLast<T(!new)>(a: seq<T>, mid: seq<T>, b: seq<T>, edits: nat)
    requires Leads(a, mid, edits) && OneEdit(mid, b)
    ensures Leads(a, b, edits + 1)
  {
  }

  /** As many edits as the distance do lead from one to the other. */
  lemma {:induction false} ThatManyEdits<T(!new)>(a: seq<T>, b: seq<T>)
    ensures Leads(a, b, Dist(a, b))
    decreases |a| + |b|
  {
    if a == [] && b == [] {
    } else if a == [] {
      ThatManyEdits(a, Front(b));
      TheLastOneIsAnEdit(b);
      OneEditLast(a, Front(b), b, |b| - 1);
    } else if b == [] {
      ThatManyEdits(Front(a), b);
      TheLastOneIsAnEdit(a);
      OneEditFirst(a, Front(a), b, |a| - 1);
    } else {
      ThatManyOverTheLast(a, b);
    }
  }

  lemma {:induction false} ThatManyOverTheLast<T(!new)>(a: seq<T>, b: seq<T>)
    requires a != [] && b != []
    ensures Leads(a, b, Dist(a, b))
    decreases |a| + |b|, 0
  {
    var front := Dist(Front(a), Front(b));
    if Dist(a, b) == Dist(Front(a), b) + 1 {
      ThatManyEdits(Front(a), b);
      TheLastOneIsAnEdit(a);
      OneEditFirst(a, Front(a), b, Dist(Front(a), b));
    } else if Dist(a, b) == Dist(a, Front(b)) + 1 {
      ThatManyEdits(a, Front(b));
      TheLastOneIsAnEdit(b);
      OneEditLast(a, Front(b), b, Dist(a, Front(b)));
    } else {
      ThatManyEdits(Front(a), Front(b));
      OverTheLast(a, b, front);
    }
  }

  lemma OverTheLast<T(!new)>(a: seq<T>, b: seq<T>, edits: nat)
    requires a != [] && b != [] && Leads(Front(a), Front(b), edits)
    ensures Leads(a, b, edits + if Last(a) == Last(b) then 0 else 1)
  {
    LeadsBeforeMore(Front(a), Front(b), edits, Last(a));
    assert a == Front(a) + [Last(a)] && b == Front(b) + [Last(b)];
    if Last(a) != Last(b) {
      ExchangingTheLast(b, Last(a));
      OneEditLast(a, Front(b) + [Last(a)], b, edits);
    }
  }

  lemma ExchangingTheLast<T>(b: seq<T>, x: T)
    requires b != [] && Last(b) != x
    ensures OneEdit(Front(b) + [x], b)
  {
    var n := |b| - 1;
    var mid := Front(b) + [x];
    assert mid[..n] == b[..n] && mid[n + 1..] == b[n + 1..];
    assert EditedAt(mid, b, n);
  }

  /** The distance is the least number of edits that lead from one to the other. */
  lemma DistIsFewestEdits<T(!new)>(a: seq<T>, b: seq<T>, edits: nat)
    ensures Leads(a, b, Dist(a, b))
    ensures Leads(a, b, edits) ==> Dist(a, b) <= edits
  {
    ThatManyEdits(a, b);
    if Leads(a, b, edits) {
      NoFewerEdits(a, b, edits);
    }
  }

  lemma DistIsOneIff<T(!new)>(a: seq<T>, b: seq<T>)
    ensures Dist(a, b) == 1 <==> OneEdit(a, b)
  {
    ThatManyEdits(a, b);
    if Dist(a, b) == 1 {
      var mid: seq<T> :| Leads(a, mid, 0) && OneEdit(mid, b);
    }
    if OneEdit(a, b) {
      assert Leads(a, a, 0) && Leads(a, b, 1);
      NoFewerEdits(a, b, 1);
      var k: nat :| EditedAt(a, b, k);
      assert a != b;
    }
  }

  /** The difference in length is already that many edits. */
  lemma {:induction false} LengthsAreEdits<T>(a: seq<T>, b: seq<T>)
    ensures |a| <= |b| + Dist(a, b) && |b| <= |a| + Dist(a, b)
    decreases |a| + |b|
  {
    if a != [] && b != [] {
      LengthsAreEdits(Front(a), b);
      LengthsAreEdits(a, Front(b));
      LengthsAreEdits(Front(a), Front(b));
    }
  }

  // ---- the program -------------------------------------------------------------------

  lemma Cell<T>(a: seq<T>, b: seq<T>, i: nat, j: nat)
    requires 1 <= i <= |a| && 1 <= j <= |b|
    ensures Dist(a[..i], b[..j]) ==
            Min(Min(Dist(a[..i - 1], b[..j]) + 1, Dist(a[..i], b[..j - 1]) + 1),
                Dist(a[..i - 1], b[..j - 1]) + if a[i - 1] == b[j - 1] then 0 else 1)
  {
    Beginning(a, i);
    Beginning(b, j);
  }

  lemma Beginning<T>(a: seq<T>, i: nat)
    requires 1 <= i <= |a|
    ensures a[..i] != [] && Front(a[..i]) == a[..i - 1] && Last(a[..i]) == a[i - 1]
  {
  }

  /** One row of distances: of `a[..i]` to every beginning of `b`. */
  predicate IsRow<T(==)>(row: seq<nat>, a: seq<T>, b: seq<T>, i: nat)
    requires i <= |a| && |row| <= |b| + 1
  {
    forall j :: 0 <= j < |row| ==> row[j] == Dist(a[..i], b[..j])
  }

  lemma CellOfRow<T>(a: seq<T>, b: seq<T>, i: nat, j: nat, row: seq<nat>, next: seq<nat>, cell: nat)
    requires 1 <= i <= |a| && 1 <= j <= |b|
    requires |row| == |b| + 1 && IsRow(row, a, b, i - 1)
    requires |next| == j && IsRow(next, a, b, i)
    requires cell == Min(Min(row[j] + 1, next[j - 1] + 1), row[j - 1] + if a[i - 1] == b[j - 1] then 0 else 1)
    ensures cell == Dist(a[..i], b[..j])
  {
    Cell(a, b, i, j);
    assert row[j] == Dist(a[..i - 1], b[..j]);
    assert row[j - 1] == Dist(a[..i - 1], b[..j - 1]);
    assert next[j - 1] == Dist(a[..i], b[..j - 1]);
  }

  /** How many edits, stopped at two; only the row before is ever kept. */
  method EditsBetween<T(==)>(a: seq<T>, b: seq<T>) returns (edits: nat)
    ensures edits == Min(2, Dist(a, b))
  {
    LengthsAreEdits(a, b);
    if |a| > |b| + 1 || |b| > |a| + 1 {
      return 2;
    }
    var row: seq<nat> := seq(|b| + 1, i => i);
    for i := 1 to |a| + 1
      invariant |row| == |b| + 1 && IsRow(row, a, b, i - 1)
    {
      row := NextRow(a, b, i, row);
    }
    assert a[..|a|] == a && b[..|b|] == b;
    edits := Min(2, row[|b|]);
  }

  method NextRow<T(==)>(a: seq<T>, b: seq<T>, i: nat, row: seq<nat>) returns (next: seq<nat>)
    requires 1 <= i <= |a| && |row| == |b| + 1 && IsRow(row, a, b, i - 1)
    ensures |next| == |b| + 1 && IsRow(next, a, b, i)
  {
    next := [i];
    for j := 1 to |b| + 1
      invariant |next| == j && IsRow(next, a, b, i)
    {
      var cell := Min(Min(row[j] + 1, next[j - 1] + 1), row[j - 1] + if a[i - 1] == b[j - 1] then 0 else 1);
      CellOfRow(a, b, i, j, row, next, cell);
      next := next + [cell];
    }
  }

  /** The first known key that is one edit from this one. */
  method Nearly<T(==,!new)>(key: seq<T>, known: seq<seq<T>>) returns (meant: Option<seq<T>>)
    ensures meant.None? ==> forall k :: k in known ==> !OneEdit(key, k)
    ensures meant.Some? ==> exists n: nat :: n < |known| && known[n] == meant.value && OneEdit(key, known[n])
                              && forall m :: 0 <= m < n ==> !OneEdit(key, known[m])
  {
    for n := 0 to |known|
      invariant forall m :: 0 <= m < n ==> !OneEdit(key, known[m])
    {
      var edits := EditsBetween(key, known[n]);
      DistIsOneIff(key, known[n]);
      if edits == 1 {
        return Some(known[n]);
      }
    }
    meant := None;
  }
}
