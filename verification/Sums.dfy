/** Sums over finite sets of ids. */
module Sums {
  /** The sum of a quantity over a set of ids. */
  ghost function Sum(f: nat -> int, ids: set<nat>): int {
    if ids == {} then 0
    else
      var id :| id in ids;
      f(id) + Sum(f, ids - {id})
  }

  lemma {:induction false} SumTakes(f: nat -> int, ids: set<nat>, id: nat)
    requires id in ids
    ensures Sum(f, ids) == f(id) + Sum(f, ids - {id})
    decreases |ids|
  {
    var first :| first in ids && Sum(f, ids) == f(first) + Sum(f, ids - {first});
    if first != id {
      SumTakes(f, ids - {first}, id);
      SumTakes(f, ids - {id}, first);
      assert ids - {first} - {id} == ids - {id} - {first};
    }
  }

  lemma {:induction false} SumOfDisjoint(f: nat -> int, a: set<nat>, b: set<nat>)
    requires a !! b
    ensures Sum(f, a + b) == Sum(f, a) + Sum(f, b)
    decreases |a|
  {
    if a == {} {
      assert a + b == b;
    } else {
      var id :| id in a;
      SumTakes(f, a, id);
      SumTakes(f, a + b, id);
      assert a + b - {id} == (a - {id}) + b;
      SumOfDisjoint(f, a - {id}, b);
    }
  }

  lemma SumOfUnion(f: nat -> int, a: set<nat>, b: set<nat>)
    ensures Sum(f, a + b) + Sum(f, a * b) == Sum(f, a) + Sum(f, b)
  {
    assert a + b == (a - b) + b && a == (a - b) + a * b;
    SumOfDisjoint(f, a - b, b);
    SumOfDisjoint(f, a - b, a * b);
  }

  lemma {:induction false} SumNonNegative(f: nat -> int, ids: set<nat>)
    requires forall id :: id in ids ==> f(id) >= 0
    ensures Sum(f, ids) >= 0
    decreases |ids|
  {
    if ids != {} {
      var id :| id in ids;
      SumTakes(f, ids, id);
      SumNonNegative(f, ids - {id});
    }
  }

  lemma {:induction false} SumAtMost(f: nat -> int, g: nat -> int, ids: set<nat>)
    requires forall id :: id in ids ==> f(id) <= g(id)
    ensures Sum(f, ids) <= Sum(g, ids)
    decreases |ids|
  {
    if ids != {} {
      var id :| id in ids;
      SumTakes(f, ids, id);
      SumTakes(g, ids, id);
      SumAtMost(f, g, ids - {id});
    }
  }

  lemma {:induction false} SumCounts(f: nat -> int, ids: set<nat>)
    requires forall id :: id in ids ==> f(id) >= 1
    ensures Sum(f, ids) >= |ids|
    decreases |ids|
  {
    if ids != {} {
      var id :| id in ids;
      SumTakes(f, ids, id);
      SumCounts(f, ids - {id});
    }
  }
}
