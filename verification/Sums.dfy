// Sums over finite sets, in no particular order.
module Sums {

  ghost function AnyOf<T(!new)>(s: set<T>): (x: T)
    requires s != {}
    ensures x in s
  {
    var x :| x in s;
    x
  }

  ghost function SumOf<T(!new)>(v: T -> int, s: set<T>): int {
    if s == {} then 0
    else
      var x := AnyOf(s);
      SumOf(v, s - {x}) + v(x)
  }

  lemma {:induction false} SumTakeOut<T(!new)>(v: T -> int, s: set<T>, x: T)
    requires x in s
    ensures SumOf(v, s) == SumOf(v, s - {x}) + v(x)
  {
    var y := AnyOf(s);
    if x != y {
      assert s - {y} - {x} == s - {x} - {y};
      SumTakeOut(v, s - {y}, x);
      SumTakeOut(v, s - {x}, y);
    }
  }

  lemma SumAdds<T(!new)>(v: T -> int, s: set<T>, x: T)
    requires x !in s
    ensures SumOf(v, s + {x}) == SumOf(v, s) + v(x)
  {
    SumTakeOut(v, s + {x}, x);
    assert s + {x} - {x} == s;
  }
}
