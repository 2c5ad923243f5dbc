// The byte-wise string order that scope keys, folder paths and identities are
// sorted by, and lists without repetitions, sorted ones among them.
module Ordering {

  ghost predicate Distinct<T>(xs: seq<T>) {
    forall i, j :: 0 <= i < j < |xs| ==> xs[i] != xs[j]
  }

  predicate Less(a: string, b: string) {
    b != [] && (a == [] || a[0] < b[0] || (a[0] == b[0] && Less(a[1..], b[1..])))
  }

  lemma {:induction false} Irreflexive(a: string)
    ensures !Less(a, a)
  {
    if a != [] {
      Irreflexive(a[1..]);
    }
  }

  lemma {:induction false} Transitive(a: string, b: string, c: string)
    requires Less(a, b) && Less(b, c)
    ensures Less(a, c)
  {
    if a != [] && a[0] == b[0] && b[0] == c[0] {
      Transitive(a[1..], b[1..], c[1..]);
    }
  }

  lemma {:induction false} Total(a: string, b: string)
    ensures a == b || Less(a, b) || Less(b, a)
  {
    if a != [] && b != [] && a[0] == b[0] {
      Total(a[1..], b[1..]);
      if a[1..] == b[1..] {
        assert a == [a[0]] + a[1..] && b == [b[0]] + b[1..];
      }
    }
  }

  ghost predicate StrictlyAscending(keys: seq<string>) {
    forall i, j :: 0 <= i < j < |keys| ==> Less(keys[i], keys[j])
  }

  // Puts one key into a strictly ascending list; a key that is there already is
  // not repeated.
  function InsertKey(k: string, keys: seq<string>): (r: seq<string>)
    requires StrictlyAscending(keys)
    ensures StrictlyAscending(r)
    ensures forall x :: x in r <==> x == k || x in keys
  {
    if keys == [] then [k]
    else if keys[0] == k then keys
    else if Less(k, keys[0]) then
      assert forall i :: 0 <= i < |keys| ==> Less(k, keys[i]) by {
        forall i | 0 < i < |keys| ensures Less(k, keys[i]) { Transitive(k, keys[0], keys[i]); }
      }
      [k] + keys
    else
      Total(k, keys[0]);
      var rest := InsertKey(k, keys[1..]);
      assert forall x :: x in keys <==> x == keys[0] || x in keys[1..];
      assert forall i :: 0 <= i < |rest| ==> rest[i] in rest && (rest[i] == k || rest[i] in keys[1..]);
      [keys[0]] + rest
  }

  // The keys of a list sorted and with repetitions dropped, as a sort followed
  // by a compaction leaves them.
  function SortedKeys(keys: seq<string>): (r: seq<string>)
    ensures StrictlyAscending(r)
    ensures forall x :: x in r <==> x in keys
  {
    if keys == [] then []
    else
      assert forall x :: x in keys <==> x == keys[0] || x in keys[1..];
      InsertKey(keys[0], SortedKeys(keys[1..]))
  }

  // There is only one such list, whatever order the keys came in.
  lemma {:induction false} SortedKeysUnique(a: seq<string>, b: seq<string>)
    requires StrictlyAscending(a) && StrictlyAscending(b)
    requires forall x :: x in a <==> x in b
    ensures a == b
  {
    assert (a != [] ==> a[0] in b) && (b != [] ==> b[0] in a);
    if a != [] {
      var i :| 0 <= i < |b| && b[i] == a[0];
      var j :| 0 <= j < |a| && a[j] == b[0];
      if i > 0 && j > 0 {
        Transitive(a[0], a[j], b[i]);
        Irreflexive(a[0]);
      }
      assert a[0] == b[0];
      forall x ensures x in a[1..] <==> x in b[1..] {
        TailMembers(a, x);
        TailMembers(b, x);
      }
      SortedKeysUnique(a[1..], b[1..]);
    }
  }

  lemma TailMembers(a: seq<string>, x: string)
    requires StrictlyAscending(a) && a != []
    ensures x in a[1..] <==> x in a && x != a[0]
  {
    if x in a[1..] {
      var i :| 0 < i < |a| && a[i] == x;
      Irreflexive(a[0]);
    }
  }
}
