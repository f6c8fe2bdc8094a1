/** The list operations the source performs with `filter`, `map`, `findIndex`
    and `arrayMove`, over records identified by a string key (their `id`). */
module Seqs {

  /** `a` is `b` with some elements deleted: the order of what is kept is unchanged. */
  ghost predicate SubsequenceOf<T>(a: seq<T>, b: seq<T>)
    decreases |b|
  {
    if |a| == 0 then true
    else if |b| == 0 then false
    else (a[0] == b[0] && SubsequenceOf(a[1..], b[1..])) || SubsequenceOf(a, b[1..])
  }

  /** No two elements of `s` share a key. */
  ghost predicate KeysDistinct<T>(s: seq<T>, key: T -> string) {
    forall i, j :: 0 <= i < j < |s| ==> key(s[i]) != key(s[j])
  }

  /** Some element of `s` has key `id`. */
  ghost predicate HasKey<T>(s: seq<T>, key: T -> string, id: string) {
    exists i :: 0 <= i < |s| && key(s[i]) == id
  }

  /** `s.filter(x => key(x) !== id)`. */
  function RemoveKey<T(==)>(s: seq<T>, key: T -> string, id: string): (r: seq<T>)
    ensures |r| <= |s|
    ensures forall i :: 0 <= i < |r| ==> key(r[i]) != id
    ensures forall x :: x in r ==> x in s
    ensures SubsequenceOf(r, s)
    ensures !HasKey(s, key, id) ==> r == s
  {
    if |s| == 0 then []
    else
      assert s == [s[0]] + s[1..];
      assert HasKey(s[1..], key, id) ==> HasKey(s, key, id) by {
        if HasKey(s[1..], key, id) {
          var j :| 0 <= j < |s[1..]| && key(s[1..][j]) == id;
          assert s[j + 1] == s[1..][j];
        }
      }
      var rest := RemoveKey(s[1..], key, id);
      if key(s[0]) == id then rest
      else
        assert ([s[0]] + rest)[1..] == rest;
        [s[0]] + rest
  }

  /** Every element kept by `RemoveKey` is an element of the input. */
  lemma RemoveKeyMembers<T>(s: seq<T>, key: T -> string, id: string, x: T)
    requires x in RemoveKey(s, key, id)
    ensures x in s && key(x) != id
  {
  }

  /** Removing by key keeps keys distinct. */
  lemma {:induction false} RemoveKeyKeepsDistinct<T>(s: seq<T>, key: T -> string, id: string)
    requires KeysDistinct(s, key)
    ensures KeysDistinct(RemoveKey(s, key, id), key)
    decreases |s|
  {
    if |s| > 0 {
      var rest := RemoveKey(s[1..], key, id);
      assert KeysDistinct(s[1..], key);
      RemoveKeyKeepsDistinct(s[1..], key, id);
      if key(s[0]) != id {
        var r := [s[0]] + rest;
        forall j | 1 <= j < |r| ensures key(r[0]) != key(r[j]) {
          RemoveKeyMembers(s[1..], key, id, r[j]);
          var k :| 0 <= k < |s[1..]| && s[1..][k] == r[j];
          assert s[k + 1] == r[j];
        }
      }
    }
  }

  /** With distinct keys, removing by key deletes at most one element. */
  lemma {:induction false} RemoveKeyDropsAtMostOne<T>(s: seq<T>, key: T -> string, id: string)
    requires KeysDistinct(s, key)
    ensures |RemoveKey(s, key, id)| >= |s| - 1
    decreases |s|
  {
    if |s| > 0 {
      assert KeysDistinct(s[1..], key);
      if key(s[0]) == id {
        assert !HasKey(s[1..], key, id);
      } else {
        RemoveKeyDropsAtMostOne(s[1..], key, id);
      }
    }
  }

  /** `s.map(x => key(x) === id ? f(x) : x)`. */
  function UpdateKey<T>(s: seq<T>, key: T -> string, id: string, f: T -> T): (r: seq<T>)
    ensures |r| == |s|
    ensures forall i :: 0 <= i < |s| ==> r[i] == if key(s[i]) == id then f(s[i]) else s[i]
    ensures !HasKey(s, key, id) ==> r == s
  {
    seq(|s|, i requires 0 <= i < |s| => if key(s[i]) == id then f(s[i]) else s[i])
  }

  /** `s.findIndex(x => key(x) === id)`: the first index with that key, or -1. */
  function FindIndex<T>(s: seq<T>, key: T -> string, id: string): (r: int)
    ensures -1 <= r < |s|
    ensures r >= 0 ==> key(s[r]) == id && forall j :: 0 <= j < r ==> key(s[j]) != id
    ensures r == -1 <==> !HasKey(s, key, id)
  {
    if |s| == 0 then -1
    else if key(s[0]) == id then 0
    else
      var k := FindIndex(s[1..], key, id);
      assert HasKey(s, key, id) ==> HasKey(s[1..], key, id) by {
        if HasKey(s, key, id) {
          var j :| 0 <= j < |s| && key(s[j]) == id;
          assert key(s[1..][j - 1]) == id;
        }
      }
      if k == -1 then -1 else k + 1
  }

  /** A sequence that differs from `s` at index `i` only is `s` updated at `i`. */
  lemma PointwiseUpdateAt<T>(s: seq<T>, r: seq<T>, i: nat, y: T)
    requires i < |s| == |r| && r[i] == y
    requires forall j :: 0 <= j < |s| && j != i ==> r[j] == s[j]
    ensures r == s[i := y]
  {
  }

  /** Concatenation is associative. */
  lemma AppendAssoc<T>(a: seq<T>, b: seq<T>, c: seq<T>)
    ensures a + (b + c) == (a + b) + c
  {
  }

  /** Head and tail of a non-empty sequence with one element appended. */
  lemma SnocHeadTail<T>(s: seq<T>, x: T)
    requires |s| > 0
    ensures (s + [x])[0] == s[0] && (s + [x])[1..] == s[1..] + [x]
  {
  }

  /** `s` without its element at index `i`. */
  function RemoveAt<T>(s: seq<T>, i: nat): (r: seq<T>)
    requires i < |s|
    ensures |r| == |s| - 1
    ensures forall j :: 0 <= j < i ==> r[j] == s[j]
    ensures forall j :: i <= j < |r| ==> r[j] == s[j + 1]
  {
    s[..i] + s[i + 1..]
  }

  /** `arrayMove(s, from, to)` of dnd-kit for indices in range: take out the
      element at `from` and insert it so that it sits at index `to`. */
  function ArrayMove<T>(s: seq<T>, from: nat, to: nat): (r: seq<T>)
    requires from < |s| && to < |s|
    ensures |r| == |s|
    ensures r[to] == s[from]
    ensures RemoveAt(r, to) == RemoveAt(s, from)
  {
    var rest := RemoveAt(s, from);
    var r := rest[..to] + [s[from]] + rest[to..];
    assert RemoveAt(r, to) == rest;
    r
  }

  /** A move is a permutation. */
  lemma ArrayMovePermutes<T>(s: seq<T>, from: nat, to: nat)
    requires from < |s| && to < |s|
    ensures multiset(ArrayMove(s, from, to)) == multiset(s)
  {
    var r := ArrayMove(s, from, to);
    assert r == RemoveAt(r, to)[..to] + [r[to]] + RemoveAt(r, to)[to..];
    assert s == RemoveAt(s, from)[..from] + [s[from]] + RemoveAt(s, from)[from..];
    var rest := RemoveAt(s, from);
    calc {
      multiset(r);
      multiset(rest[..to]) + multiset{s[from]} + multiset(rest[to..]);
      { assert rest == rest[..to] + rest[to..]; }
      multiset(rest) + multiset{s[from]};
      { assert rest == rest[..from] + rest[from..]; }
      multiset(rest[..from]) + multiset{s[from]} + multiset(rest[from..]);
      multiset(s);
    }
  }

  /** Where every element of the input ends up after a move. */
  lemma ArrayMoveAt<T>(s: seq<T>, from: nat, to: nat, i: nat)
    requires from < |s| && to < |s| && i < |s|
    ensures ArrayMove(s, from, to)[i] ==
      if i == to then s[from]
      else if from <= i < to then s[i + 1]
      else if to < i <= from then s[i - 1]
      else s[i]
  {
    var r := ArrayMove(s, from, to);
    if i < to {
      assert r[i] == RemoveAt(r, to)[i];
    } else if i > to {
      assert r[i] == RemoveAt(r, to)[i - 1];
    }
  }

  /** Moving an element onto its own index changes nothing. */
  lemma ArrayMoveSameIndex<T>(s: seq<T>, i: nat)
    requires i < |s|
    ensures ArrayMove(s, i, i) == s
  {
    forall j | 0 <= j < |s| ensures ArrayMove(s, i, i)[j] == s[j] {
      ArrayMoveAt(s, i, i, j);
    }
  }

  /** A move keeps keys distinct. */
  lemma ArrayMoveKeepsDistinct<T>(s: seq<T>, from: nat, to: nat, key: T -> string)
    requires from < |s| && to < |s| && KeysDistinct(s, key)
    ensures KeysDistinct(ArrayMove(s, from, to), key)
  {
    var r := ArrayMove(s, from, to);
    forall i, j | 0 <= i < j < |r| ensures key(r[i]) != key(r[j]) {
      ArrayMoveAt(s, from, to, i);
      ArrayMoveAt(s, from, to, j);
      var oi := if i == to then from else if from <= i < to then i + 1 else if to < i <= from then i - 1 else i;
      var oj := if j == to then from else if from <= j < to then j + 1 else if to < j <= from then j - 1 else j;
      assert r[i] == s[oi] && r[j] == s[oj] && oi != oj;
      if oi < oj {
        assert key(s[oi]) != key(s[oj]);
      } else {
        assert key(s[oj]) != key(s[oi]);
      }
    }
  }

  /** One step of `RemoveKey`: the head is dropped or kept. */
  lemma RemoveKeyHead<T>(s: seq<T>, key: T -> string, id: string)
    requires |s| > 0
    ensures RemoveKey(s, key, id) ==
      if key(s[0]) == id then RemoveKey(s[1..], key, id) else [s[0]] + RemoveKey(s[1..], key, id)
  {
  }

  /** `RemoveKey` drops every copy of an element with the key and keeps every
      copy of any other. */
  lemma {:induction false} RemoveKeyCount<T>(s: seq<T>, key: T -> string, id: string, x: T)
    ensures multiset(RemoveKey(s, key, id))[x] == if key(x) == id then 0 else multiset(s)[x]
    decreases |s|
  {
    if |s| == 0 {
    } else {
      RemoveKeyHead(s, key, id);
      RemoveKeyCount(s[1..], key, id, x);
      assert s == [s[0]] + s[1..];
      assert multiset(s) == multiset{s[0]} + multiset(s[1..]);
      if key(s[0]) != id {
        assert multiset([s[0]] + RemoveKey(s[1..], key, id)) == multiset{s[0]} + multiset(RemoveKey(s[1..], key, id));
      }
    }
  }

  lemma RemoveKeyCounts<T>(s: seq<T>, key: T -> string, id: string)
    ensures forall x :: x in s ==> multiset(RemoveKey(s, key, id))[x] == if key(x) == id then 0 else multiset(s)[x]
  {
    forall x | x in s
      ensures multiset(RemoveKey(s, key, id))[x] == if key(x) == id then 0 else multiset(s)[x]
    {
      RemoveKeyCount(s, key, id, x);
    }
  }

  /** Removing past the head keeps the head. */
  lemma RemoveAtHead<T>(s: seq<T>, i: nat)
    requires 0 < i < |s|
    ensures RemoveAt(s, i) == [s[0]] + RemoveAt(s[1..], i - 1)
  {
    assert s[..i] == [s[0]] + s[1..][..i - 1];
    assert s[i + 1..] == s[1..][i..];
  }

  /** With distinct keys, removing the key of the element at `i` removes
      exactly that element. */
  lemma {:induction false} RemoveKeyOfDistinct<T>(s: seq<T>, key: T -> string, i: nat)
    requires i < |s| && KeysDistinct(s, key)
    ensures RemoveKey(s, key, key(s[i])) == RemoveAt(s, i)
    decreases |s|
  {
    var id := key(s[i]);
    RemoveKeyHead(s, key, id);
    if i == 0 {
      assert !HasKey(s[1..], key, id) by {
        forall j | 0 <= j < |s| - 1 ensures key(s[1..][j]) != id {
          assert s[1..][j] == s[j + 1];
        }
      }
      assert RemoveAt(s, 0) == s[1..];
    } else {
      assert KeysDistinct(s[1..], key) by {
        forall a, b | 0 <= a < b < |s| - 1 ensures key(s[1..][a]) != key(s[1..][b]) {
          assert s[1..][a] == s[a + 1] && s[1..][b] == s[b + 1];
        }
      }
      assert s[1..][i - 1] == s[i];
      RemoveKeyOfDistinct(s[1..], key, i - 1);
      RemoveAtHead(s, i);
    }
  }

  /** With distinct keys, the first index of `key(s[i])` is `i`. */
  lemma FindIndexOfDistinct<T>(s: seq<T>, key: T -> string, i: nat)
    requires i < |s| && KeysDistinct(s, key)
    ensures FindIndex(s, key, key(s[i])) == i
  {
    assert HasKey(s, key, key(s[i]));
  }

  /** `FindIndex` depends only on the keys. */
  lemma FindIndexSameKeys<T>(s: seq<T>, t: seq<T>, key: T -> string, id: string)
    requires |s| == |t| && forall i :: 0 <= i < |s| ==> key(s[i]) == key(t[i])
    ensures FindIndex(s, key, id) == FindIndex(t, key, id)
  {
    var a, b := FindIndex(s, key, id), FindIndex(t, key, id);
    if a >= 0 {
      assert key(t[a]) == id;
    }
    if b >= 0 {
      assert key(s[b]) == id;
    }
  }

  /** Appending an element with an unused key keeps keys distinct. */
  lemma AppendKeepsDistinct<T>(s: seq<T>, key: T -> string, x: T)
    requires KeysDistinct(s, key) && !HasKey(s, key, key(x))
    ensures KeysDistinct(s + [x], key)
  {
    var r := s + [x];
    forall i, j | 0 <= i < j < |r| ensures key(r[i]) != key(r[j]) {
      if j == |s| {
        assert r[i] == s[i];
      } else {
        assert key(s[i]) != key(s[j]);
      }
    }
  }

  /** An update that keeps each element's key keeps keys distinct. */
  lemma UpdateKeepsDistinct<T>(s: seq<T>, key: T -> string, id: string, f: T -> T)
    requires KeysDistinct(s, key) && forall x :: key(f(x)) == key(x)
    ensures KeysDistinct(UpdateKey(s, key, id, f), key)
  {
    var r := UpdateKey(s, key, id, f);
    forall i, j | 0 <= i < j < |r| ensures key(r[i]) != key(r[j]) {
      assert key(s[i]) != key(s[j]);
    }
  }
}
