/**
 The broker list the generator iterates over, and the peer list a broker
 bridges to: every listed broker except itself, in list order. The list is
 taken as given (sorted ascending, no repeats); how it is discovered on disk
 is not part of this model.
 */
module Brokers {

  /** Python's `a < b` on strings: lexicographic by code point, a proper
      prefix sorting first. */
  predicate Below(a: string, b: string)
    decreases |a|
  {
    if a == [] then b != []
    else if b == [] then false
    else if a[0] != b[0] then a[0] < b[0]
    else Below(a[1..], b[1..])
  }

  lemma {:induction false} BelowIrreflexive(a: string)
    ensures !Below(a, a)
    decreases |a|
  {
    if a != [] {
      BelowIrreflexive(a[1..]);
    }
  }

  /** No name occurs twice. */
  predicate Distinct(names: seq<string>) {
    forall i, j :: 0 <= i < j < |names| ==> names[i] != names[j]
  }

  /** Ascending without repeats, as `sorted()` of a set of names gives. */
  predicate StrictlySorted(names: seq<string>) {
    forall i, j :: 0 <= i < j < |names| ==> Below(names[i], names[j])
  }

  lemma SortedIsDistinct(names: seq<string>)
    requires StrictlySorted(names)
    ensures Distinct(names)
  {
    forall i, j | 0 <= i < j < |names| ensures names[i] != names[j] {
      if names[i] == names[j] {
        BelowIrreflexive(names[i]);
        assert false;
      }
    }
  }

  /** The brokers `current` bridges to: the list with `current` filtered
      out, keeping the list's order. */
  function Peers(current: string, brokers: seq<string>): (r: seq<string>)
    ensures |r| <= |brokers|
    ensures forall p :: p in r <==> p in brokers && p != current
    decreases |brokers|
  {
    if brokers == [] then []
    else (if brokers[0] == current then [] else [brokers[0]]) + Peers(current, brokers[1..])
  }

  /** A broker missing from the list bridges to every listed broker. */
  lemma {:induction false} PeersOfOutsider(current: string, brokers: seq<string>)
    requires current !in brokers
    ensures Peers(current, brokers) == brokers
    decreases |brokers|
  {
    if brokers != [] {
      PeersOfOutsider(current, brokers[1..]);
      assert brokers == [brokers[0]] + brokers[1..];
    }
  }

  /** In a list without repeats, the peers of the broker at position `k` are
      the list with exactly that position removed: order is kept and nothing
      else is dropped. */
  lemma {:induction false} PeersRemoveAt(brokers: seq<string>, k: int)
    requires Distinct(brokers)
    requires 0 <= k < |brokers|
    ensures Peers(brokers[k], brokers) == brokers[..k] + brokers[k + 1..]
    decreases |brokers|
  {
    var current := brokers[k];
    if k == 0 {
      assert current !in brokers[1..];
      PeersOfOutsider(current, brokers[1..]);
    } else {
      var tail := brokers[1..];
      assert tail[k - 1] == current;
      PeersRemoveAt(tail, k - 1);
      assert brokers[..k] == [brokers[0]] + tail[..k - 1];
      assert brokers[k + 1..] == tail[k..];
    }
  }

  /** With no repeats and `current` listed, there is one peer fewer than brokers. */
  lemma PeersCount(current: string, brokers: seq<string>)
    requires Distinct(brokers)
    requires current in brokers
    ensures |Peers(current, brokers)| == |brokers| - 1
  {
    var k :| 0 <= k < |brokers| && brokers[k] == current;
    PeersRemoveAt(brokers, k);
  }

  /** A sorted list's peers are sorted, so bridges come out in name order. */
  lemma {:induction false} PeersSorted(current: string, brokers: seq<string>)
    requires StrictlySorted(brokers)
    ensures StrictlySorted(Peers(current, brokers))
    decreases |brokers|
  {
    if brokers != [] {
      var tail := brokers[1..];
      assert StrictlySorted(tail) by {
        forall i, j | 0 <= i < j < |tail| ensures Below(tail[i], tail[j]) {
          assert tail[i] == brokers[i + 1] && tail[j] == brokers[j + 1];
        }
      }
      PeersSorted(current, tail);
      var rest := Peers(current, tail);
      if brokers[0] != current {
        var r := [brokers[0]] + rest;
        forall i, j | 0 <= i < j < |r| ensures Below(r[i], r[j]) {
          if i == 0 {
            assert r[j] in tail;
            var m :| 0 <= m < |tail| && tail[m] == r[j];
            assert brokers[m + 1] == r[j];
          } else {
            assert r[i] == rest[i - 1] && r[j] == rest[j - 1];
          }
        }
      }
    }
  }

  /** Peers of a list without repeats have no repeats, so each peer gets
      exactly one bridge. */
  lemma {:induction false} PeersDistinct(current: string, brokers: seq<string>)
    requires Distinct(brokers)
    ensures Distinct(Peers(current, brokers))
    decreases |brokers|
  {
    if brokers != [] {
      var tail := brokers[1..];
      assert Distinct(tail) by {
        forall i, j | 0 <= i < j < |tail| ensures tail[i] != tail[j] {
          assert tail[i] == brokers[i + 1] && tail[j] == brokers[j + 1];
        }
      }
      PeersDistinct(current, tail);
      var rest := Peers(current, tail);
      if brokers[0] != current {
        assert brokers[0] !in tail;
        var r := [brokers[0]] + rest;
        forall i, j | 0 <= i < j < |r| ensures r[i] != r[j] {
          if i == 0 {
            assert r[j] in rest;
          } else {
            assert r[i] == rest[i - 1] && r[j] == rest[j - 1];
          }
        }
      }
    }
  }
}
