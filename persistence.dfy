/** The shared in-memory store behind SwiftData's `ModelContext`: every placemark
    and every destination, identified by object identity. */
module Persistence {
  import opened Placemarks
  import opened Destinations

  /** No object occurs twice. */
  predicate Distinct<T(==)>(s: seq<T>) {
    forall i, j :: 0 <= i < j < |s| ==> s[i] != s[j]
  }

  /** `s` with every occurrence of `x` taken out, the rest in order. */
  function Without<T(==)>(s: seq<T>, x: T): (r: seq<T>)
    ensures forall y :: y in r ==> y in s && y != x
    ensures forall y :: y in s && y != x ==> y in r
    ensures |r| <= |s|
    ensures x !in s ==> r == s
  {
    if s == [] then []
    else (if s[0] == x then [] else [s[0]]) + Without(s[1..], x)
  }

  /** Taking an element out of a sequence without repetitions removes exactly
      that position and keeps every other element, in order. */
  lemma {:induction false} WithoutAt<T>(s: seq<T>, k: nat)
    requires Distinct(s) && k < |s|
    ensures Without(s, s[k]) == s[..k] + s[k + 1..]
    ensures |Without(s, s[k])| == |s| - 1
  {
    if k == 0 {
      assert s[0] !in s[1..] by {
        forall j | 0 <= j < |s[1..]| ensures s[1..][j] != s[0] { assert s[1..][j] == s[j + 1]; }
      }
      assert Without(s[1..], s[0]) == s[1..];
    } else {
      var t := s[1..];
      assert Distinct(t) by {
        forall i, j | 0 <= i < j < |t| ensures t[i] != t[j] { assert t[i] == s[i + 1] && t[j] == s[j + 1]; }
      }
      assert t[k - 1] == s[k];
      WithoutAt(t, k - 1);
      assert s[0] != s[k];
      assert s[..k] == [s[0]] + t[..k - 1];
      assert s[k + 1..] == t[k..];
    }
  }

  /** Taking an element out keeps the other elements without repetitions. */
  lemma {:induction false} WithoutDistinct<T>(s: seq<T>, x: T)
    requires Distinct(s)
    ensures Distinct(Without(s, x))
  {
    if x in s {
      var k :| 0 <= k < |s| && s[k] == x;
      WithoutAt(s, k);
      var r := s[..k] + s[k + 1..];
      forall i, j | 0 <= i < j < |r| ensures r[i] != r[j] {
        var i' := if i < k then i else i + 1;
        var j' := if j < k then j else j + 1;
        assert r[i] == s[i'] && r[j] == s[j'];
      }
    }
  }

  class Store {
    var placemarks: seq<Placemark>
    var destinations: seq<Destination>

    ghost predicate Valid()
      reads this
    {
      Distinct(placemarks) && Distinct(destinations)
    }

    constructor ()
      ensures Valid() && placemarks == [] && destinations == []
    {
      placemarks := [];
      destinations := [];
    }

    /** `modelContext.insert` of a placemark; inserting an object the store
        already holds changes nothing. */
    method InsertPlacemark(p: Placemark)
      requires Valid()
      modifies this
      ensures Valid() && destinations == old(destinations)
      ensures placemarks == if p in old(placemarks) then old(placemarks) else old(placemarks) + [p]
    {
      if p !in placemarks {
        placemarks := placemarks + [p];
      }
    }

    /** `modelContext.insert` of a destination. */
    method InsertDestination(d: Destination)
      requires Valid()
      modifies this
      ensures Valid() && placemarks == old(placemarks)
      ensures destinations == if d in old(destinations) then old(destinations) else old(destinations) + [d]
    {
      if d !in destinations {
        destinations := destinations + [d];
      }
    }

    /** `modelContext.delete` of a destination: the placemarks are not touched. */
    method DeleteDestination(d: Destination)
      requires Valid()
      modifies this
      ensures Valid() && placemarks == old(placemarks)
      ensures destinations == Without(old(destinations), d)
      ensures d in old(destinations) ==> |destinations| == |old(destinations)| - 1
      ensures forall k :: 0 <= k < |old(destinations)| && old(destinations)[k] == d ==>
        destinations == old(destinations)[..k] + old(destinations)[k + 1..]
    {
      WithoutDistinct(destinations, d);
      if d in destinations {
        var k :| 0 <= k < |destinations| && destinations[k] == d;
        WithoutAt(destinations, k);
      }
      destinations := Without(destinations, d);
    }
  }
}
