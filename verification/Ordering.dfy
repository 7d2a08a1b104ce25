/**
 `ORDER BY <timestamp>, id LIMIT n`, which the outbox, the delivery queue, the export and the
 reaper all rely on. A row is represented by its sort key; ids are unique, so the order is total.
 */
module Ordering {
  import opened Common

  datatype Key = Key(at: int, id: nat)

  predicate Before(a: Key, b: Key) {
    a.at < b.at || (a.at == b.at && a.id < b.id)
  }

  predicate Sorted(keys: seq<Key>) {
    forall i, j :: 0 <= i < j < |keys| ==> Before(keys[i], keys[j])
  }

  predicate IsEarliest(k: Key, keys: set<Key>) {
    k in keys && forall other :: other in keys && other != k ==> Before(k, other)
  }

  lemma {:induction false} HasEarliest(keys: set<Key>)
    requires keys != {}
    ensures exists k :: IsEarliest(k, keys)
  {
    var k :| k in keys;
    var rest := keys - {k};
    if rest == {} {
      assert keys == {k} + rest;
      assert IsEarliest(k, keys);
    } else {
      HasEarliest(rest);
      var least :| IsEarliest(least, rest);
      var first := if Before(k, least) then k else least;
      forall other | other in keys && other != first ensures Before(first, other) {
        assert other == k || other in rest;
      }
      assert IsEarliest(first, keys);
    }
  }

  function Earliest(keys: set<Key>): (k: Key)
    requires keys != {}
    ensures IsEarliest(k, keys)
  {
    HasEarliest(keys);
    var k :| IsEarliest(k, keys);
    k
  }

  /** What `LIMIT` promises: as many rows as fit, in order, and nothing earlier left behind. */
  predicate IsPage(page: seq<Key>, keys: set<Key>, limit: nat) {
    && |page| == (if |keys| < limit then |keys| else limit)
    && Sorted(page)
    && (forall i :: 0 <= i < |page| ==> page[i] in keys)
    && (forall i, k :: 0 <= i < |page| && k in keys && k !in page ==> Before(page[i], k))
  }

  /** The page: the `limit` least keys in ascending order, or all of them when there are fewer. */
  function FirstN(keys: set<Key>, limit: nat): (page: seq<Key>)
    ensures IsPage(page, keys, limit)
    decreases limit
  {
    if limit == 0 || keys == {} then
      []
    else
      var first := Earliest(keys);
      [first] + FirstN(keys - {first}, limit - 1)
  }

  lemma PageStartsEarliest(page: seq<Key>, keys: set<Key>, limit: nat)
    requires limit > 0 && keys != {}
    requires IsPage(page, keys, limit)
    ensures page != [] && page[0] == Earliest(keys)
    ensures IsPage(page[1..], keys - {page[0]}, limit - 1)
  {
  }

  /** The contract of `FirstN` leaves no choice: any page that meets it is `FirstN`. */
  lemma {:induction false} FirstNIsUnique(page: seq<Key>, keys: set<Key>, limit: nat)
    requires IsPage(page, keys, limit)
    ensures page == FirstN(keys, limit)
    decreases limit
  {
    if limit == 0 || keys == {} {
      assert page == [];
    } else {
      PageStartsEarliest(page, keys, limit);
      FirstNIsUnique(page[1..], keys - {page[0]}, limit - 1);
    }
  }

  lemma PageOfEverything(page: seq<Key>, keys: set<Key>, limit: nat)
    requires IsPage(page, keys, limit) && |keys| <= limit
    ensures forall k :: k in keys ==> k in page
  {
    var taken := set i | 0 <= i < |page| :: page[i];
    SetOfDistinct(page);
    assert taken <= keys;
    assert keys == taken + (keys - taken);
  }
}
