/**
 The meaning of a Python dict display `{k0: v0, k1: v1, ..., kn: vn}`: the
 entries are stored left to right, and a key written twice keeps the value
 of its last occurrence.
 */
module PyDict {

  /** The keys written in a dict display. */
  ghost function KeysOf<K, V>(entries: seq<(K, V)>): set<K>
  {
    set i | 0 <= i < |entries| :: entries[i].0
  }

  /** True iff entry `i` is the last one in `entries` that writes its key. */
  ghost predicate LastWithKey<K, V>(entries: seq<(K, V)>, i: int)
  {
    && 0 <= i < |entries|
    && forall j :: i < j < |entries| ==> entries[j].0 != entries[i].0
  }

  /** True iff no key is written twice. */
  ghost predicate DistinctKeys<K, V>(entries: seq<(K, V)>)
  {
    forall i, j :: 0 <= i < j < |entries| ==> entries[i].0 != entries[j].0
  }

  /** The dict a display builds, inserting the entries left to right. What
      it holds is stated by DisplayKeysAndLastValues below; it carries no
      contract of its own, so that unfolding it on a literal stays cheap. */
  function Display<K, V>(entries: seq<(K, V)>): (d: map<K, V>)
  {
    if |entries| == 0 then map[]
    else
      var init := entries[..|entries| - 1];
      var last := entries[|entries| - 1];
      Display(init)[last.0 := last.1]
  }

  /** A display's keys are exactly the keys written, and each key holds the
      value of the last entry that writes it. */
  lemma {:induction false} DisplayKeysAndLastValues<K, V>(entries: seq<(K, V)>)
    ensures Display(entries).Keys == KeysOf(entries)
    ensures forall i :: LastWithKey(entries, i) ==> Display(entries)[entries[i].0] == entries[i].1
  {
    if |entries| > 0 {
      var init := entries[..|entries| - 1];
      var last := entries[|entries| - 1];
      DisplayKeysAndLastValues(init);
      KeysOfSnoc(init, last);
      LastWithKeyOfSnoc(init, last);
      assert entries == init + [last];
    }
  }

  /** Appending one entry adds its key to the keys written. */
  lemma KeysOfSnoc<K, V>(init: seq<(K, V)>, last: (K, V))
    ensures KeysOf(init + [last]) == KeysOf(init) + {last.0}
  {
    var entries := init + [last];
    forall k | k in KeysOf(entries) ensures k in KeysOf(init) + {last.0} {
      var i :| 0 <= i < |entries| && entries[i].0 == k;
      if i < |init| {
        assert init[i] == entries[i];
      }
    }
    forall k | k in KeysOf(init) ensures k in KeysOf(entries) {
      var i :| 0 <= i < |init| && init[i].0 == k;
      assert entries[i] == init[i];
    }
    assert entries[|init|] == last;
  }

  /** An entry of `init` that is last for its key in `init + [last]` is also
      last in `init`, and its key differs from the appended one. */
  lemma LastWithKeyOfSnoc<K, V>(init: seq<(K, V)>, last: (K, V))
    ensures forall i :: 0 <= i < |init| && LastWithKey(init + [last], i) ==>
      LastWithKey(init, i) && init[i].0 != last.0
  {
    var entries := init + [last];
    forall i | 0 <= i < |init| && LastWithKey(entries, i)
      ensures LastWithKey(init, i) && init[i].0 != last.0
    {
      assert entries[|init|] == last;
      forall j | i < j < |init| ensures init[j].0 != init[i].0 {
        assert entries[j] == init[j];
      }
    }
  }

  /** With distinct keys every entry is the last one writing its key, so the
      dict holds every entry exactly as written. */
  lemma DisplayDistinct<K, V>(entries: seq<(K, V)>)
    requires DistinctKeys(entries)
    ensures forall i :: 0 <= i < |entries| ==> entries[i].0 in Display(entries)
    ensures forall i :: 0 <= i < |entries| ==> Display(entries)[entries[i].0] == entries[i].1
  {
    assert forall i :: 0 <= i < |entries| ==> LastWithKey(entries, i);
    DisplayKeysAndLastValues(entries);
  }
}
