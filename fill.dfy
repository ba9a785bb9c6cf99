/**
 * A Python dictionary filled row by row inside a loop (`d[k] = v` for the
 * rows that pass a filter): the final dictionary holds exactly the keys some
 * row wrote, each with the value of the LAST row that wrote it.
 */
module Fill {
  import opened Values

  /** Row entry `e` writes key `k`. */
  ghost predicate Mentions<K, V>(e: Option<(K, V)>, k: K) {
    e.Some? && e.value.0 == k
  }

  /** One loop iteration: `d[k] = v` for a row that passed the filter, nothing otherwise. */
  ghost function Put<K, V>(m: map<K, V>, e: Option<(K, V)>): (r: map<K, V>)
    ensures e.None? ==> r == m
    ensures e.Some? ==> r.Keys == m.Keys + {e.value.0} && r[e.value.0] == e.value.1
    ensures forall k | k in m && !Mentions(e, k) :: k in r && r[k] == m[k]
  {
    if e.Some? then m[e.value.0 := e.value.1] else m
  }

  /** `m` is what filling an empty dictionary with the row entries `es`, in order, leaves. */
  ghost predicate LastWrite<K, V>(es: seq<Option<(K, V)>>, m: map<K, V>) {
    && (forall i | 0 <= i < |es| && es[i].Some? :: es[i].value.0 in m)
    && (forall k | k in m ::
          exists i | 0 <= i < |es| :: es[i] == Some((k, m[k])) && forall j | i < j < |es| :: !Mentions(es[j], k))
  }

  /** Running one more iteration keeps the characterisation. */
  lemma {:induction false} FillStep<K, V>(es: seq<Option<(K, V)>>, m: map<K, V>, e: Option<(K, V)>)
    requires LastWrite(es, m)
    ensures LastWrite(es + [e], Put(m, e))
  {
    var es', m' := es + [e], Put(m, e);
    forall i | 0 <= i < |es'| && es'[i].Some? ensures es'[i].value.0 in m' {
      if i < |es| {
        assert es'[i] == es[i];
      }
    }
    forall k | k in m'
      ensures exists i | 0 <= i < |es'| :: es'[i] == Some((k, m'[k])) && forall j | i < j < |es'| :: !Mentions(es'[j], k)
    {
      if Mentions(e, k) {
        assert es'[|es|] == Some((k, m'[k]));
      } else {
        var i :| 0 <= i < |es| && es[i] == Some((k, m[k])) && forall j | i < j < |es| :: !Mentions(es[j], k);
        assert es'[i] == es[i];
        forall j | i < j < |es'| ensures !Mentions(es'[j], k) {
          if j < |es| {
            assert es'[j] == es[j];
          }
        }
      }
    }
  }

  /** The dictionary the rows `es` leave, filled in order. */
  ghost function Filled<K, V>(es: seq<Option<(K, V)>>): map<K, V> {
    if es == [] then map[] else Put(Filled(es[..|es| - 1]), es[|es| - 1])
  }

  /** One more iteration of the loop, as `Filled` sees it. */
  lemma FilledNext<K, V>(es: seq<Option<(K, V)>>, i: nat)
    requires i < |es|
    ensures Filled(es[..i + 1]) == Put(Filled(es[..i]), es[i])
  {
    assert es[..i + 1][..i] == es[..i];
  }

  /** One more row appended, as `Filled` sees it. */
  lemma FilledSnoc<K, V>(es: seq<Option<(K, V)>>, e: Option<(K, V)>)
    ensures Filled(es + [e]) == Put(Filled(es), e)
  {
    assert (es + [e])[..|es|] == es;
  }

  lemma FilledAll<K, V>(es: seq<Option<(K, V)>>)
    ensures Filled(es[..|es|]) == Filled(es)
  {
    assert es[..|es|] == es;
  }

  /** Filling in order leaves exactly the last write of every key. */
  lemma {:induction false} FilledIsLastWrite<K, V>(es: seq<Option<(K, V)>>)
    ensures LastWrite(es, Filled(es))
  {
    if es != [] {
      var init := es[..|es| - 1];
      FilledIsLastWrite(init);
      FillStep(init, Filled(init), es[|es| - 1]);
      assert init + [es[|es| - 1]] == es;
    }
  }

  /** The characterisation pins the dictionary down: there is one fill result. */
  lemma LastWriteUnique<K, V>(es: seq<Option<(K, V)>>, m1: map<K, V>, m2: map<K, V>)
    requires LastWrite(es, m1) && LastWrite(es, m2)
    ensures m1 == m2
  {
    assert m1.Keys == m2.Keys;
    forall k | k in m1 ensures m1[k] == m2[k] {
      var i1 :| 0 <= i1 < |es| && es[i1] == Some((k, m1[k])) && forall j | i1 < j < |es| :: !Mentions(es[j], k);
      var i2 :| 0 <= i2 < |es| && es[i2] == Some((k, m2[k])) && forall j | i2 < j < |es| :: !Mentions(es[j], k);
      assert Mentions(es[i1], k) && Mentions(es[i2], k);
      assert i1 == i2;
    }
  }
}
