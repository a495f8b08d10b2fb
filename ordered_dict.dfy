/**
 * A Python `dict` as the crawler uses it: insertion-ordered, one entry per key.
 * Assigning to a key that is already present overwrites the value in place and
 * keeps the key's first position; a new key goes to the end.
 */
module OrderedDict {
  import opened Wrappers

  /** A dict from label text to value text, as `filing_info` is. */
  type Dict = seq<(string, string)>

  function Keys(d: Dict): (ks: seq<string>)
    ensures |ks| == |d|
  {
    seq(|d|, i requires 0 <= i < |d| => d[i].0)
  }

  /** No key occurs twice. */
  predicate Distinct(ks: seq<string>) {
    forall i, j :: 0 <= i < j < |ks| ==> ks[i] != ks[j]
  }

  predicate Valid(d: Dict) {
    Distinct(Keys(d))
  }

  /** The first position of `k` in `ks`. */
  function IndexOf(ks: seq<string>, k: string): (r: nat)
    requires k in ks
    ensures r < |ks| && ks[r] == k
  {
    if ks[0] == k then 0 else 1 + IndexOf(ks[1..], k)
  }

  /** No earlier position holds `k`. */
  lemma {:induction false} IndexOfFirst(ks: seq<string>, k: string)
    requires k in ks
    ensures forall j :: 0 <= j < IndexOf(ks, k) ==> ks[j] != k
  {
    if ks[0] != k {
      IndexOfFirst(ks[1..], k);
    }
  }

  /** `d.get(k)`: the value stored under `k`, if any. */
  function Lookup(d: Dict, k: string): Option<string> {
    if k in Keys(d) then Some(d[IndexOf(Keys(d), k)].1) else None
  }

  /**
   * `d.get(k)` finds a value exactly when `k` is a key, and then it is the value
   * of the first entry holding `k`.
   */
  lemma LookupSemantics(d: Dict, k: string)
    ensures Lookup(d, k).Some? <==> k in Keys(d)
    ensures Lookup(d, k).Some? ==> exists i :: 0 <= i < |d| && d[i] == (k, Lookup(d, k).value) && forall j :: 0 <= j < i ==> d[j].0 != k
    ensures Valid(d) ==> forall i :: 0 <= i < |d| && d[i].0 == k ==> Lookup(d, k) == Some(d[i].1)
  {
    assert forall i :: 0 <= i < |d| ==> Keys(d)[i] == d[i].0;
    if k in Keys(d) {
      var n := IndexOf(Keys(d), k);
      assert d[n] == (k, d[n].1);
      IndexOfFirst(Keys(d), k);
      forall i | 0 <= i < |d| && d[i].0 == k && Valid(d) ensures i == n {
        assert Keys(d)[i] == Keys(d)[n];
      }
    }
  }

  /** `d[k] = v`. */
  function Put(d: Dict, k: string, v: string): Dict {
    if k in Keys(d) then d[IndexOf(Keys(d), k) := (k, v)] else d + [(k, v)]
  }

  /**
   * Assignment keeps the keys distinct, puts a new key last and leaves an
   * existing key where it was, stores `v` under `k` and leaves every other
   * key's value alone.
   */
  lemma PutSemantics(d: Dict, k: string, v: string)
    requires Valid(d)
    ensures Valid(Put(d, k, v))
    ensures Keys(Put(d, k, v)) == if k in Keys(d) then Keys(d) else Keys(d) + [k]
    ensures Lookup(Put(d, k, v), k) == Some(v)
    ensures forall k' :: k' != k ==> Lookup(Put(d, k, v), k') == Lookup(d, k')
  {
    var r := Put(d, k, v);
    if k in Keys(d) {
      assert Keys(r) == Keys(d);
    } else {
      assert Keys(r) == Keys(d) + [k];
      forall k' | k' != k && k' in Keys(d) ensures IndexOf(Keys(r), k') == IndexOf(Keys(d), k') {
        var i1, i2 := IndexOf(Keys(r), k'), IndexOf(Keys(d), k');
        assert Keys(r)[i2] == k';
      }
    }
  }
}
