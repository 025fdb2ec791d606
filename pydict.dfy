/** A Python `dict` with string keys, kept as its items in insertion order:
    assigning to a present key replaces its value in place, a new key is
    appended, and `update` assigns the other dict's items in its order. */
module PyDict {
  import opened Wrappers

  type Dict<V> = seq<(string, V)>

  function Keys<V>(d: Dict<V>): (ks: seq<string>)
    ensures |ks| == |d|
    ensures forall i :: 0 <= i < |d| ==> ks[i] == d[i].0
  {
    seq(|d|, i requires 0 <= i < |d| => d[i].0)
  }

  /** The position of key `k`, if present. */
  function Find<V>(d: Dict<V>, k: string): (r: Option<nat>)
    ensures r.None? <==> k !in Keys(d)
    ensures r.Some? ==> r.value < |d| && d[r.value].0 == k
    ensures r.Some? ==> forall j :: 0 <= j < r.value ==> d[j].0 != k
  {
    if d == [] then None
    else if d[0].0 == k then Some(0)
    else
      var rest := Find(d[1..], k);
      assert Keys(d) == [d[0].0] + Keys(d[1..]);
      if rest.None? then None else Some(rest.value + 1)
  }

  /** `d.get(k)` */
  function Get<V>(d: Dict<V>, k: string): Option<V>
  {
    match Find(d, k)
    case None => None
    case Some(i) => Some(d[i].1)
  }

  /** `d[k] = v` */
  function Put<V>(d: Dict<V>, k: string, v: V): (r: Dict<V>)
    ensures Get(r, k) == Some(v)
    ensures forall k' :: k' != k ==> Get(r, k') == Get(d, k')
    ensures k in Keys(d) ==> Keys(r) == Keys(d)
    ensures k !in Keys(d) ==> Keys(r) == Keys(d) + [k]
  {
    match Find(d, k)
    case None =>
      var r := d + [(k, v)];
      FindAt(r, k, |d|);
      forall k' | k' != k ensures Find(r, k') == Find(d, k') {
        FindPrefix(d, r, k');
      }
      r
    case Some(i) =>
      var r := d[i := (k, v)];
      FindAt(r, k, i);
      forall k' | k' != k ensures Find(r, k') == Find(d, k') {
        FindSameKeys(d, r, k');
      }
      r
  }

  /** The first position holding `k` is what `Find` returns. */
  lemma FindAt<V>(d: Dict<V>, k: string, i: nat)
    requires i < |d| && d[i].0 == k
    requires forall j :: 0 <= j < i ==> d[j].0 != k
    ensures Find(d, k) == Some(i)
  {
    assert Keys(d)[i] == k;
  }

  /** Dicts that hold key `k` at the same positions find it at the same place. */
  lemma FindSameKeys<V>(d: Dict<V>, r: Dict<V>, k: string)
    requires |d| == |r|
    requires forall j :: 0 <= j < |d| ==> (d[j].0 == k <==> r[j].0 == k)
    ensures Find(r, k) == Find(d, k)
  {
    if Find(d, k).Some? {
      FindAt(r, k, Find(d, k).value);
    } else if Find(r, k).Some? {
      FindAt(d, k, Find(r, k).value);
    }
  }

  /** Appending items leaves where a present key is found unchanged, and a
      key absent from both is still absent. */
  lemma FindPrefix<V>(d: Dict<V>, r: Dict<V>, k: string)
    requires |d| + 1 == |r| && d == r[..|d|] && r[|d|].0 != k
    ensures Find(r, k) == Find(d, k)
  {
    if Find(d, k).Some? {
      FindAt(r, k, Find(d, k).value);
    } else if Find(r, k).Some? {
      FindAt(d, k, Find(r, k).value);
    }
  }

  /** `d.update(e)`: the items of `e` assigned one after another. */
  function Update<V>(d: Dict<V>, e: Dict<V>): Dict<V>
  {
    if e == [] then d
    else Put(Update(d, e[..|e| - 1]), e[|e| - 1].0, e[|e| - 1].1)
  }

  /** The dict built by assigning `pairs` in order, starting from `{}`. */
  function FromItems<V>(pairs: seq<(string, V)>): Dict<V>
  {
    Update([], pairs)
  }

  /** A property every value of `d` and of `e` has, every value of `d.update(e)` has. */
  lemma {:induction false} UpdateValues<V>(d: Dict<V>, e: Dict<V>, P: V -> bool)
    requires forall i :: 0 <= i < |d| ==> P(d[i].1)
    requires forall i :: 0 <= i < |e| ==> P(e[i].1)
    ensures forall i :: 0 <= i < |Update(d, e)| ==> P(Update(d, e)[i].1)
  {
    if e != [] {
      var init := e[..|e| - 1];
      UpdateValues(d, init, P);
      var u := Update(d, init);
      var k := e[|e| - 1].0;
      var v := e[|e| - 1].1;
      assert P(v);
      match Find(u, k)
      case None =>
        assert Put(u, k, v) == u + [(k, v)];
      case Some(j) =>
        assert Put(u, k, v) == u[j := (k, v)];
    }
  }

  /** `d.update(e)` keeps the keys of `d` where they were, and can only
      add keys after them. */
  lemma {:induction false} UpdateKeepsKeys<V>(d: Dict<V>, e: Dict<V>)
    ensures |Update(d, e)| >= |d|
    ensures forall i :: 0 <= i < |d| ==> Update(d, e)[i].0 == d[i].0
  {
    if e != [] {
      var u := Update(d, e[..|e| - 1]);
      UpdateKeepsKeys(d, e[..|e| - 1]);
      var r := Put(u, e[|e| - 1].0, e[|e| - 1].1);
      assert Keys(r)[..|u|] == Keys(u);
      forall i | 0 <= i < |d| ensures r[i].0 == d[i].0 {
        assert Keys(r)[i] == Keys(u)[i];
      }
    }
  }

  predicate DistinctKeys<V>(d: Dict<V>) {
    forall i, j :: 0 <= i < j < |d| ==> d[i].0 != d[j].0
  }

  /** Assigning items with pairwise distinct keys to a dict that has none of
      them appends each item in order. */
  lemma {:induction false} UpdateAppends<V>(d: Dict<V>, e: Dict<V>)
    requires DistinctKeys(e)
    requires forall i :: 0 <= i < |e| ==> e[i].0 !in Keys(d)
    ensures Update(d, e) == d + e
  {
    if e != [] {
      var init := e[..|e| - 1];
      var last := e[|e| - 1];
      UpdateAppends(d, init);
      var di := d + init;
      assert last.0 !in Keys(di) by {
        forall j | 0 <= j < |di| ensures di[j].0 != last.0 {
          if j >= |d| {
            assert di[j] == e[j - |d|];
          }
        }
      }
      assert di + [last] == d + e;
    }
  }

  /** A dict built from items with distinct keys lists them as given. */
  lemma FromDistinctItems<V>(items: Dict<V>)
    requires DistinctKeys(items)
    ensures FromItems(items) == items
  {
    UpdateAppends([], items);
    assert [] + items == items;
  }
}
