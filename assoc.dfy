/** JavaScript objects used as dictionaries: an ordered sequence of
    key/value pairs, in insertion order. */
module Assoc {
  import opened Wrappers

  type Dict<V> = seq<(string, V)>

  function Keys<V>(d: Dict<V>): seq<string>
  {
    seq(|d|, i requires 0 <= i < |d| => d[i].0)
  }

  predicate HasKey<V>(d: Dict<V>, k: string)
  {
    exists i :: 0 <= i < |d| && d[i].0 == k
  }

  predicate DistinctKeys<V>(d: Dict<V>)
  {
    forall i, j :: 0 <= i < j < |d| ==> d[i].0 != d[j].0
  }

  /** Where the key `k` sits: its first pair. */
  function IndexOfKey<V>(d: Dict<V>, k: string): (i: nat)
    requires HasKey(d, k)
    ensures i < |d| && d[i].0 == k
    ensures forall j :: 0 <= j < i ==> d[j].0 != k
  {
    if d[0].0 == k then 0
    else
      assert HasKey(d[1..], k) by {
        var i :| 0 <= i < |d| && d[i].0 == k;
        assert d[1..][i - 1].0 == k;
      }
      1 + IndexOfKey(d[1..], k)
  }

  /** Property read `d[k]`. */
  function Get<V>(d: Dict<V>, k: string): Option<V>
  {
    if HasKey(d, k) then Some(d[IndexOfKey(d, k)].1) else None
  }

  /** Property assignment `d[k] = v`: an existing key keeps its place and
      gets the new value; a new key is appended after all others. */
  function Put<V>(d: Dict<V>, k: string, v: V): Dict<V>
  {
    if HasKey(d, k) then d[IndexOfKey(d, k) := (k, v)] else d + [(k, v)]
  }

  /** Key membership distributes over concatenation. */
  lemma HasKeyConcat<V>(a: Dict<V>, b: Dict<V>)
    ensures forall k :: HasKey(a + b, k) <==> HasKey(a, k) || HasKey(b, k)
  {
    forall k ensures HasKey(a + b, k) <==> HasKey(a, k) || HasKey(b, k) {
      if HasKey(a + b, k) {
        var i :| 0 <= i < |a + b| && (a + b)[i].0 == k;
        if i >= |a| { assert b[i - |a|].0 == k; }
      }
      if HasKey(b, k) {
        var i :| 0 <= i < |b| && b[i].0 == k;
        assert (a + b)[i + |a|].0 == k;
      }
      if HasKey(a, k) {
        var i :| 0 <= i < |a| && a[i].0 == k;
        assert (a + b)[i].0 == k;
      }
    }
  }

  /** Reading after an assignment: the assigned key gives the new value,
      every other key what it gave before. */
  lemma PutGet<V>(d: Dict<V>, k: string, v: V, j: string)
    ensures Get(Put(d, k, v), j) == if j == k then Some(v) else Get(d, j)
  {
    var r := Put(d, k, v);
    if HasKey(d, k) {
      var p := IndexOfKey(d, k);
      assert forall i :: 0 <= i < |d| ==> r[i].0 == d[i].0;
      if HasKey(d, j) {
        var q := IndexOfKey(d, j);
        assert r[q].0 == j;
        assert IndexOfKey(r, j) == q;
      }
      if HasKey(r, j) {
        var q := IndexOfKey(r, j);
        assert d[q].0 == j;
      }
    } else {
      HasKeyConcat(d, [(k, v)]);
      assert [(k, v)][0].0 == k;
      assert r[|d|].0 == k;
      if HasKey(d, j) {
        var q := IndexOfKey(d, j);
        assert r[q].0 == j;
        assert IndexOfKey(r, j) == q;
      }
      if j == k {
        assert IndexOfKey(r, j) == |d|;
      }
    }
  }

  /** An assignment leaves every other key's value alone. */
  lemma PutOthers<V>(d: Dict<V>, k: string, v: V)
    ensures forall j :: j != k ==> Get(Put(d, k, v), j) == Get(d, j)
  {
    forall j | j != k ensures Get(Put(d, k, v), j) == Get(d, j) {
      PutGet(d, k, v, j);
    }
  }

  /** An assignment adds exactly its key and keeps keys distinct. */
  lemma PutKeys<V>(d: Dict<V>, k: string, v: V)
    ensures forall j :: HasKey(Put(d, k, v), j) <==> HasKey(d, j) || j == k
    ensures DistinctKeys(d) && !HasKey(d, k) ==> Put(d, k, v) == d + [(k, v)]
    ensures DistinctKeys(d) ==> DistinctKeys(Put(d, k, v))
  {
    var r := Put(d, k, v);
    if HasKey(d, k) {
      assert forall i :: 0 <= i < |d| ==> r[i].0 == d[i].0;
      forall j ensures HasKey(r, j) <==> HasKey(d, j) {
        if HasKey(r, j) {
          var i :| 0 <= i < |r| && r[i].0 == j;
          assert d[i].0 == j;
        }
        if HasKey(d, j) {
          var i :| 0 <= i < |d| && d[i].0 == j;
          assert r[i].0 == j;
        }
      }
    } else {
      HasKeyConcat(d, [(k, v)]);
      assert [(k, v)][0].0 == k;
      assert forall j :: HasKey([(k, v)], j) ==> j == k;
    }
  }

  /** Every pair of an assignment's result is an old pair or the new one. */
  lemma PutPairs<V>(d: Dict<V>, k: string, v: V)
    ensures forall i :: 0 <= i < |Put(d, k, v)| ==>
      Put(d, k, v)[i] == (k, v) || exists j :: 0 <= j < |d| && Put(d, k, v)[i] == d[j]
  {
    var r := Put(d, k, v);
    forall i | 0 <= i < |r| ensures r[i] == (k, v) || exists j :: 0 <= j < |d| && r[i] == d[j] {
      if i < |d| && r[i] != (k, v) { assert r[i] == d[i]; }
    }
  }

  /** The key-renaming step of `mapKeys`: every pair is assigned, in order,
      to a fresh object under its (possibly renamed) key. */
  function RenameKey<V>(d: Dict<V>, from: string, to: string): Dict<V>
  {
    if d == [] then []
    else
      var last := d[|d| - 1];
      Put(RenameKey(d[..|d| - 1], from, to), if last.0 == from then to else last.0, last.1)
  }

  /** Renaming one key in place, pair by pair. */
  function Renamed<V>(d: Dict<V>, from: string, to: string): (r: Dict<V>)
    ensures |r| == |d|
    ensures forall i :: 0 <= i < |d| ==> r[i] == (if d[i].0 == from then to else d[i].0, d[i].1)
  {
    seq(|d|, i requires 0 <= i < |d| => (if d[i].0 == from then to else d[i].0, d[i].1))
  }

  /** Renaming to a key that is not yet present keeps the keys distinct. */
  lemma RenamedDistinct<V>(d: Dict<V>, from: string, to: string)
    requires DistinctKeys(d) && !HasKey(d, to)
    ensures DistinctKeys(Renamed(d, from, to))
  {
    var r := Renamed(d, from, to);
    forall i, j | 0 <= i < j < |r| ensures r[i].0 != r[j].0 {
      assert d[i].0 != to && d[j].0 != to;
    }
  }

  /** Without key clashes, the assignment fold renames pair by pair. */
  lemma {:induction false} RenameKeyIsRenamed<V>(d: Dict<V>, from: string, to: string)
    requires DistinctKeys(d) && !HasKey(d, to)
    ensures RenameKey(d, from, to) == Renamed(d, from, to)
    decreases |d|
  {
    if d != [] {
      var init := d[..|d| - 1];
      var last := d[|d| - 1];
      var k := if last.0 == from then to else last.0;
      assert d == init + [last];
      HasKeyConcat(init, [last]);
      RenameKeyIsRenamed(init, from, to);
      var ri := Renamed(init, from, to);
      RenamedDistinct(init, from, to);
      assert !HasKey(ri, k) by {
        forall i | 0 <= i < |ri| ensures ri[i].0 != k {
          assert d[i].0 != last.0 && d[i].0 != to;
        }
      }
      PutKeys(ri, k, last.1);
      assert Renamed(d, from, to) == ri + [(k, last.1)];
    }
  }

  /** After renaming, every key is a renamed old key and every pair's value
      is an old value. */
  lemma {:induction false} RenameKeyPairs<V>(d: Dict<V>, from: string, to: string)
    ensures forall i :: 0 <= i < |RenameKey(d, from, to)| ==>
      exists j :: 0 <= j < |d| && RenameKey(d, from, to)[i] == (if d[j].0 == from then to else d[j].0, d[j].1)
    decreases |d|
  {
    if d != [] {
      var init := d[..|d| - 1];
      var last := d[|d| - 1];
      var k := if last.0 == from then to else last.0;
      var ri := RenameKey(init, from, to);
      RenameKeyPairs(init, from, to);
      PutPairs(ri, k, last.1);
      var r := RenameKey(d, from, to);
      assert r == Put(ri, k, last.1);
      forall i | 0 <= i < |r|
        ensures exists j :: 0 <= j < |d| && r[i] == (if d[j].0 == from then to else d[j].0, d[j].1)
      {
        if r[i] == (k, last.1) {
          assert r[i] == (if d[|d| - 1].0 == from then to else d[|d| - 1].0, d[|d| - 1].1);
        } else {
          var j :| 0 <= j < |ri| && r[i] == ri[j];
          var j' :| 0 <= j' < |init| && ri[j] == (if init[j'].0 == from then to else init[j'].0, init[j'].1);
          assert d[j'] == init[j'];
        }
      }
    } else {
      assert RenameKey(d, from, to) == [];
    }
  }

  /** `mapValues`: each value replaced by `f(key, value)`. */
  function MapValues<V>(d: Dict<V>, f: (string, V) -> V): (r: Dict<V>)
    ensures |r| == |d|
    ensures forall i :: 0 <= i < |d| ==> r[i] == (d[i].0, f(d[i].0, d[i].1))
  {
    seq(|d|, i requires 0 <= i < |d| => (d[i].0, f(d[i].0, d[i].1)))
  }

  lemma MapValuesPut<V>(d: Dict<V>, k: string, v: V, f: (string, V) -> V)
    ensures MapValues(Put(d, k, v), f) == Put(MapValues(d, f), k, f(k, v))
  {
    var m := MapValues(d, f);
    assert forall j :: HasKey(m, j) <==> HasKey(d, j) by {
      forall j ensures HasKey(m, j) <==> HasKey(d, j) {
        if HasKey(m, j) {
          var i :| 0 <= i < |m| && m[i].0 == j;
          assert d[i].0 == j;
        }
        if HasKey(d, j) {
          var i :| 0 <= i < |d| && d[i].0 == j;
          assert m[i].0 == j;
        }
      }
    }
    if HasKey(d, k) {
      var p := IndexOfKey(d, k);
      assert m[p].0 == k;
      assert IndexOfKey(m, k) == p;
    }
  }

  /** When `f` cannot tell a key from its new name, renaming keys and then
      mapping values (the order `mapKeys` then `mapValues`) is mapping
      values and then renaming keys. */
  lemma {:induction false} RenameKeyMapValues<V>(d: Dict<V>, from: string, to: string, f: (string, V) -> V)
    requires forall v :: f(to, v) == f(from, v)
    ensures MapValues(RenameKey(d, from, to), f) == RenameKey(MapValues(d, f), from, to)
    decreases |d|
  {
    if d != [] {
      var init := d[..|d| - 1];
      var last := d[|d| - 1];
      var k := if last.0 == from then to else last.0;
      RenameKeyMapValues(init, from, to, f);
      MapValuesPut(RenameKey(init, from, to), k, last.1, f);
      assert MapValues(d, f)[..|d| - 1] == MapValues(init, f);
      assert f(k, last.1) == f(last.0, last.1);
    }
  }

  /** Renaming keys and then mapping values: `from` is gone, and every
      value is the image of an old pair. */
  lemma MapRenamedPairs<V>(d: Dict<V>, from: string, to: string, f: (string, V) -> V, p: V -> bool)
    requires from != to
    requires forall v :: f(to, v) == f(from, v)
    requires forall j :: 0 <= j < |d| ==> p(f(d[j].0, d[j].1))
    ensures !HasKey(MapValues(RenameKey(d, from, to), f), from)
    ensures forall i :: 0 <= i < |MapValues(RenameKey(d, from, to), f)| ==>
      p(MapValues(RenameKey(d, from, to), f)[i].1)
  {
    var renamed := RenameKey(d, from, to);
    var r := MapValues(renamed, f);
    RenameKeyPairs(d, from, to);
    forall i | 0 <= i < |r| ensures r[i].0 != from && p(r[i].1) {
      var j :| 0 <= j < |d| && renamed[i] == (if d[j].0 == from then to else d[j].0, d[j].1);
      assert f(renamed[i].0, d[j].1) == f(d[j].0, d[j].1);
    }
  }

  /** Renaming keys: `from` is gone, and every value is an old value. */
  lemma RenamedValues<V>(d: Dict<V>, from: string, to: string, p: V -> bool)
    requires from != to
    requires forall j :: 0 <= j < |d| ==> p(d[j].1)
    ensures !HasKey(RenameKey(d, from, to), from)
    ensures forall i :: 0 <= i < |RenameKey(d, from, to)| ==> p(RenameKey(d, from, to)[i].1)
  {
    var r := RenameKey(d, from, to);
    RenameKeyPairs(d, from, to);
    forall i | 0 <= i < |r| ensures r[i].0 != from && p(r[i].1) {
      var j :| 0 <= j < |d| && r[i] == (if d[j].0 == from then to else d[j].0, d[j].1);
    }
  }

  /** Two dictionaries with the same keys in the same places agree on
      key membership and distinctness. */
  lemma SameKeys<V>(a: Dict<V>, b: Dict<V>)
    requires |a| == |b| && forall i :: 0 <= i < |a| ==> a[i].0 == b[i].0
    ensures DistinctKeys(a) == DistinctKeys(b)
    ensures forall k :: HasKey(a, k) == HasKey(b, k)
  {
    forall k ensures HasKey(a, k) == HasKey(b, k) {
      if HasKey(a, k) {
        var i :| 0 <= i < |a| && a[i].0 == k;
        assert b[i].0 == k;
      }
      if HasKey(b, k) {
        var i :| 0 <= i < |b| && b[i].0 == k;
        assert a[i].0 == k;
      }
    }
  }
}
