/** Python dicts whose insertion order matters, as association sequences.
    `Put` follows `d[k] = v`: an existing key keeps its position, a new key goes last. */
module Dicts {
  import opened Wrappers

  predicate DistinctKeys<V>(d: seq<(string, V)>) {
    forall i, j :: 0 <= i < j < |d| ==> d[i].0 != d[j].0
  }

  function KeySet<V>(d: seq<(string, V)>): set<string> {
    set i | 0 <= i < |d| :: d[i].0
  }

  function KeysOf<V>(d: seq<(string, V)>): (ks: seq<string>)
    ensures |ks| == |d| && forall i :: 0 <= i < |d| ==> ks[i] == d[i].0
  {
    seq(|d|, i requires 0 <= i < |d| => d[i].0)
  }

  /** Position of the first entry with key `k`, or `|d|` when there is none. */
  function IndexOf<V>(d: seq<(string, V)>, k: string): (i: nat)
    ensures i <= |d|
    ensures i < |d| ==> d[i].0 == k
    ensures forall j :: 0 <= j < i ==> d[j].0 != k
  {
    if d == [] then 0
    else if d[0].0 == k then 0
    else 1 + IndexOf(d[1..], k)
  }

  function Lookup<V>(d: seq<(string, V)>, k: string): (r: Option<V>)
    ensures r.Some? <==> k in KeySet(d)
  {
    var i := IndexOf(d, k);
    if i < |d| then Some(d[i].1) else None
  }

  function Put<V>(d: seq<(string, V)>, k: string, v: V): (r: seq<(string, V)>)
    requires DistinctKeys(d)
    ensures DistinctKeys(r)
  {
    var i := IndexOf(d, k);
    if i < |d| then d[i := (k, v)] else d + [(k, v)]
  }

  /** `for k, v in e.items(): d[k] = v`. */
  function PutAll<V>(d: seq<(string, V)>, e: seq<(string, V)>): (r: seq<(string, V)>)
    requires DistinctKeys(d)
    ensures DistinctKeys(r)
    decreases |e|
  {
    if e == [] then d
    else Put(PutAll(d, e[..|e| - 1]), e[|e| - 1].0, e[|e| - 1].1)
  }

  lemma LookupAt<V>(d: seq<(string, V)>, i: nat)
    requires DistinctKeys(d) && i < |d|
    ensures Lookup(d, d[i].0) == Some(d[i].1)
  {
    var j := IndexOf(d, d[i].0);
    assert !(j < i) && !(i < j);
  }

  /** `d[k] = v` updates key `k` and no other. */
  lemma LookupPut<V>(d: seq<(string, V)>, k: string, v: V, k': string)
    requires DistinctKeys(d)
    ensures Lookup(Put(d, k, v), k') == if k' == k then Some(v) else Lookup(d, k')
  {
    var r := Put(d, k, v);
    var i := IndexOf(d, k);
    if k' == k {
      if i < |d| { LookupAt(r, i); } else { LookupAt(r, |d|); }
    } else {
      var j := IndexOf(d, k');
      if j < |d| {
        assert r[j] == d[j];
        LookupAt(r, j);
        LookupAt(d, j);
      }
    }
  }

  /** Updating a key keeps every position; a new key is appended. */
  lemma PutKeepsOrder<V>(d: seq<(string, V)>, k: string, v: V)
    requires DistinctKeys(d)
    ensures KeysOf(Put(d, k, v)) == if k in KeySet(d) then KeysOf(d) else KeysOf(d) + [k]
  {
  }

  /** Later updates win: the value of `k` after `PutAll` comes from `e` when `e` has `k`. */
  lemma {:induction false} LookupPutAll<V>(d: seq<(string, V)>, e: seq<(string, V)>, k: string)
    requires DistinctKeys(d) && DistinctKeys(e)
    ensures Lookup(PutAll(d, e), k) == if k in KeySet(e) then Lookup(e, k) else Lookup(d, k)
    decreases |e|
  {
    if e != [] {
      var e' := e[..|e| - 1];
      var last := e[|e| - 1];
      assert DistinctKeys(e');
      LookupPutAll(d, e', k);
      LookupPut(PutAll(d, e'), last.0, last.1, k);
      DropLast(e, k);
    }
  }

  /** The last entry of `e` against the rest of it. */
  lemma DropLast<V>(e: seq<(string, V)>, k: string)
    requires DistinctKeys(e) && e != []
    ensures k in KeySet(e) <==> k in KeySet(e[..|e| - 1]) || k == e[|e| - 1].0
    ensures k == e[|e| - 1].0 ==> Lookup(e, k) == Some(e[|e| - 1].1)
    ensures k != e[|e| - 1].0 ==> Lookup(e, k) == Lookup(e[..|e| - 1], k)
  {
    var e' := e[..|e| - 1];
    if k in KeySet(e') {
      var m :| 0 <= m < |e'| && e'[m].0 == k;
      assert e[m] == e'[m];
    }
    if k == e[|e| - 1].0 {
      LookupAt(e, |e| - 1);
    } else if k in KeySet(e) {
      var m :| 0 <= m < |e| && e[m].0 == k;
      assert e'[m] == e[m];
      LookupAt(e', m);
      LookupAt(e, m);
    }
  }
}
