/** The relational core that every rule's pipeline is built from: a row filter
    (`frame.filter(...)`), a `group_by(key).agg(count)` and a filter over the
    aggregated groups. Groups are listed in order of first occurrence; the
    relational backends promise no order, and no property below depends on it. */
module Grouping {
  import opened Common

  /** One output row of `group_by(key).agg(...)`: the key and its count column. */
  datatype Tally<K> = Tally(key: K, count: nat)

  function Keys<K>(ts: seq<Tally<K>>): (r: seq<K>)
    ensures |r| == |ts|
    ensures forall i :: 0 <= i < |ts| ==> r[i] == ts[i].key
  {
    if |ts| == 0 then [] else [ts[0].key] + Keys(ts[1..])
  }

  /** The sum of a count column. */
  function Total<K>(ts: seq<Tally<K>>): nat
  {
    if |ts| == 0 then 0 else ts[0].count + Total(ts[1..])
  }

  ghost predicate DistinctKeys<K>(ts: seq<Tally<K>>)
  {
    forall i, j :: 0 <= i < j < |ts| ==> ts[i].key != ts[j].key
  }

  /** The sum of the counts filed under key `k`. */
  function CountOf<K(==)>(ts: seq<Tally<K>>, k: K): nat
  {
    if |ts| == 0 then 0 else (if ts[0].key == k then ts[0].count else 0) + CountOf(ts[1..], k)
  }

  /** Adds one row with key `k` to a grouping. */
  function Bump<K(==)>(ts: seq<Tally<K>>, k: K): seq<Tally<K>>
  {
    if |ts| == 0 then [Tally(k, 1)]
    else if ts[0].key == k then [Tally(k, ts[0].count + 1)] + ts[1..]
    else [ts[0]] + Bump(ts[1..], k)
  }

  /** `group_by(key).agg(nw.len())`: every distinct key with its number of rows. */
  function GroupLen<K(==)>(s: seq<K>): seq<Tally<K>>
  {
    if |s| == 0 then [] else Bump(GroupLen(s[..|s| - 1]), s[|s| - 1])
  }

  lemma {:induction false} BumpFacts<K>(ts: seq<Tally<K>>, k: K)
    ensures forall j :: CountOf(Bump(ts, k), j) == CountOf(ts, j) + (if j == k then 1 else 0)
    ensures Total(Bump(ts, k)) == Total(ts) + 1
    ensures forall j :: j in Keys(Bump(ts, k)) <==> j in Keys(ts) || j == k
    ensures (forall t :: t in ts ==> t.count > 0) ==> forall t :: t in Bump(ts, k) ==> t.count > 0
  {
    if |ts| == 0 {
    } else if ts[0].key == k {
      var b := Bump(ts, k);
      assert b[1..] == ts[1..];
      assert Keys(b) == [k] + Keys(ts[1..]);
      assert Keys(ts) == [k] + Keys(ts[1..]);
    } else {
      BumpFacts(ts[1..], k);
      var b := Bump(ts, k);
      var rest := Bump(ts[1..], k);
      assert b == [ts[0]] + rest;
      assert b[1..] == rest;
      assert Keys(b) == [ts[0].key] + Keys(rest);
      assert Keys(ts) == [ts[0].key] + Keys(ts[1..]);
      if forall t :: t in ts ==> t.count > 0 {
        assert forall t :: t in ts[1..] ==> t in ts;
      }
    }
  }

  /** Distinct keys, split at the head. */
  lemma DistinctTail<K>(ts: seq<Tally<K>>)
    requires |ts| > 0 && DistinctKeys(ts)
    ensures DistinctKeys(ts[1..]) && ts[0].key !in Keys(ts[1..])
  {
    forall i, j | 0 <= i < j < |ts[1..]| ensures ts[1..][i].key != ts[1..][j].key {
      assert ts[1..][i] == ts[i + 1] && ts[1..][j] == ts[j + 1];
    }
    forall i | 0 <= i < |ts[1..]| ensures Keys(ts[1..])[i] != ts[0].key {
      assert ts[1..][i] == ts[i + 1];
    }
  }

  /** Distinct keys, joined at the head. */
  lemma DistinctCons<K>(x: Tally<K>, rest: seq<Tally<K>>)
    requires DistinctKeys(rest) && x.key !in Keys(rest)
    ensures DistinctKeys([x] + rest)
  {
    var full := [x] + rest;
    forall i, j | 0 <= i < j < |full| ensures full[i].key != full[j].key {
      assert full[j] == rest[j - 1];
      if i == 0 {
        assert Keys(rest)[j - 1] == full[j].key;
      } else {
        assert full[i] == rest[i - 1];
      }
    }
  }

  lemma {:induction false} BumpDistinct<K>(ts: seq<Tally<K>>, k: K)
    requires DistinctKeys(ts)
    ensures DistinctKeys(Bump(ts, k))
  {
    if |ts| == 0 {
    } else {
      DistinctTail(ts);
      if ts[0].key == k {
        DistinctCons(Tally(k, ts[0].count + 1), ts[1..]);
      } else {
        BumpDistinct(ts[1..], k);
        BumpFacts(ts[1..], k);
        DistinctCons(ts[0], Bump(ts[1..], k));
      }
    }
  }

  lemma {:induction false} GroupLenFacts<K>(s: seq<K>)
    ensures DistinctKeys(GroupLen(s))
    ensures forall k :: CountOf(GroupLen(s), k) == multiset(s)[k]
    ensures forall k :: k in Keys(GroupLen(s)) <==> k in s
    ensures forall t :: t in GroupLen(s) ==> t.count > 0
    ensures Total(GroupLen(s)) == |s|
  {
    if |s| > 0 {
      var init, last := s[..|s| - 1], s[|s| - 1];
      assert s == init + [last];
      GroupLenFacts(init);
      BumpFacts(GroupLen(init), last);
      BumpDistinct(GroupLen(init), last);
      assert multiset(s) == multiset(init) + multiset{last};
      forall k ensures k in s <==> k in init || k == last {
        assert k in s <==> k in multiset(s);
      }
    }
  }

  /** In a grouping with distinct keys a group's count is everything filed under its key. */
  lemma {:induction false} CountOfDistinct<K>(ts: seq<Tally<K>>, t: Tally<K>)
    requires DistinctKeys(ts)
    requires t in ts
    ensures CountOf(ts, t.key) == t.count
  {
    if ts[0] == t {
      CountOfAbsent(ts[1..], t.key);
    } else {
      assert DistinctKeys(ts[1..]) by {
        forall i, j | 0 <= i < j < |ts[1..]| ensures ts[1..][i].key != ts[1..][j].key {
          assert ts[1..][i] == ts[i + 1] && ts[1..][j] == ts[j + 1];
        }
      }
      var n :| 0 <= n < |ts| && ts[n] == t;
      assert n > 0;
      assert ts[0].key != t.key;
      assert ts[1..][n - 1] == t;
      CountOfDistinct(ts[1..], t);
    }
  }

  lemma {:induction false} CountOfAbsent<K>(ts: seq<Tally<K>>, k: K)
    requires DistinctKeys([Tally(k, 0)] + ts) || forall i :: 0 <= i < |ts| ==> ts[i].key != k
    ensures CountOf(ts, k) == 0
  {
    var full := [Tally(k, 0)] + ts;
    assert forall i :: 0 <= i < |ts| ==> ts[i].key != k by {
      if DistinctKeys(full) {
        forall i | 0 <= i < |ts| ensures ts[i].key != k {
          assert full[0].key == k && full[i + 1] == ts[i];
        }
      }
    }
    if |ts| > 0 {
      CountOfAbsent(ts[1..], k);
    }
  }

  /** The keys of the rows that survive a filter, in row order. */
  function Pick<T, K>(rows: seq<T>, keep: T -> bool, key: T -> K): (r: seq<K>)
    ensures |r| <= |rows|
  {
    if |rows| == 0 then []
    else Pick(rows[..|rows| - 1], keep, key)
         + (if keep(rows[|rows| - 1]) then [key(rows[|rows| - 1])] else [])
  }

  /** The indices of the rows that survive the filter and carry key `k`. */
  ghost function Hits<T, K>(rows: seq<T>, keep: T -> bool, key: T -> K, k: K): set<int>
  {
    set i | 0 <= i < |rows| && keep(rows[i]) && key(rows[i]) == k
  }

  /** The indices of the rows that survive the filter. */
  ghost function Kept<T>(rows: seq<T>, keep: T -> bool): set<int>
  {
    set i | 0 <= i < |rows| && keep(rows[i])
  }

  lemma {:induction false} PickFacts<T, K>(rows: seq<T>, keep: T -> bool, key: T -> K)
    ensures forall k :: multiset(Pick(rows, keep, key))[k] == |Hits(rows, keep, key, k)|
    ensures |Pick(rows, keep, key)| == |Kept(rows, keep)|
  {
    forall k ensures multiset(Pick(rows, keep, key))[k] == |Hits(rows, keep, key, k)| {
      PickCount(rows, keep, key, k);
    }
    PickLength(rows, keep, key);
  }

  lemma {:induction false} PickCount<T, K>(rows: seq<T>, keep: T -> bool, key: T -> K, k: K)
    ensures multiset(Pick(rows, keep, key))[k] == |Hits(rows, keep, key, k)|
  {
    if |rows| > 0 {
      var n := |rows| - 1;
      var init := rows[..n];
      PickCount(init, keep, key, k);
      var tail := if keep(rows[n]) then [key(rows[n])] else [];
      assert Pick(rows, keep, key) == Pick(init, keep, key) + tail;
      assert multiset(Pick(rows, keep, key)) == multiset(Pick(init, keep, key)) + multiset(tail);
      HitsSnoc(rows, keep, key, k);
    }
  }

  lemma HitsSnoc<T, K>(rows: seq<T>, keep: T -> bool, key: T -> K, k: K)
    requires |rows| > 0
    ensures var n := |rows| - 1;
            |Hits(rows, keep, key, k)|
            == |Hits(rows[..n], keep, key, k)| + (if keep(rows[n]) && key(rows[n]) == k then 1 else 0)
  {
    var n := |rows| - 1;
    var a := Hits(rows[..n], keep, key, k);
    var here: set<int> := if keep(rows[n]) && key(rows[n]) == k then {n} else {};
    forall i ensures i in Hits(rows, keep, key, k) <==> i in a + here {
      if 0 <= i < n {
        assert rows[..n][i] == rows[i];
      }
    }
    assert Hits(rows, keep, key, k) == a + here;
    assert n !in a;
  }

  lemma {:induction false} PickLength<T, K>(rows: seq<T>, keep: T -> bool, key: T -> K)
    ensures |Pick(rows, keep, key)| == |Kept(rows, keep)|
  {
    if |rows| > 0 {
      var n := |rows| - 1;
      var init := rows[..n];
      PickLength(init, keep, key);
      var here := if keep(rows[n]) then {n} else {};
      assert forall i :: 0 <= i < n ==> init[i] == rows[i];
      assert Kept(rows, keep) == Kept(init, keep) + here;
      assert n !in Kept(init, keep);
    }
  }

  /** `ts` is the result of `filter(keep).group_by(key).agg(nw.len())` over `rows`:
      every surviving row's key is listed exactly once, with the number of
      surviving rows that carry it. */
  ghost predicate Tallies<T, K>(ts: seq<Tally<K>>, rows: seq<T>, keep: T -> bool, key: T -> K)
  {
    && DistinctKeys(ts)
    && (forall i :: 0 <= i < |rows| && keep(rows[i]) ==> key(rows[i]) in Keys(ts))
    && (forall t :: t in ts ==> 0 < |Hits(rows, keep, key, t.key)| && t.count == |Hits(rows, keep, key, t.key)|)
  }

  /** Filter, group and count by length: the grouping tallies the surviving rows,
      and its count column sums to the number of surviving rows. */
  lemma GroupPick<T, K>(rows: seq<T>, keep: T -> bool, key: T -> K)
    ensures Tallies(GroupLen(Pick(rows, keep, key)), rows, keep, key)
    ensures Total(GroupLen(Pick(rows, keep, key))) == |Kept(rows, keep)|
  {
    var s := Pick(rows, keep, key);
    var ts := GroupLen(s);
    GroupLenFacts(s);
    PickLength(rows, keep, key);
    forall i | 0 <= i < |rows| && keep(rows[i]) ensures key(rows[i]) in Keys(ts) {
      var k := key(rows[i]);
      assert i in Hits(rows, keep, key, k);
      PickCount(rows, keep, key, k);
      assert k in multiset(s);
    }
    forall t | t in ts ensures 0 < |Hits(rows, keep, key, t.key)| && t.count == |Hits(rows, keep, key, t.key)| {
      CountOfDistinct(ts, t);
      PickCount(rows, keep, key, t.key);
      assert CountOf(ts, t.key) == multiset(s)[t.key];
      assert t.count > 0;
    }
  }

  /** `agg(nw.col(key).count())`: `count` skips nulls, so the null group counts 0. */
  function CountNonNull<V>(ts: seq<Tally<Option<V>>>): (r: seq<Tally<Option<V>>>)
    ensures |r| == |ts|
    ensures forall i :: 0 <= i < |ts| ==> r[i] == (if ts[i].key.None? then Tally(None, 0) else ts[i])
  {
    if |ts| == 0 then [] else [if ts[0].key.None? then Tally(None, 0) else ts[0]] + CountNonNull(ts[1..])
  }

  lemma {:induction false} CountNonNullTotal<V>(ts: seq<Tally<Option<V>>>)
    ensures Total(CountNonNull(ts)) + CountOf(ts, None) == Total(ts)
  {
    if |ts| > 0 {
      CountNonNullTotal(ts[1..]);
      assert CountNonNull(ts)[1..] == CountNonNull(ts[1..]);
    }
  }

  /** Like `Tallies`, for a count column that skips null keys. */
  ghost predicate TalliesNonNull<T, V>(ts: seq<Tally<Option<V>>>, rows: seq<T>, keep: T -> bool, key: T -> Option<V>)
  {
    && DistinctKeys(ts)
    && (forall i :: 0 <= i < |rows| && keep(rows[i]) ==> key(rows[i]) in Keys(ts))
    && (forall t :: t in ts ==>
          0 < |Hits(rows, keep, key, t.key)| && t.count == (if t.key.None? then 0 else |Hits(rows, keep, key, t.key)|))
  }

  /** Filter, group and `count()`: the grouping tallies the surviving rows, nulls
      count nothing, and the count column sums to the surviving non-null rows. */
  lemma GroupPickNonNull<T, V>(rows: seq<T>, keep: T -> bool, key: T -> Option<V>)
    ensures TalliesNonNull(CountNonNull(GroupLen(Pick(rows, keep, key))), rows, keep, key)
    ensures Total(CountNonNull(GroupLen(Pick(rows, keep, key))))
            == |Kept(rows, keep)| - |Hits(rows, keep, key, None)|
  {
    var ts := GroupLen(Pick(rows, keep, key));
    GroupPick(rows, keep, key);
    CountNonNullShape(ts);
    NullGroupCount(rows, keep, key);
    CountNonNullTotal(ts);
    var r := CountNonNull(ts);
    forall t | t in r
      ensures 0 < |Hits(rows, keep, key, t.key)|
      ensures t.count == (if t.key.None? then 0 else |Hits(rows, keep, key, t.key)|)
    {
      var u :| u in ts && u.key == t.key && t.count == (if t.key.None? then 0 else u.count);
    }
  }

  /** Zeroing the null group keeps the keys, in order, and every other count. */
  lemma CountNonNullShape<V>(ts: seq<Tally<Option<V>>>)
    ensures Keys(CountNonNull(ts)) == Keys(ts)
    ensures DistinctKeys(ts) ==> DistinctKeys(CountNonNull(ts))
    ensures forall t :: t in CountNonNull(ts) ==>
              exists u :: u in ts && u.key == t.key && t.count == (if t.key.None? then 0 else u.count)
  {
    var r := CountNonNull(ts);
    assert forall i :: 0 <= i < |r| ==> r[i].key == ts[i].key;
    assert Keys(r) == Keys(ts) by {
      assert forall i :: 0 <= i < |r| ==> Keys(r)[i] == Keys(ts)[i];
    }
    forall t | t in r ensures exists u :: u in ts && u.key == t.key && t.count == (if t.key.None? then 0 else u.count) {
      var i :| 0 <= i < |r| && r[i] == t;
      assert ts[i] in ts;
    }
  }

  /** Everything the grouping files under the null key is a surviving null row. */
  lemma NullGroupCount<T, V>(rows: seq<T>, keep: T -> bool, key: T -> Option<V>)
    ensures CountOf(GroupLen(Pick(rows, keep, key)), None) == |Hits(rows, keep, key, None)|
    ensures Total(GroupLen(Pick(rows, keep, key))) == |Kept(rows, keep)|
  {
    GroupLenFacts(Pick(rows, keep, key));
    PickCount(rows, keep, key, None);
    PickLength(rows, keep, key);
  }

  /** `.filter(p)` over aggregated groups. */
  function FilterTallies<K>(ts: seq<Tally<K>>, p: Tally<K> -> bool): (r: seq<Tally<K>>)
    ensures forall i :: 0 <= i < |r| ==> r[i] in ts && p(r[i])
    ensures forall i :: 0 <= i < |ts| && p(ts[i]) ==> ts[i] in r
    ensures DistinctKeys(ts) ==> DistinctKeys(r)
  {
    if |ts| == 0 then []
    else
      var rest := FilterTallies(ts[1..], p);
      assert DistinctKeys(ts) ==> DistinctKeys(ts[1..]) by {
        if DistinctKeys(ts) {
          forall i, j | 0 <= i < j < |ts[1..]| ensures ts[1..][i].key != ts[1..][j].key {
            assert ts[1..][i] == ts[i + 1] && ts[1..][j] == ts[j + 1];
          }
        }
      }
      assert forall i :: 1 <= i < |ts| ==> ts[i] == ts[1..][i - 1];
      if p(ts[0]) then
        assert DistinctKeys(ts) ==> DistinctKeys([ts[0]] + rest) by {
          if DistinctKeys(ts) {
            var full := [ts[0]] + rest;
            forall i, j | 0 <= i < j < |full| ensures full[i].key != full[j].key {
              if i == 0 {
                assert full[j] == rest[j - 1];
                assert full[j] in ts[1..];
                var m :| 0 <= m < |ts[1..]| && ts[1..][m] == full[j];
                assert ts[m + 1] == full[j];
              } else {
                assert full[i] == rest[i - 1] && full[j] == rest[j - 1];
              }
            }
          }
        }
        [ts[0]] + rest
      else rest
  }

  /** A key whose groups all pass the filter survives it. */
  lemma FilterKeeps<K>(ts: seq<Tally<K>>, p: Tally<K> -> bool, k: K)
    requires k in Keys(ts)
    requires forall t :: t in ts && t.key == k ==> p(t)
    ensures k in Keys(FilterTallies(ts, p))
  {
    var j :| 0 <= j < |ts| && Keys(ts)[j] == k;
    assert ts[j] in ts;
    var r := FilterTallies(ts, p);
    assert ts[j] in r;
    var m :| 0 <= m < |r| && r[m] == ts[j];
    assert Keys(r)[m] == k;
  }

  /** `filter(keep).group_by(key).agg(nw.col(key).count())`. */
  function GroupCount<T, V(==)>(rows: seq<T>, keep: T -> bool, key: T -> Option<V>): seq<Tally<Option<V>>>
  {
    CountNonNull(GroupLen(Pick(rows, keep, key)))
  }

  /** When no surviving row has a null key, `count()` and `len()` agree: the
      grouping tallies the surviving rows and sums to their number. */
  lemma GroupCountNoNulls<T, V>(rows: seq<T>, keep: T -> bool, key: T -> Option<V>)
    requires forall i :: 0 <= i < |rows| && keep(rows[i]) ==> key(rows[i]).Some?
    ensures Tallies(GroupCount(rows, keep, key), rows, keep, key)
    ensures Total(GroupCount(rows, keep, key)) == |Kept(rows, keep)|
  {
    GroupPickNonNull(rows, keep, key);
    assert Hits(rows, keep, key, None) == {};
  }

  /** Every group of a tally stands for at least one surviving row carrying its key. */
  lemma TallyWitness<T, K>(rows: seq<T>, keep: T -> bool, key: T -> K, k: K)
    requires 0 < |Hits(rows, keep, key, k)|
    ensures exists i :: 0 <= i < |rows| && keep(rows[i]) && key(rows[i]) == k
  {
    var i :| i in Hits(rows, keep, key, k);
  }

  /** `with_columns(f(key).alias(key))` after a grouping: each group keeps its
      count, under a rewritten key. */
  function MapKeys<K, L>(ts: seq<Tally<K>>, f: K -> L): (r: seq<Tally<L>>)
    ensures |r| == |ts|
    ensures forall i :: 0 <= i < |ts| ==> r[i] == Tally(f(ts[i].key), ts[i].count)
  {
    if |ts| == 0 then [] else [Tally(f(ts[0].key), ts[0].count)] + MapKeys(ts[1..], f)
  }

  lemma {:induction false} MapKeysTotal<K, L>(ts: seq<Tally<K>>, f: K -> L)
    ensures Total(MapKeys(ts, f)) == Total(ts)
  {
    if |ts| > 0 {
      MapKeysTotal(ts[1..], f);
      assert MapKeys(ts, f)[1..] == MapKeys(ts[1..], f);
    }
  }

  /** Group whole rows, then rewrite each group's key: the counts still sum to
      the kept rows, every key comes from a kept row and every kept row's
      rewritten key is listed. */
  lemma GroupMapped<T, L>(rows: seq<T>, keep: T -> bool, f: T -> L)
    ensures Total(MapKeys(GroupLen(Pick(rows, keep, Identity)), f)) == |Kept(rows, keep)|
    ensures forall t :: t in MapKeys(GroupLen(Pick(rows, keep, Identity)), f) ==>
              exists i :: 0 <= i < |rows| && keep(rows[i]) && t.key == f(rows[i])
    ensures forall i :: 0 <= i < |rows| && keep(rows[i]) ==> f(rows[i]) in Keys(MapKeys(GroupLen(Pick(rows, keep, Identity)), f))
  {
    var ts := GroupLen(Pick(rows, keep, Identity));
    GroupPick(rows, keep, Identity);
    MapKeysTotal(ts, f);
    MappedWitness(rows, keep, f, ts);
    MappedComplete(rows, keep, f, ts);
  }

  lemma MappedWitness<T, L>(rows: seq<T>, keep: T -> bool, f: T -> L, ts: seq<Tally<T>>)
    requires forall t :: t in ts ==> 0 < |Hits(rows, keep, Identity, t.key)|
    ensures forall t :: t in MapKeys(ts, f) ==> exists i :: 0 <= i < |rows| && keep(rows[i]) && t.key == f(rows[i])
  {
    var r := MapKeys(ts, f);
    forall t | t in r ensures exists i :: 0 <= i < |rows| && keep(rows[i]) && t.key == f(rows[i]) {
      var m :| 0 <= m < |r| && r[m] == t;
      assert ts[m] in ts;
      TallyWitness(rows, keep, Identity, ts[m].key);
    }
  }

  lemma MappedComplete<T, L>(rows: seq<T>, keep: T -> bool, f: T -> L, ts: seq<Tally<T>>)
    requires forall i :: 0 <= i < |rows| && keep(rows[i]) ==> Identity(rows[i]) in Keys(ts)
    ensures forall i :: 0 <= i < |rows| && keep(rows[i]) ==> f(rows[i]) in Keys(MapKeys(ts, f))
  {
    var r := MapKeys(ts, f);
    forall i | 0 <= i < |rows| && keep(rows[i]) ensures f(rows[i]) in Keys(r) {
      var m :| 0 <= m < |ts| && Keys(ts)[m] == rows[i];
      assert Keys(r)[m] == f(rows[i]);
    }
  }

  /** Filtering groups keeps a part of the total. */
  lemma {:induction false} FilterTalliesTotal<K>(ts: seq<Tally<K>>, p: Tally<K> -> bool)
    ensures Total(FilterTallies(ts, p)) <= Total(ts)
  {
    if |ts| > 0 {
      FilterTalliesTotal(ts[1..], p);
    }
  }

  function Identity<T>(x: T): T
  {
    x
  }

  /** `filter(keep).group_by(col).agg(nw.col(col).count())` for a filter that
      drops nulls: the groups are exactly the distinct surviving values, each
      with its number of rows, and they sum to the number of surviving rows. */
  lemma CountByValue<V>(cells: seq<Option<V>>, keep: Option<V> -> bool)
    requires forall i :: 0 <= i < |cells| && keep(cells[i]) ==> cells[i].Some?
    ensures Tallies(GroupCount(cells, keep, Identity), cells, keep, Identity)
    ensures forall t :: t in GroupCount(cells, keep, Identity) ==> keep(t.key)
    ensures Total(GroupCount(cells, keep, Identity)) == |Kept(cells, keep)|
  {
    var ts := GroupCount(cells, keep, Identity);
    GroupCountNoNulls(cells, keep, Identity);
    forall t | t in ts ensures keep(t.key) {
      TallyWitness(cells, keep, Identity, t.key);
    }
  }
}
