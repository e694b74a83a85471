/**
 * The relay server's transcript (server.js:137-145): a map from turn order to
 * the latest transcript of that turn, and the full transcript built from it by
 * sorting the turn orders numerically and joining the texts with single spaces.
 */
module Transcript {

  /** The server's `turns` object. */
  type Turns = map<int, string>

  /** One AssemblyAI Turn message's payload: its turn order and its transcript. */
  datatype Turn = Turn(order: int, transcript: string)

  predicate Increasing(xs: seq<int>) {
    forall i, j :: 0 <= i < j < |xs| ==> xs[i] < xs[j]
  }

  lemma {:induction false} LeastExists(s: set<int>)
    requires s != {}
    ensures exists m :: m in s && forall y :: y in s ==> m <= y
    decreases |s|
  {
    if forall y :: y !in s {
      assert false;
    }
    var x :| x in s;
    if s == {x} {
      assert forall y :: y in s ==> x <= y;
    } else {
      var rest := s - {x};
      LeastExists(rest);
      var m :| m in rest && forall y :: y in rest ==> m <= y;
      var w := if x < m then x else m;
      forall y | y in s
        ensures w <= y
      {
        if y != x {
          assert y in rest;
        }
      }
      assert w in s;
    }
  }

  /** The least element of a non-empty finite set of turn orders. */
  function Smallest(s: set<int>): (m: int)
    requires s != {}
    ensures m in s && forall y :: y in s ==> m <= y
  {
    LeastExists(s);
    var m :| m in s && forall y :: y in s ==> m <= y;
    m
  }

  /**
   * The turn orders in ascending numeric order, each once: the result of
   * `Object.keys(turns).sort((a, b) => Number(a) - Number(b))`.
   */
  function SortedKeys(keys: set<int>): (r: seq<int>)
    ensures |r| == |keys|
    ensures forall k :: k in r <==> k in keys
    ensures Increasing(r)
    decreases |keys|
  {
    if keys == {} then []
    else
      var m := Smallest(keys);
      var rest := SortedKeys(keys - {m});
      IncreasingCons(m, rest);
      [m] + rest
  }

  /** An order below every element of an increasing sequence can go in front. */
  lemma IncreasingCons(m: int, rest: seq<int>)
    requires Increasing(rest)
    requires forall k :: k in rest ==> m < k
    ensures Increasing([m] + rest)
  {
    var xs := [m] + rest;
    forall i, j | 0 <= i < j < |xs|
      ensures xs[i] < xs[j]
    {
      assert xs[j] == rest[j - 1] && rest[j - 1] in rest;
      if i > 0 {
        assert xs[i] == rest[i - 1];
      }
    }
  }

  /** Two increasing sequences with the same elements are equal. */
  lemma {:induction false} IncreasingUnique(a: seq<int>, b: seq<int>)
    requires Increasing(a) && Increasing(b)
    requires forall k :: k in a <==> k in b
    ensures a == b
    decreases |a| + |b|, |b|
  {
    if a != [] {
      assert a[0] in a;
      assert b != [] by { assert a[0] in b; }
      assert b[0] in b;
      assert a[0] == b[0] by {
        assert a[0] in b;
        assert b[0] in a;
      }
      forall k
        ensures k in a[1..] <==> k in b[1..]
      {
        if k in a[1..] {
          assert k in b && k != b[0];
        }
        if k in b[1..] {
          assert k in a && k != a[0];
        }
      }
      IncreasingUnique(a[1..], b[1..]);
      assert a == [a[0]] + a[1..] && b == [b[0]] + b[1..];
    } else if b != [] {
      IncreasingUnique(b, a);
    }
  }

  /**
   * Whatever ordering the JavaScript sort produces from the distinct keys
   * with the numeric comparator, it is SortedKeys: the transcript does not
   * depend on the order in which Object.keys lists the turns.
   */
  lemma NumericSortIsSortedKeys(ks: seq<int>, turns: Turns)
    requires forall i, j :: 0 <= i < j < |ks| ==> ks[i] != ks[j]
    requires forall i, j :: 0 <= i < j < |ks| ==> ks[i] <= ks[j]
    requires forall k :: k in ks <==> k in turns
    ensures ks == SortedKeys(turns.Keys)
  {
    IncreasingUnique(ks, SortedKeys(turns.Keys));
  }

  /** The transcripts stored under the given orders, in that order. */
  function Values(turns: Turns, ks: seq<int>): (r: seq<string>)
    requires forall i :: 0 <= i < |ks| ==> ks[i] in turns
    ensures |r| == |ks|
    ensures forall i :: 0 <= i < |ks| ==> r[i] == turns[ks[i]]
  {
    seq(|ks|, i requires 0 <= i < |ks| => turns[ks[i]])
  }

  /** The stored transcripts in ascending turn order (`.map((k) => turns[k])`). */
  function Words(turns: Turns): seq<string> {
    Values(turns, SortedKeys(turns.Keys))
  }

  /** `Array.prototype.join(" ")`: the empty string for no words. */
  function Join(words: seq<string>): string
    decreases |words|
  {
    if |words| == 0 then ""
    else if |words| == 1 then words[0]
    else Join(words[..|words| - 1]) + " " + words[|words| - 1]
  }

  /** Joining two non-empty runs of words puts exactly one space between them. */
  lemma {:induction false} JoinAppend(a: seq<string>, b: seq<string>)
    requires a != [] && b != []
    ensures Join(a + b) == Join(a) + " " + Join(b)
    decreases |b|
  {
    var ab := a + b;
    if |b| == 1 {
      assert ab[..|ab| - 1] == a;
    } else {
      var b' := b[..|b| - 1];
      assert ab[..|ab| - 1] == a + b';
      assert b[..|b| - 1] == b';
      JoinAppend(a, b');
    }
  }

  /** The full transcript sent after each Turn (server.js:142-145). */
  function OrderedTranscript(turns: Turns): string {
    Join(Words(turns))
  }

  /** A Turn stores its transcript under its order, replacing any earlier one (server.js:139). */
  function Store(turns: Turns, t: Turn): (r: Turns)
    ensures r.Keys == turns.Keys + {t.order}
    ensures r[t.order] == t.transcript
    ensures forall k :: k in turns && k != t.order ==> r[k] == turns[k]
  {
    turns[t.order := t.transcript]
  }

  /** Adding an order above every key appends it to the sorted keys. */
  lemma SortedKeysWithLater(keys: set<int>, o: int)
    requires forall k :: k in keys ==> k < o
    ensures SortedKeys(keys + {o}) == SortedKeys(keys) + [o]
  {
    var ks := SortedKeys(keys);
    var ext := ks + [o];
    forall i, j | 0 <= i < j < |ext|
      ensures ext[i] < ext[j]
    {
      if j == |ks| {
        assert ext[i] == ks[i] && ks[i] in keys;
      }
    }
    forall k
      ensures k in ext <==> k in SortedKeys(keys + {o})
    {
      assert k in ext <==> k in ks || k == o;
    }
    IncreasingUnique(ext, SortedKeys(keys + {o}));
  }

  lemma ValuesSnoc(turns: Turns, ks: seq<int>, o: int)
    requires forall i :: 0 <= i < |ks| ==> ks[i] in turns
    requires o in turns
    ensures Values(turns, ks + [o]) == Values(turns, ks) + [turns[o]]
  {
  }

  lemma ValuesAgree(turns: Turns, other: Turns, ks: seq<int>)
    requires forall i :: 0 <= i < |ks| ==> ks[i] in turns && ks[i] in other && turns[ks[i]] == other[ks[i]]
    ensures Values(turns, ks) == Values(other, ks)
  {
  }

  /** Storing a turn above every listed order leaves those orders' texts alone. */
  lemma ValuesStoreAbove(turns: Turns, ks: seq<int>, t: Turn)
    requires forall i :: 0 <= i < |ks| ==> ks[i] in turns && ks[i] < t.order
    ensures Values(Store(turns, t), ks) == Values(turns, ks)
  {
    ValuesAgree(turns, Store(turns, t), ks);
  }

  /** The words of a map whose sorted keys end with `o` end with the text under `o`. */
  lemma WordsSnoc(m: Turns, ks: seq<int>, o: int)
    requires SortedKeys(m.Keys) == ks + [o]
    ensures forall i :: 0 <= i < |ks| ==> ks[i] in m
    ensures Words(m) == Values(m, ks) + [m[o]]
  {
    var all := ks + [o];
    assert forall i :: 0 <= i < |all| ==> all[i] in m;
    assert forall i :: 0 <= i < |ks| ==> ks[i] == all[i];
    ValuesSnoc(m, ks, o);
  }

  /** A turn above every stored order adds its text as the last word. */
  lemma WordsWithLater(turns: Turns, t: Turn)
    requires forall k :: k in turns ==> k < t.order
    ensures Words(Store(turns, t)) == Words(turns) + [t.transcript]
  {
    var after := Store(turns, t);
    var ks := SortedKeys(turns.Keys);
    assert after.Keys == turns.Keys + {t.order};
    SortedKeysWithLater(turns.Keys, t.order);
    WordsSnoc(after, ks, t.order);
    ValuesStoreAbove(turns, ks, t);
  }

  /**
   * A turn whose order is above every stored one extends the transcript by one
   * space and its text.
   */
  lemma LaterTurnAppends(turns: Turns, t: Turn)
    requires forall k :: k in turns ==> k < t.order
    ensures OrderedTranscript(Store(turns, t)) ==
      if |Words(turns)| == 0 then t.transcript else OrderedTranscript(turns) + " " + t.transcript
  {
    WordsWithLater(turns, t);
    if |Words(turns)| == 0 {
      assert Words(Store(turns, t)) == [t.transcript];
    } else {
      JoinAppend(Words(turns), [t.transcript]);
    }
  }

  /** After a reset, the first turn's transcript is the whole transcript. */
  lemma FirstTurnAfterReset(t: Turn)
    ensures OrderedTranscript(Store(map[], t)) == t.transcript
  {
    LaterTurnAppends(map[], t);
  }

  /**
   * A Turn for an order already stored replaces that turn's text in place:
   * the words keep their positions and only that order's word changes.
   */
  lemma ReplacedTurnKeepsPlace(turns: Turns, t: Turn)
    requires t.order in turns
    ensures |Words(Store(turns, t))| == |Words(turns)|
    ensures forall i :: 0 <= i < |Words(turns)| ==>
      Words(Store(turns, t))[i] ==
        if SortedKeys(turns.Keys)[i] == t.order then t.transcript else Words(turns)[i]
  {
    assert Store(turns, t).Keys == turns.Keys;
  }

  /** The map after turns arrive in the given order, each stored as it comes. */
  function StoreAll(turns: Turns, ts: seq<Turn>): Turns
    decreases |ts|
  {
    if ts == [] then turns else StoreAll(Store(turns, ts[0]), ts[1..])
  }

  predicate DistinctOrders(ts: seq<Turn>) {
    forall i, j :: 0 <= i < j < |ts| ==> ts[i].order != ts[j].order
  }

  /** With distinct orders, every arrived turn is stored and the rest is kept. */
  lemma {:induction false} StoreAllContents(turns: Turns, ts: seq<Turn>)
    requires DistinctOrders(ts)
    ensures forall k :: k in StoreAll(turns, ts) <==> k in turns || exists i :: 0 <= i < |ts| && ts[i].order == k
    ensures forall i :: 0 <= i < |ts| ==> StoreAll(turns, ts)[ts[i].order] == ts[i].transcript
    ensures forall k :: k in turns && (forall i :: 0 <= i < |ts| ==> ts[i].order != k) ==>
      StoreAll(turns, ts)[k] == turns[k]
    decreases |ts|
  {
    if ts != [] {
      var rest := ts[1..];
      assert DistinctOrders(rest);
      StoreAllContents(Store(turns, ts[0]), rest);
      forall i | 0 <= i < |ts|
        ensures StoreAll(turns, ts)[ts[i].order] == ts[i].transcript
      {
        if i > 0 {
          assert rest[i - 1] == ts[i];
        } else {
          assert forall j :: 0 <= j < |rest| ==> rest[j].order != ts[0].order by {
            forall j | 0 <= j < |rest| ensures rest[j].order != ts[0].order {
              assert rest[j] == ts[j + 1];
            }
          }
        }
      }
      forall k
        ensures k in StoreAll(turns, ts) <==> k in turns || exists i :: 0 <= i < |ts| && ts[i].order == k
      {
        if exists i :: 0 <= i < |rest| && rest[i].order == k {
          var i :| 0 <= i < |rest| && rest[i].order == k;
          assert ts[i + 1].order == k;
        }
        if exists i :: 0 <= i < |ts| && ts[i].order == k {
          var i :| 0 <= i < |ts| && ts[i].order == k;
          if i > 0 {
            assert rest[i - 1].order == k;
          }
        }
      }
      forall k | k in turns && (forall i :: 0 <= i < |ts| ==> ts[i].order != k)
        ensures StoreAll(turns, ts)[k] == turns[k]
      {
        assert ts[0].order != k;
        forall i | 0 <= i < |rest| ensures rest[i].order != k {
          assert rest[i] == ts[i + 1];
        }
      }
    }
  }

  /**
   * Turns with distinct orders build the same map, and so the same transcript,
   * whatever order they arrive in.
   */
  lemma ArrivalOrderIrrelevant(turns: Turns, ts: seq<Turn>, us: seq<Turn>)
    requires DistinctOrders(ts) && DistinctOrders(us)
    requires forall t :: t in ts <==> t in us
    ensures StoreAll(turns, ts) == StoreAll(turns, us)
    ensures OrderedTranscript(StoreAll(turns, ts)) == OrderedTranscript(StoreAll(turns, us))
  {
    StoreAllSameKeys(turns, ts, us);
    StoreAllSameValues(turns, ts, us);
    SameEntries(StoreAll(turns, ts), StoreAll(turns, us));
  }

  /** Two maps with the same keys and the same value under each key are equal. */
  lemma SameEntries(a: Turns, b: Turns)
    requires a.Keys == b.Keys
    requires forall k :: k in a && k in b ==> a[k] == b[k]
    ensures a == b
  {
    assert forall k :: k in a <==> k in b;
    assert forall k :: k in a ==> a[k] == b[k];
  }

  /** The same distinct-order turns, in any order, store under the same orders. */
  lemma StoreAllSameKeys(turns: Turns, ts: seq<Turn>, us: seq<Turn>)
    requires DistinctOrders(ts) && DistinctOrders(us)
    requires forall t :: t in ts <==> t in us
    ensures StoreAll(turns, ts).Keys == StoreAll(turns, us).Keys
  {
    StoreAllContents(turns, ts);
    StoreAllContents(turns, us);
    var a, b := StoreAll(turns, ts), StoreAll(turns, us);
    forall k
      ensures k in a <==> k in b
    {
      if exists i :: 0 <= i < |ts| && ts[i].order == k {
        var i :| 0 <= i < |ts| && ts[i].order == k;
        assert ts[i] in us;
      }
      if exists i :: 0 <= i < |us| && us[i].order == k {
        var i :| 0 <= i < |us| && us[i].order == k;
        assert us[i] in ts;
      }
    }
  }

  /** The same distinct-order turns, in any order, store the same text under each order. */
  lemma StoreAllSameValues(turns: Turns, ts: seq<Turn>, us: seq<Turn>)
    requires DistinctOrders(ts) && DistinctOrders(us)
    requires forall t :: t in ts <==> t in us
    ensures forall k :: k in StoreAll(turns, ts) && k in StoreAll(turns, us) ==>
      StoreAll(turns, ts)[k] == StoreAll(turns, us)[k]
  {
    StoreAllContents(turns, ts);
    StoreAllContents(turns, us);
    var a, b := StoreAll(turns, ts), StoreAll(turns, us);
    forall k | k in a && k in b
      ensures a[k] == b[k]
    {
      if exists i :: 0 <= i < |ts| && ts[i].order == k {
        var i :| 0 <= i < |ts| && ts[i].order == k;
        assert ts[i] in us;
        var j :| 0 <= j < |us| && us[j] == ts[i];
      } else {
        forall j | 0 <= j < |us|
          ensures us[j].order != k
        {
          assert us[j] in ts;
        }
      }
    }
  }
}
