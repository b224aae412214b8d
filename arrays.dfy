/** The array decoder's list-to-map promotion. The wire format has one collection, a sequence
    of key/value pairs; it is decoded as a list while its keys are 0, 1, 2, ... in order, and
    as a map from the first pair that breaks the pattern on. */
module Arrays {
  import opened Units
  import opened Numbers
  import opened Values

  /** A decoded key/value pair of an array. */
  type Pair = (Key, Value)

  /** The decoder's state: still building the list, or building the map it was promoted to. */
  datatype ArrayState = Listing(items: seq<Value>) | Mapping(entries: Entries)

  /** The value the state stands for. */
  function Current(st: ArrayState): Value {
    match st
    case Listing(items) => VList(items)
    case Mapping(m) => VMap(m)
  }

  /** The list elements as the properties "0", "1", ... of a fresh object. */
  function IndexEntries(items: seq<Value>): Entries {
    seq(|items|, j requires 0 <= j < |items| => (NatToString(j), items[j]))
  }

  /** One iteration of the decoder's loop, at index `i`, for the pair (`key`, `value`). The key
      must be the number `i` itself (`===`) to extend the list; the first pair that is not turns
      the list into a map and is stored in it, and in the map every value that is a one-element
      list is stored as its element. */
  function Step(st: ArrayState, i: nat, key: Key, value: Value): (r: ArrayState)
    ensures r.Listing? <==> st.Listing? && key == KNum(Finite(i))
    ensures r.Mapping? ==> (PropertyKey(key), Unwrap(value)) in r.entries
  {
    match st
    case Listing(items) =>
      if key == KNum(Finite(i)) then Listing(items + [value])
      else Mapping(Put(IndexEntries(items), PropertyKey(key), Unwrap(value)))
    case Mapping(m) => Mapping(Put(m, PropertyKey(key), Unwrap(value)))
  }

  /** The state after the loop has consumed `pairs`. */
  function Run(pairs: seq<Pair>): ArrayState {
    if |pairs| == 0 then Listing([])
    else
      var n := |pairs| - 1;
      Step(Run(pairs[..n]), n, pairs[n].0, pairs[n].1)
  }

  /** One more pair is one more step. */
  lemma {:induction false} RunSnoc(pairs: seq<Pair>)
    requires |pairs| > 0
    ensures var n := |pairs| - 1; Run(pairs) == Step(Run(pairs[..n]), n, pairs[n].0, pairs[n].1)
  {
  }

  /** One step of the list-or-map state machine is the state for one more pair. */
  lemma {:induction false} RunExtends(pairs: seq<Pair>, key: Key, value: Value)
    ensures Step(Run(pairs), |pairs|, key, value) == Run(pairs + [(key, value)])
  {
    var pairs' := pairs + [(key, value)];
    RunSnoc(pairs');
    assert pairs'[..|pairs|] == pairs;
  }

  function SequentialFrom(pairs: seq<Pair>, i: nat): (k: nat)
    requires i <= |pairs|
    ensures i <= k <= |pairs|
    ensures forall j :: i <= j < k ==> pairs[j].0 == KNum(Finite(j))
    ensures k < |pairs| ==> pairs[k].0 != KNum(Finite(k))
    decreases |pairs| - i
  {
    if i == |pairs| || pairs[i].0 != KNum(Finite(i)) then i else SequentialFrom(pairs, i + 1)
  }

  /** The number of leading pairs whose keys are their own positions. */
  function SequentialPrefix(pairs: seq<Pair>): (k: nat)
    ensures k <= |pairs|
    ensures forall j :: 0 <= j < k ==> pairs[j].0 == KNum(Finite(j))
    ensures k < |pairs| ==> pairs[k].0 != KNum(Finite(k))
  {
    SequentialFrom(pairs, 0)
  }

  function ValuesOf(pairs: seq<Pair>): seq<Value> {
    seq(|pairs|, j requires 0 <= j < |pairs| => pairs[j].1)
  }

  /** The pairs as the map stores them: keys as property keys, values unwrapped. */
  function Normalised(pairs: seq<Pair>): Entries {
    seq(|pairs|, j requires 0 <= j < |pairs| => (PropertyKey(pairs[j].0), Unwrap(pairs[j].1)))
  }

  /** The map an array is promoted to when its first `k` keys are sequential and the next one
      is not: the list prefix under "0".."k-1", then every later pair, unwrapped, in order. */
  function PromotedEntries(pairs: seq<Pair>, k: nat): Entries
    requires k <= |pairs|
  {
    PutAll(IndexEntries(ValuesOf(pairs[..k])), Normalised(pairs[k..]))
  }

  /** What an array of `pairs` decodes to: the list of its values when every key is its own
      position, and otherwise the map it is promoted to at the first key that is not. */
  function ArrayValue(pairs: seq<Pair>): Value {
    var k := SequentialPrefix(pairs);
    if k == |pairs| then VList(ValuesOf(pairs)) else VMap(PromotedEntries(pairs, k))
  }

  /** The state `Run` reaches, as `ArrayValue` describes it. */
  ghost predicate RunMatches(pairs: seq<Pair>) {
    var k := SequentialPrefix(pairs);
    Run(pairs) == if k == |pairs| then Listing(ValuesOf(pairs)) else Mapping(PromotedEntries(pairs, k))
  }

  /** The loop's two-state machine computes `ArrayValue`, and it is still listing exactly when
      every key so far was its own position. */
  lemma {:induction false} RunComputesArrayValue(pairs: seq<Pair>)
    ensures Current(Run(pairs)) == ArrayValue(pairs)
    ensures Run(pairs).Listing? <==> SequentialPrefix(pairs) == |pairs|
  {
    RunMatchesAll(pairs);
  }

  lemma {:induction false} RunMatchesAll(pairs: seq<Pair>)
    ensures RunMatches(pairs)
  {
    if |pairs| > 0 {
      var n := |pairs| - 1;
      RunMatchesAll(pairs[..n]);
      if SequentialPrefix(pairs[..n]) == n {
        if pairs[n].0 == KNum(Finite(n)) {
          ListExtends(pairs);
        } else {
          ListPromotes(pairs);
        }
      } else {
        MapGrows(pairs);
      }
    }
  }

  /** While the keys stay sequential the list grows by the new value. */
  lemma {:induction false} ListExtends(pairs: seq<Pair>)
    requires |pairs| > 0
    requires var n := |pairs| - 1; SequentialPrefix(pairs[..n]) == n && pairs[n].0 == KNum(Finite(n))
    requires Run(pairs[..|pairs| - 1]) == Listing(ValuesOf(pairs[..|pairs| - 1]))
    ensures RunMatches(pairs)
  {
    var n := |pairs| - 1;
    var init := pairs[..n];
    assert SequentialPrefix(pairs) == |pairs|;
    assert ValuesOf(init) + [pairs[n].1] == ValuesOf(pairs);
  }

  /** The first irregular key turns the list so far into a map and stores the new pair. */
  lemma {:induction false} ListPromotes(pairs: seq<Pair>)
    requires |pairs| > 0
    requires var n := |pairs| - 1; SequentialPrefix(pairs[..n]) == n && pairs[n].0 != KNum(Finite(n))
    requires Run(pairs[..|pairs| - 1]) == Listing(ValuesOf(pairs[..|pairs| - 1]))
    ensures RunMatches(pairs)
  {
    var n := |pairs| - 1;
    var init := pairs[..n];
    assert SequentialPrefix(pairs) == n;
    var base := IndexEntries(ValuesOf(init));
    var tail := Normalised(pairs[n..]);
    assert tail == [(PropertyKey(pairs[n].0), Unwrap(pairs[n].1))];
    assert tail[..0] == [];
    assert PutAll(base, tail) == Put(PutAll(base, []), tail[0].0, tail[0].1);
  }

  /** Once a key breaks the pattern, later pairs do not move the break. */
  lemma {:induction false} SequentialPrefixKept(pairs: seq<Pair>, n: nat)
    requires n <= |pairs| && SequentialPrefix(pairs[..n]) < n
    ensures SequentialPrefix(pairs) == SequentialPrefix(pairs[..n])
  {
    var k := SequentialPrefix(pairs[..n]);
    assert pairs[k] == pairs[..n][k];
    assert forall j :: 0 <= j < k ==> pairs[j] == pairs[..n][j];
  }

  /** The normalised pairs from `k` on, without the last one, are those of the shorter array;
      the last one is the last pair, normalised. */
  lemma {:induction false} NormalisedSnoc(pairs: seq<Pair>, k: nat)
    requires k < |pairs|
    ensures var n := |pairs| - 1; var tail := Normalised(pairs[k..]);
      && |tail| == n - k + 1
      && tail[..n - k] == Normalised(pairs[..n][k..])
      && tail[n - k] == (PropertyKey(pairs[n].0), Unwrap(pairs[n].1))
  {
    var n := |pairs| - 1;
    var tail := Normalised(pairs[k..]);
    forall i | 0 <= i < n - k ensures tail[i] == Normalised(pairs[..n][k..])[i] {
      assert pairs[k + i] == pairs[..n][k + i];
    }
  }

  /** In map mode the promoted map grows by one assignment per pair. */
  lemma {:induction false} PromotedEntriesSnoc(pairs: seq<Pair>, k: nat)
    requires k < |pairs|
    ensures var n := |pairs| - 1;
      PromotedEntries(pairs, k) == Put(PromotedEntries(pairs[..n], k), PropertyKey(pairs[n].0), Unwrap(pairs[n].1))
  {
    var n := |pairs| - 1;
    assert pairs[..k] == pairs[..n][..k];
    var base := IndexEntries(ValuesOf(pairs[..k]));
    var tail := Normalised(pairs[k..]);
    NormalisedSnoc(pairs, k);
    PutAllSnoc(base, tail);
    calc {
      PromotedEntries(pairs, k);
      PutAll(base, tail);
      Put(PutAll(base, tail[..n - k]), tail[n - k].0, tail[n - k].1);
      Put(PutAll(base, Normalised(pairs[..n][k..])), PropertyKey(pairs[n].0), Unwrap(pairs[n].1));
      Put(PromotedEntries(pairs[..n], k), PropertyKey(pairs[n].0), Unwrap(pairs[n].1));
    }
  }

  /** Once promoted, every pair is stored in the map. */
  lemma {:induction false} MapGrows(pairs: seq<Pair>)
    requires |pairs| > 0
    requires SequentialPrefix(pairs[..|pairs| - 1]) < |pairs| - 1
    requires var init := pairs[..|pairs| - 1];
      Run(init) == Mapping(PromotedEntries(init, SequentialPrefix(init)))
    ensures SequentialPrefix(pairs) == SequentialPrefix(pairs[..|pairs| - 1])
    ensures Run(pairs) == Mapping(PromotedEntries(pairs, SequentialPrefix(pairs[..|pairs| - 1])))
  {
    var n := |pairs| - 1;
    var k := SequentialPrefix(pairs[..n]);
    SequentialPrefixKept(pairs, n);
    PromotedEntriesSnoc(pairs, k);
    var m := PromotedEntries(pairs[..n], k);
    var st := Step(Mapping(m), n, pairs[n].0, pairs[n].1);
    assert st == Mapping(Put(m, PropertyKey(pairs[n].0), Unwrap(pairs[n].1)));
    RunSnoc(pairs);
  }

  /** An array whose keys are 0..n-1 in order decodes to the list of its values, unchanged
      (a one-element value list stays one); any other key sequence decodes to a map. */
  lemma {:induction false} SequentialKeysGiveList(pairs: seq<Pair>)
    ensures ArrayValue(pairs).VList? <==> forall j :: 0 <= j < |pairs| ==> pairs[j].0 == KNum(Finite(j))
    ensures ArrayValue(pairs).VList? ==> ArrayValue(pairs).items == ValuesOf(pairs)
    ensures ArrayValue(pairs).VMap? <==> !ArrayValue(pairs).VList?
  {
  }

  /** The properties "0".."n-1" of the promoted list are distinct and hold its elements. */
  lemma {:induction false} IndexEntriesLookup(items: seq<Value>, j: nat)
    requires j < |items|
    ensures DistinctKeys(IndexEntries(items))
    ensures Lookup(IndexEntries(items), NatToString(j)) == Some(items[j])
  {
    var m := IndexEntries(items);
    forall a, b | 0 <= a < b < |m| ensures m[a].0 != m[b].0 {
      NatToStringInjective(a, b);
    }
    forall i | 0 <= i < j ensures m[i].0 != NatToString(j) {
      NatToStringInjective(i, j);
    }
    KeyIndexIsFirst(m, NatToString(j), j);
  }

  /** After promotion, a list element is found under its index, unless a later pair wrote
      that key. */
  lemma {:induction false} PromotionKeepsEarlierElements(pairs: seq<Pair>, j: nat)
    requires SequentialPrefix(pairs) < |pairs|
    requires j < SequentialPrefix(pairs)
    requires forall m :: SequentialPrefix(pairs) <= m < |pairs| ==> PropertyKey(pairs[m].0) != NatToString(j)
    ensures ArrayValue(pairs).VMap?
    ensures Lookup(ArrayValue(pairs).entries, NatToString(j)) == Some(pairs[j].1)
  {
    var k := SequentialPrefix(pairs);
    var items := ValuesOf(pairs[..k]);
    var tail := Normalised(pairs[k..]);
    forall i | 0 <= i < |tail| ensures tail[i].0 != NatToString(j) {
      assert tail[i].0 == PropertyKey(pairs[k + i].0);
    }
    LastWriteAbsent(tail, NatToString(j));
    PutAllLookup(IndexEntries(items), tail, NatToString(j));
    IndexEntriesLookup(items, j);
  }

  /** After promotion, every pair from the promoting one on is stored unwrapped under its
      property key, the last write of a key winning. */
  lemma {:induction false} PromotionLastWriteWins(pairs: seq<Pair>, m: nat)
    requires SequentialPrefix(pairs) <= m < |pairs|
    requires forall m' :: m < m' < |pairs| ==> PropertyKey(pairs[m'].0) != PropertyKey(pairs[m].0)
    ensures ArrayValue(pairs).VMap?
    ensures Lookup(ArrayValue(pairs).entries, PropertyKey(pairs[m].0)) == Some(Unwrap(pairs[m].1))
  {
    var k := SequentialPrefix(pairs);
    var tail := Normalised(pairs[k..]);
    assert tail[m - k] == (PropertyKey(pairs[m].0), Unwrap(pairs[m].1));
    forall i' | m - k < i' < |tail| ensures tail[i'].0 != tail[m - k].0 {
      assert tail[i'].0 == PropertyKey(pairs[k + i'].0);
    }
    LastWriteAt(tail, m - k);
    PutAllLookup(IndexEntries(ValuesOf(pairs[..k])), tail, PropertyKey(pairs[m].0));
  }

  /** The indexes "0".."n-1" as property keys. */
  function IndexKeys(n: nat): set<Text> {
    set j | 0 <= j < n :: NatToString(j)
  }

  /** The promoted list's properties are named "0".."n-1", each once. */
  lemma {:induction false} IndexEntriesKeys(items: seq<Value>)
    ensures KeySet(IndexEntries(items)) == IndexKeys(|items|)
    ensures DistinctKeys(IndexEntries(items))
  {
    var m := IndexEntries(items);
    forall a, b | 0 <= a < b < |m| ensures m[a].0 != m[b].0 {
      NatToStringInjective(a, b);
    }
    forall x | x in IndexKeys(|items|) ensures x in KeySet(m) {
      var j :| 0 <= j < |items| && x == NatToString(j);
      assert m[j].0 == x;
    }
    forall x | x in KeySet(m) ensures x in IndexKeys(|items|) {
      var j :| 0 <= j < |m| && m[j].0 == x;
      assert m[j] == (NatToString(j), items[j]);
      assert 0 <= j < |items| && x == NatToString(j);
    }
    assert KeySet(m) == IndexKeys(|items|);
  }

  /** The property keys named by the pairs from position `k` on. */
  lemma {:induction false} NormalisedKeys(pairs: seq<Pair>, k: nat)
    requires k <= |pairs|
    ensures KeySet(Normalised(pairs[k..])) == set m | k <= m < |pairs| :: PropertyKey(pairs[m].0)
  {
    var tail := Normalised(pairs[k..]);
    forall x | x in (set m | k <= m < |pairs| :: PropertyKey(pairs[m].0)) ensures x in KeySet(tail) {
      var m :| k <= m < |pairs| && x == PropertyKey(pairs[m].0);
      assert tail[m - k].0 == x;
    }
    forall x | x in KeySet(tail) ensures x in (set m | k <= m < |pairs| :: PropertyKey(pairs[m].0)) {
      var i :| 0 <= i < |tail| && tail[i].0 == x;
      assert PropertyKey(pairs[k + i].0) == x;
    }
  }

  /** The keys of a promoted array are the indexes of its list prefix and the keys of the
      pairs from the promoting one on, each once. */
  lemma {:induction false} PromotedKeys(pairs: seq<Pair>)
    requires SequentialPrefix(pairs) < |pairs|
    ensures ArrayValue(pairs).VMap?
    ensures DistinctKeys(ArrayValue(pairs).entries)
    ensures KeySet(ArrayValue(pairs).entries) ==
      IndexKeys(SequentialPrefix(pairs)) +
      (set m | SequentialPrefix(pairs) <= m < |pairs| :: PropertyKey(pairs[m].0))
  {
    var k := SequentialPrefix(pairs);
    var items := ValuesOf(pairs[..k]);
    var base := IndexEntries(items);
    var tail := Normalised(pairs[k..]);
    IndexEntriesKeys(items);
    NormalisedKeys(pairs, k);
    PutAllKeys(base, tail);
    assert ArrayValue(pairs).entries == PutAll(base, tail);
  }
}
