/** Decoded values, keys, errors, and the insertion-ordered property lists that model the
    JavaScript objects the decoder builds. */
module Values {
  import opened Units
  import opened Numbers

  /** A key as the key reader returns it (a number after `i`, a string after `s`), or the
      `undefined` that the property-name rule yields for a name with a single NUL. */
  datatype Key = KNum(num: Num) | KStr(s: Text) | KUndefined

  /** The property key JavaScript derives from a key used to index an object. */
  function PropertyKey(k: Key): Text {
    match k
    case KNum(Finite(n)) => IntToString(n)
    case KNum(NaN) => Lit("NaN")
    case KStr(s) => s
    case KUndefined => Lit("undefined")
  }

  /** A decoded value. `VFloat` keeps the token that `parseFloat` would read; `VMap` is a plain
      object (an associative array or a class instance) as its properties in insertion order;
      `VCustom` is the record built for a custom-serialised class; `VUndef` is what an
      out-of-range back-reference resolves to. */
  datatype Value =
    | VInt(num: Num)
    | VFloat(token: Text)
    | VBool(b: bool)
    | VStr(s: Text)
    | VList(items: seq<Value>)
    | VMap(entries: seq<(Text, Value)>)
    | VCustom(className: Text, payload: Text)
    | VNull
    | VUndef

  /** A one-element list stands for its sole element; every other value stands for itself. */
  function Unwrap(v: Value): (r: Value)
    ensures r == v || v == VList([r])
    ensures v.VList? && |v.items| == 1 ==> v == VList([r])
  {
    if v.VList? && |v.items| == 1 then v.items[0] else v
  }

  /** What aborts a decode. `MissingDelimiter` is where JavaScript's `indexOf` would return -1. */
  datatype Error =
    | UnknownType(tag: Text, at: int)
    | UnknownKeyType(tag: Text, at: int)
    | MalformedPropertyName(name: Text, at: int)
    | MissingDelimiter(delimiter: CodeUnit, from: int)

  /** An error together with the `state` the decoder attaches to it: every enclosing array
      or object loop replaces it with the container it had built so far, so a decode that
      fails inside a container reports its outermost container. */
  datatype Failure = Failure(error: Error, state: Option<Value>)

  /** The properties of a JavaScript object, in insertion order. */
  type Entries = seq<(Text, Value)>

  function KeySet(m: Entries): set<Text> {
    set i | 0 <= i < |m| :: m[i].0
  }

  ghost predicate DistinctKeys(m: Entries) {
    forall i, j :: 0 <= i < j < |m| ==> m[i].0 != m[j].0
  }

  /** The position of the first property named `k`, or `|m|` when there is none. */
  function KeyIndex(m: Entries, k: Text): (i: nat)
    ensures i <= |m| && (i < |m| ==> m[i].0 == k)
  {
    if |m| == 0 then 0
    else if m[0].0 == k then 0
    else 1 + KeyIndex(m[1..], k)
  }

  /** No position before the one `KeyIndex` finds holds `k`. */
  lemma {:induction false} KeyIndexNoEarlier(m: Entries, k: Text)
    ensures forall j :: 0 <= j < KeyIndex(m, k) ==> m[j].0 != k
  {
    if |m| > 0 && m[0].0 != k {
      KeyIndexNoEarlier(m[1..], k);
      forall j | 1 <= j < KeyIndex(m, k) ensures m[j].0 != k {
        assert m[1..][j - 1] == m[j];
      }
    }
  }

  /** A position that holds `k` with no `k` before it is the one `KeyIndex` finds. */
  lemma {:induction false} KeyIndexIsFirst(m: Entries, k: Text, i: nat)
    requires i <= |m|
    requires i < |m| ==> m[i].0 == k
    requires forall j :: 0 <= j < i ==> m[j].0 != k
    ensures KeyIndex(m, k) == i
  {
    KeyIndexNoEarlier(m, k);
  }

  /** `obj[k]`: the value of the property named `k`. */
  function Lookup(m: Entries, k: Text): Option<Value> {
    var i := KeyIndex(m, k);
    if i < |m| then Some(m[i].1) else None
  }

  /** A property is found exactly when its name is a key, and then it is one of the pairs. */
  lemma {:induction false} LookupFinds(m: Entries, k: Text)
    ensures Lookup(m, k).None? <==> k !in KeySet(m)
    ensures Lookup(m, k).Some? ==> (k, Lookup(m, k).value) in m
  {
    if k in KeySet(m) {
      var j :| 0 <= j < |m| && m[j].0 == k;
      KeyIndexNoEarlier(m, k);
    } else {
      assert KeyIndex(m, k) == |m|;
    }
  }

  /** `obj[k] = v`: an existing property keeps its place and takes the new value, a new one
      is added at the end. */
  function Put(m: Entries, k: Text, v: Value): (r: Entries)
    ensures (k, v) in r
    ensures |m| <= |r| <= |m| + 1
  {
    var i := KeyIndex(m, k);
    if i < |m| then
      assert m[i := (k, v)][i] == (k, v);
      m[i := (k, v)]
    else
      assert (m + [(k, v)])[|m|] == (k, v);
      m + [(k, v)]
  }

  /** After `obj[k] = v`, `obj[k]` is `v` and every other property reads as before. */
  lemma {:induction false} PutLookup(m: Entries, k: Text, v: Value, k': Text)
    ensures Lookup(Put(m, k, v), k') == if k' == k then Some(v) else Lookup(m, k')
  {
    var i := KeyIndex(m, k);
    var r := Put(m, k, v);
    KeyIndexNoEarlier(m, k);
    if k' == k {
      KeyIndexIsFirst(r, k, i);
    } else {
      var j := KeyIndex(m, k');
      KeyIndexNoEarlier(m, k');
      KeyIndexIsFirst(r, k', if j == |m| then |r| else j);
    }
  }

  /** `obj[k] = v` adds `k` to the keys, appends only a new key, keeps the order of the others,
      and keeps the keys distinct. */
  lemma {:induction false} PutKeys(m: Entries, k: Text, v: Value)
    ensures KeySet(Put(m, k, v)) == KeySet(m) + {k}
    ensures k !in KeySet(m) ==> Put(m, k, v) == m + [(k, v)]
    ensures k in KeySet(m) ==> |Put(m, k, v)| == |m| && forall i :: 0 <= i < |m| ==> Put(m, k, v)[i].0 == m[i].0
    ensures DistinctKeys(m) ==> DistinctKeys(Put(m, k, v))
  {
    var i := KeyIndex(m, k);
    var r := Put(m, k, v);
    LookupFinds(m, k);
    forall x | x in KeySet(m) + {k} ensures x in KeySet(r) {
      if x == k { assert r[i].0 == k; } else { var j :| 0 <= j < |m| && m[j].0 == x; assert r[j].0 == x; }
    }
    if i == |m| && DistinctKeys(m) {
      forall j | 0 <= j < |m| ensures m[j].0 != k {
        assert m[j].0 in KeySet(m);
      }
    }
  }

  /** The value of the last pair named `k` in `kvs`. */
  function LastWrite(kvs: Entries, k: Text): Option<Value> {
    if |kvs| == 0 then None
    else if kvs[|kvs| - 1].0 == k then Some(kvs[|kvs| - 1].1)
    else LastWrite(kvs[..|kvs| - 1], k)
  }

  /** A pair that no later pair renames is the last write of its key. */
  lemma {:induction false} LastWriteAt(kvs: Entries, i: nat)
    requires i < |kvs|
    requires forall i' :: i < i' < |kvs| ==> kvs[i'].0 != kvs[i].0
    ensures LastWrite(kvs, kvs[i].0) == Some(kvs[i].1)
  {
    if i < |kvs| - 1 {
      LastWriteAt(kvs[..|kvs| - 1], i);
    }
  }

  /** A key that no pair names has no last write. */
  lemma {:induction false} LastWriteAbsent(kvs: Entries, k: Text)
    requires forall i :: 0 <= i < |kvs| ==> kvs[i].0 != k
    ensures LastWrite(kvs, k) == None
  {
    if |kvs| > 0 {
      LastWriteAbsent(kvs[..|kvs| - 1], k);
    }
  }

  /** The assignments `obj[k] = v` for each pair of `kvs`, in order. */
  function PutAll(m: Entries, kvs: Entries): Entries {
    if |kvs| == 0 then m
    else Put(PutAll(m, kvs[..|kvs| - 1]), kvs[|kvs| - 1].0, kvs[|kvs| - 1].1)
  }

  /** A run of assignments is the run without its last one, then that last one. */
  lemma {:induction false} PutAllSnoc(m: Entries, kvs: Entries)
    requires |kvs| > 0
    ensures var n := |kvs| - 1; PutAll(m, kvs) == Put(PutAll(m, kvs[..n]), kvs[n].0, kvs[n].1)
  {
  }

  /** After a run of assignments a property reads as its last write, or as before when the
      run never wrote it. */
  lemma {:induction false} PutAllLookup(m: Entries, kvs: Entries, k: Text)
    ensures Lookup(PutAll(m, kvs), k) == if LastWrite(kvs, k).Some? then LastWrite(kvs, k) else Lookup(m, k)
  {
    if |kvs| > 0 {
      var n := |kvs| - 1;
      PutAllLookup(m, kvs[..n], k);
      PutLookup(PutAll(m, kvs[..n]), kvs[n].0, kvs[n].1, k);
    }
  }

  /** A run of assignments adds exactly its keys and keeps the keys distinct. */
  lemma {:induction false} PutAllKeys(m: Entries, kvs: Entries)
    ensures KeySet(PutAll(m, kvs)) == KeySet(m) + KeySet(kvs)
    ensures DistinctKeys(m) ==> DistinctKeys(PutAll(m, kvs))
  {
    if |kvs| > 0 {
      var n := |kvs| - 1;
      PutAllKeys(m, kvs[..n]);
      PutKeys(PutAll(m, kvs[..n]), kvs[n].0, kvs[n].1);
      assert KeySet(kvs) == KeySet(kvs[..n]) + {kvs[n].0} by {
        forall x | x in KeySet(kvs) ensures x in KeySet(kvs[..n]) + {kvs[n].0} {
          var j :| 0 <= j < |kvs| && kvs[j].0 == x;
          if j < n { assert kvs[..n][j].0 == x; }
        }
        forall x | x in KeySet(kvs[..n]) ensures x in KeySet(kvs) {
          var j :| 0 <= j < n && kvs[..n][j].0 == x;
          assert kvs[j].0 == x;
        }
      }
    }
  }
}
