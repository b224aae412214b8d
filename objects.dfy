/** The object the loop of `parseAsObject` builds: the members read, each a property name as the
    property-name rule gives it and a value, assigned one after another with `obj[key] = value`. */
module Objects {
  import opened Units
  import opened Values

  /** A member as read: its name and its value. */
  type Member = (Key, Value)

  /** The assignments the members make, as property keys and values, in reading order. */
  function MemberEntries(members: seq<Member>): Entries {
    seq(|members|, j requires 0 <= j < |members| => (PropertyKey(members[j].0), members[j].1))
  }

  /** The object after all the members' assignments, starting from `{}`. */
  function ObjectEntries(members: seq<Member>): Entries {
    PutAll([], MemberEntries(members))
  }

  /** One more member is one more assignment, of the value as it was read. */
  lemma {:induction false} ObjectEntriesSnoc(members: seq<Member>, name: Key, value: Value)
    ensures ObjectEntries(members + [(name, value)]) == Put(ObjectEntries(members), PropertyKey(name), value)
  {
    var ms := members + [(name, value)];
    assert MemberEntries(ms)[..|members|] == MemberEntries(members);
  }

  /** A member that no later member renames gives its property its value, unchanged: a
      one-element list stays a list. */
  lemma {:induction false} ObjectLastWriteWins(members: seq<Member>, j: nat)
    requires j < |members|
    requires forall j' :: j < j' < |members| ==> PropertyKey(members[j'].0) != PropertyKey(members[j].0)
    ensures Lookup(ObjectEntries(members), PropertyKey(members[j].0)) == Some(members[j].1)
  {
    var kvs := MemberEntries(members);
    LastWriteAt(kvs, j);
    PutAllLookup([], kvs, PropertyKey(members[j].0));
  }

  /** A property that no member names is absent from the object. */
  lemma {:induction false} ObjectLookupAbsent(members: seq<Member>, k: Text)
    requires forall j :: 0 <= j < |members| ==> PropertyKey(members[j].0) != k
    ensures Lookup(ObjectEntries(members), k) == None
  {
    var kvs := MemberEntries(members);
    LastWriteAbsent(kvs, k);
    PutAllLookup([], kvs, k);
  }

  /** The object's properties are the members' names, each once, however often a name
      recurs. */
  lemma {:induction false} ObjectKeys(members: seq<Member>)
    ensures DistinctKeys(ObjectEntries(members))
    ensures KeySet(ObjectEntries(members)) == set j | 0 <= j < |members| :: PropertyKey(members[j].0)
  {
    var kvs := MemberEntries(members);
    PutAllKeys([], kvs);
    assert KeySet(kvs) == set j | 0 <= j < |members| :: PropertyKey(members[j].0) by {
      forall x | x in KeySet(kvs) ensures x in set j | 0 <= j < |members| :: PropertyKey(members[j].0) {
        var j :| 0 <= j < |kvs| && kvs[j].0 == x;
      }
      forall x | x in set j | 0 <= j < |members| :: PropertyKey(members[j].0) ensures x in KeySet(kvs) {
        var j :| 0 <= j < |members| && PropertyKey(members[j].0) == x;
        assert kvs[j].0 == x;
      }
    }
  }
}
