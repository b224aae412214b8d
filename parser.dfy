/** The decoder as it runs: one object holding the input, a cursor that every reader moves
    forward, and the reference table that decoded values are appended to. Each method is
    proved to compute what the corresponding function of the grammar says, so every property
    proved about the grammar holds of the parser. */
module Parser {
  import opened Units
  import opened Numbers
  import opened Values
  import opened Cursor
  import opened PropertyNames
  import opened Arrays
  import opened Objects
  import opened Grammar
  import opened GrammarFacts

  class Parser {
    /** The serialised text being decoded. */
    const input: Text
    /** The cursor: the position of the next code unit to read. */
    var pos: nat
    /** The reference table, in the order values were recorded (back-references are 1-based). */
    var refs: seq<Value>

    constructor (data: Text)
      ensures input == data && pos == 0 && refs == []
    {
      input := data;
      pos := 0;
      refs := [];
    }

    /** A reader's result `r` and the current cursor are what `f` returns: the value read and
        the position after it, or the same error. */
    ghost predicate Read<T>(r: Result<T, Error>, f: Result<(T, nat), Error>)
      reads this
    {
      && (r.Ok? ==> f == Ok((r.value, pos)))
      && (r.Err? ==> f == Err(r.error))
    }

    /** A decoder's result `r`, the current cursor and the current table are what `d` says. */
    ghost predicate Decodes<T>(r: Result<T, Failure>, d: Decoded<T>)
      reads this
    {
      && r == d.result
      && (r.Ok? ==> pos == d.pos && refs == d.refs)
    }

    /** The text from the cursor up to the next `delim`, and the cursor left on the `delim`. */
    method ReadToken(delim: CodeUnit) returns (r: Result<Text, Error>)
      modifies this
      ensures refs == old(refs)
      ensures Read(r, TokenAt(input, old(pos), delim))
      ensures r.Ok? ==> old(pos) <= pos < |input| && input[pos] == delim
    {
      var found := IndexOf(input, delim, pos);
      if found.None? {
        return Err(MissingDelimiter(delim, pos));
      }
      var value := input[pos..found.value];
      pos := found.value;
      return Ok(value);
    }

    /** `readLength`: the integer `parseInt` reads before the next `:`; the cursor skips the
        `:` and the character after it. */
    method ReadLength() returns (r: Result<Num, Error>)
      modifies this
      ensures refs == old(refs)
      ensures Read(r, LengthAt(input, old(pos)))
    {
      var token := ReadToken(COLON);
      if token.Err? {
        return Err(token.error);
      }
      pos := pos + 2;
      return Ok(ParseIntPrefix(token.value));
    }

    /** `readInt`: the number `Number` reads before the next `;`; the cursor skips the `;`. */
    method ReadInt() returns (r: Result<Num, Error>)
      modifies this
      ensures refs == old(refs)
      ensures Read(r, IntAt(input, old(pos)))
    {
      var token := ReadToken(SEMICOLON);
      if token.Err? {
        return Err(token.error);
      }
      pos := pos + 1;
      return Ok(ToNumber(token.value));
    }

    /** `readString(delim)`: the declared byte length, then the code units it covers; when the
        unit after them is not `delim`, the string runs on to the next `delim`. The cursor skips
        the `delim` and the character after it. */
    method ReadString(delim: CodeUnit) returns (r: Result<Text, Error>)
      modifies this
      ensures refs == old(refs)
      ensures Read(r, StringAt(input, old(pos), delim))
    {
      var expected := ReadLength();
      if expected.Err? {
        return Err(expected.error);
      }
      var start := pos;
      var units := CountUnits(start, expected.value);
      StringAtMeasured(input, old(pos), delim, expected.value, start, units);
      if TagAt(input, start + units) != [delim] {
        var found := IndexOf(input, delim, start + units);
        if found.None? {
          return Err(MissingDelimiter(delim, start + units));
        }
        units := found.value - start;
      }
      var value := input[start..start + units];
      pos := start + units + 2;
      return Ok(value);
    }

    /** The counting loop of `readString`: code units from `start` are counted, each adding
        its estimated UTF-8 length, until the total reaches the declared byte length. */
    method CountUnits(start: nat, expected: Num) returns (units: nat)
      ensures units == MeasuredSpan(input, start, Goal(expected))
    {
      ghost var goal := Goal(expected);
      units := 0;
      var count := 0;
      while expected.Exceeds(count)
        invariant count == ByteCount(input, start, units)
        invariant forall j :: 0 <= j < units ==> ByteCount(input, start, j) < goal
        decreases goal - count
      {
        ByteCountSnoc(input, start, units);
        count := count + WeightAt(input, start + units);
        units := units + 1;
      }
      MeasuredSpanUnique(input, start, goal, units);
    }

    /** `readDataType`: the code unit at the cursor, empty past the end; the cursor skips it
        and the `:` after it. */
    method ReadDataType() returns (tag: Text)
      modifies this
      ensures refs == old(refs) && pos == old(pos) + 2
      ensures tag == TagAt(input, old(pos))
      ensures |tag| == 0 <==> old(pos) >= |input|
    {
      tag := TagAt(input, pos);
      pos := pos + 2;
    }

    /** `readTypeKey`: an `i` key is read as a number, an `s` key as a string; any other tag is
        an error at the tag's position. */
    method ReadTypeKey() returns (r: Result<Key, Error>)
      modifies this
      ensures refs == old(refs)
      ensures Read(r, KeyAt(input, old(pos)))
    {
      var at := pos;
      var tag := ReadDataType();
      if tag == [TAG_INT] {
        var n := ReadInt();
        if n.Err? {
          return Err(n.error);
        }
        return Ok(KNum(n.value));
      } else if tag == [TAG_STRING] {
        var s := ReadString(QUOTE);
        if s.Err? {
          return Err(s.error);
        }
        return Ok(KStr(s.value));
      }
      return Err(UnknownKeyType(tag, at));
    }

    /** `parseAsInt`: the number is recorded in the table. */
    method ParseAsInt() returns (r: Result<Value, Failure>)
      modifies this
      ensures Decodes(r, ScalarAt(input, old(pos), old(refs), TAG_INT))
    {
      var n := ReadInt();
      if n.Err? {
        return Err(Failure(n.error, None));
      }
      var value := VInt(n.value);
      refs := refs + [value];
      return Ok(value);
    }

    /** `parseAsFloat`: the text before the next `;` is recorded in the table. */
    method ParseAsFloat() returns (r: Result<Value, Failure>)
      modifies this
      ensures Decodes(r, ScalarAt(input, old(pos), old(refs), TAG_FLOAT))
    {
      var token := ReadToken(SEMICOLON);
      if token.Err? {
        return Err(Failure(token.error, None));
      }
      pos := pos + 1;
      var value := VFloat(token.value);
      refs := refs + [value];
      return Ok(value);
    }

    /** `parseAsBoolean`: true exactly when the text before the next `;` is `1`; recorded. */
    method ParseAsBoolean() returns (r: Result<Value, Failure>)
      modifies this
      ensures Decodes(r, ScalarAt(input, old(pos), old(refs), TAG_BOOL))
    {
      var token := ReadToken(SEMICOLON);
      if token.Err? {
        return Err(Failure(token.error, None));
      }
      pos := pos + 1;
      var value := VBool(token.value == [DIGIT_ONE]);
      refs := refs + [value];
      return Ok(value);
    }

    /** `parseAsString`, for both `s` and `E`: the string is recorded in the table. */
    method ParseAsString(ghost tag: CodeUnit) returns (r: Result<Value, Failure>)
      requires tag == TAG_STRING || tag == TAG_ESCAPED_STRING
      modifies this
      ensures Decodes(r, ScalarAt(input, old(pos), old(refs), tag))
    {
      var s := ReadString(QUOTE);
      if s.Err? {
        return Err(Failure(s.error, None));
      }
      var value := VStr(s.value);
      refs := refs + [value];
      return Ok(value);
    }

    /** `parseAsNull`: reads nothing and records `null`. */
    method ParseAsNull() returns (r: Result<Value, Failure>)
      modifies this
      ensures Decodes(r, ScalarAt(input, old(pos), old(refs), TAG_NULL))
    {
      refs := refs + [VNull];
      return Ok(VNull);
    }

    /** `parseAsCustom`: the class name, then the payload up to `}`; nothing is recorded, and
        the cursor steps back over the character the payload reader skipped. */
    method ParseAsCustom() returns (r: Result<Value, Failure>)
      modifies this
      ensures Decodes(r, ScalarAt(input, old(pos), old(refs), TAG_CUSTOM))
    {
      CustomDecodes(input, pos, refs);
      var name := ReadString(QUOTE);
      if name.Err? {
        return Err(Failure(name.error, None));
      }
      var payload := ReadString(CLOSE_BRACE);
      if payload.Err? {
        return Err(Failure(payload.error, None));
      }
      pos := pos - 1;
      return Ok(VCustom(name.value, payload.value));
    }

    /** `parseAsRefValue`: the value the 1-based index names is recorded again. */
    method ParseAsRefValue() returns (r: Result<Value, Failure>)
      modifies this
      ensures Decodes(r, ScalarAt(input, old(pos), old(refs), TAG_REF_VALUE))
    {
      var n := ReadInt();
      if n.Err? {
        return Err(Failure(n.error, None));
      }
      var value := Resolve(refs, n.value);
      refs := refs + [value];
      return Ok(value);
    }

    /** `parseAsRef`: the value the 1-based index names; nothing is recorded. */
    method ParseAsRef() returns (r: Result<Value, Failure>)
      modifies this
      ensures Decodes(r, ScalarAt(input, old(pos), old(refs), TAG_REF))
    {
      var n := ReadInt();
      if n.Err? {
        return Err(Failure(n.error, None));
      }
      return Ok(Resolve(refs, n.value));
    }

    /** `parseNext`: the type tag, then the decoder it selects; an unknown tag is an error at
        the tag's position. */
    method ParseNext() returns (r: Result<Value, Failure>)
      modifies this
      ensures Decodes(r, ValueAt(input, old(pos), old(refs)))
      decreases Remaining(input, pos), 3
    {
      var at := pos;
      var tag := ReadDataType();
      if tag == [TAG_ARRAY] {
        ContainerDispatch(input, at, refs, TAG_ARRAY);
        r := ParseAsArray();
      } else if tag == [TAG_OBJECT] {
        ContainerDispatch(input, at, refs, TAG_OBJECT);
        r := ParseAsObject();
      } else if tag == [TAG_INT] {
        ScalarDispatch(input, at, refs, TAG_INT);
        r := ParseAsInt();
      } else if tag == [TAG_FLOAT] {
        ScalarDispatch(input, at, refs, TAG_FLOAT);
        r := ParseAsFloat();
      } else if tag == [TAG_BOOL] {
        ScalarDispatch(input, at, refs, TAG_BOOL);
        r := ParseAsBoolean();
      } else if tag == [TAG_STRING] || tag == [TAG_ESCAPED_STRING] {
        ScalarDispatch(input, at, refs, tag[0]);
        r := ParseAsString(tag[0]);
      } else if tag == [TAG_CUSTOM] {
        ScalarDispatch(input, at, refs, TAG_CUSTOM);
        r := ParseAsCustom();
      } else if tag == [TAG_REF_VALUE] {
        ScalarDispatch(input, at, refs, TAG_REF_VALUE);
        r := ParseAsRefValue();
      } else if tag == [TAG_REF] {
        ScalarDispatch(input, at, refs, TAG_REF);
        r := ParseAsRef();
      } else if tag == [TAG_NULL] {
        ScalarDispatch(input, at, refs, TAG_NULL);
        r := ParseAsNull();
      } else {
        UnknownTagRejected(input, at, refs);
        r := Err(Failure(UnknownType(tag, at), None));
      }
    }

    /** `parseAsArray`: the element count, a table slot reserved for the array, the pairs, and
        the closing `}`, skipped unread. */
    method ParseAsArray() returns (r: Result<Value, Failure>)
      modifies this
      ensures Decodes(r, ArrayAt(input, old(pos), old(refs)))
      decreases Remaining(input, pos), 2
    {
      ghost var pos0 := pos;
      ghost var refs0 := refs;
      var len := ReadLength();
      if len.Err? {
        return Err(Failure(len.error, None));
      }
      var slot := |refs|;
      refs := refs + [VList([])];
      ghost var pairs;
      r, pairs := ParseArrayElements(slot, len.value);
      ArrayAtLoop(input, pos0, refs0);
      if r.Ok? {
        pos := pos + 1;
      }
    }

    /** The loop of `parseAsArray`: the array is built as a list while the keys are 0, 1, 2, ...,
        and as a map from the first key that is not; its slot always holds it as it stands, and
        an error raised inside carries it. `pairs` are the pairs read. */
    method ParseArrayElements(slot: nat, len: Num) returns (r: Result<Value, Failure>, ghost pairs: seq<Pair>)
      requires slot < |refs| && refs[slot] == VList([])
      modifies this
      ensures var d := ArrayLoop(input, old(pos), old(refs), slot, len, []);
        && (r.Err? ==> d.result.Err? && r.error == d.result.error)
        && (r.Ok? ==> d.result == Ok(pairs) && r.value == ArrayValue(pairs) && pos == d.pos && refs == d.refs)
      decreases Remaining(input, pos), 1
    {
      ghost var pos0 := pos;
      ghost var whole := ArrayLoop(input, pos, refs, slot, len, []);
      var st := Listing([]);
      pairs := [];
      var i := 0;
      while len.Exceeds(i)
        invariant i == |pairs| && st == Run(pairs)
        invariant slot < |refs| && refs[slot] == Current(st)
        invariant Remaining(input, pos) <= Remaining(input, pos0)
        invariant SameOutcome(ArrayLoop(input, pos, refs, slot, len, pairs), whole)
        decreases Remaining(input, pos)
      {
        ghost var at := pos;
        ghost var before := refs;
        var pair := ParsePair();
        if pair.Err? {
          ArrayPairFails(input, at, before, slot, len, pairs);
          return Err(Failure(pair.error.error, Some(Current(st)))), pairs;
        }
        ArrayTurn(input, at, before, slot, len, pairs, pair.value, pos, refs, whole);
        RunExtends(pairs, pair.value.0, pair.value.1);
        st := Step(st, i, pair.value.0, pair.value.1);
        pairs := pairs + [pair.value];
        refs := refs[slot := Current(st)];
        i := i + 1;
      }
      ArrayLoopDone(input, pos, refs, slot, len, pairs);
      RunComputesArrayValue(pairs);
      r := Ok(Current(st));
    }

    /** One turn of the loop of `parseAsArray`: the key, then the value. */
    method ParsePair() returns (r: Result<Pair, Failure>)
      modifies this
      ensures Decodes(r, PairAt(input, old(pos), old(refs)))
      decreases Remaining(input, pos), 0
    {
      var key := ReadTypeKey();
      if key.Err? {
        return Err(Failure(key.error, None));
      }
      var value := ParseNext();
      if value.Err? {
        return Err(value.error);
      }
      r := Ok((key.value, value.value));
    }

    /** `parseAsObject`: a table slot reserved for the object, the class name, the member count,
        the members and the closing `}`, skipped unread. */
    method ParseAsObject() returns (r: Result<Value, Failure>)
      modifies this
      ensures Decodes(r, ObjectAt(input, old(pos), old(refs)))
      decreases Remaining(input, pos), 2
    {
      ghost var pos0 := pos;
      ghost var refs0 := refs;
      var slot := |refs|;
      refs := refs + [VUndef];
      var className := ReadString(QUOTE);
      if className.Err? {
        return Err(Failure(className.error, None));
      }
      refs := refs[slot := VMap([])];
      assert refs == refs0 + [VMap([])];
      var len := ReadLength();
      if len.Err? {
        return Err(Failure(len.error, None));
      }
      ghost var members;
      r, members := ParseObjectMembers(slot, className.value, len.value);
      ObjectAtLoop(input, pos0, refs0);
      if r.Ok? {
        pos := pos + 1;
      }
    }

    /** The loop of `parseAsObject`: each member name goes through the property-name rule and
        each value is stored as it is, by assignment to the object; its slot always holds it as
        it stands, and an error raised inside carries it. `members` are the members read. */
    method ParseObjectMembers(slot: nat, className: Text, len: Num)
      returns (r: Result<Value, Failure>, ghost members: seq<Member>)
      requires slot < |refs| && refs[slot] == VMap([])
      modifies this
      ensures var d := ObjectLoop(input, old(pos), old(refs), slot, className, len, []);
        && (r.Err? ==> d.result.Err? && r.error == d.result.error)
        && (r.Ok? ==> d.result == Ok(members) && r.value == VMap(ObjectEntries(members))
                      && pos == d.pos && refs == d.refs)
      decreases Remaining(input, pos), 1
    {
      ghost var pos0 := pos;
      ghost var whole := ObjectLoop(input, pos, refs, slot, className, len, []);
      var entries: Entries := [];
      members := [];
      var i := 0;
      while len.Exceeds(i)
        invariant i == |members| && entries == ObjectEntries(members)
        invariant slot < |refs| && refs[slot] == VMap(entries)
        invariant Remaining(input, pos) <= Remaining(input, pos0)
        invariant SameOutcome(ObjectLoop(input, pos, refs, slot, className, len, members), whole)
        decreases Remaining(input, pos)
      {
        ghost var at := pos;
        ghost var before := refs;
        var member := ParseMember(className);
        if member.Err? {
          ObjectMemberFails(input, at, before, slot, className, len, members);
          return Err(Failure(member.error.error, Some(VMap(entries)))), members;
        }
        var (name, value) := member.value;
        ObjectTurn(input, at, before, slot, className, len, members, name, value, pos, refs, whole);
        ObjectEntriesSnoc(members, name, value);
        entries := Put(entries, PropertyKey(name), value);
        members := members + [(name, value)];
        refs := refs[slot := VMap(entries)];
        i := i + 1;
      }
      ObjectLoopDone(input, pos, refs, slot, className, len, members);
      r := Ok(VMap(entries));
    }

    /** One turn of the loop of `parseAsObject`: the key, the member name made of it, then the
        value. */
    method ParseMember(className: Text) returns (r: Result<Member, Failure>)
      modifies this
      ensures Decodes(r, MemberAt(input, old(pos), old(refs), className))
      decreases Remaining(input, pos), 0
    {
      var key := ReadTypeKey();
      if key.Err? {
        return Err(Failure(key.error, None));
      }
      var name := FixPropertyName(key.value, className, pos);
      if name.Err? {
        return Err(Failure(name.error, None));
      }
      var value := ParseNext();
      if value.Err? {
        return Err(value.error);
      }
      r := Ok((name.value, value.value));
    }
  }

  /** A string runs from the end of its length field to the first `delim` at or after the
      end of the measured span: the unit right there when it is one, else the next one found. */
  lemma {:induction false} StringAtMeasured(input: Text, pos: nat, delim: CodeUnit, len: Num, start: nat, k: nat)
    requires LengthAt(input, pos) == Ok((len, start)) && k == MeasuredSpan(input, start, Goal(len))
    ensures TagAt(input, start + k) == [delim] ==>
      StringAt(input, pos, delim) == Ok((input[start..start + k], start + k + 2))
    ensures TagAt(input, start + k) != [delim] ==>
      StringAt(input, pos, delim) == match IndexOf(input, delim, start + k)
        case None => Err(MissingDelimiter(delim, start + k))
        case Some(end) => Ok((input[start..end], end + 2))
  {
    if TagAt(input, start + k) == [delim] {
      assert input[start + k] == delim;
      assert IndexOf(input, delim, start + k) == Some(start + k);
    }
  }

  /** Two decodings agree on their result and, when it is a success, on the cursor and the
      table after it. */
  ghost predicate SameOutcome<T>(a: Decoded<T>, b: Decoded<T>) {
    a.result == b.result && (a.result.Ok? ==> a.pos == b.pos && a.refs == b.refs)
  }

  /** The array loop stops once the index reaches the declared count. */
  lemma {:induction false} ArrayLoopDone(input: Text, pos: nat, refs: seq<Value>, slot: nat, len: Num, pairs: seq<Pair>)
    requires slot < |refs| && refs[slot] == Current(Run(pairs)) && !len.Exceeds(|pairs|)
    ensures ArrayLoop(input, pos, refs, slot, len, pairs) == Decoded(Ok(pairs), pos, refs, [])
  {
  }

  /** A pair that cannot be read ends the loop, carrying the array as it stands in place of
      any partial value of the pair's own. */
  lemma {:induction false} ArrayPairFails(input: Text, pos: nat, refs: seq<Value>, slot: nat, len: Num, pairs: seq<Pair>)
    requires slot < |refs| && refs[slot] == Current(Run(pairs)) && len.Exceeds(|pairs|)
    requires PairAt(input, pos, refs).result.Err?
    ensures ArrayLoop(input, pos, refs, slot, len, pairs).result
      == Err(Failure(PairAt(input, pos, refs).result.error.error, Some(Current(Run(pairs)))))
  {
  }

  /** A pair read in full hands the rest of the array to the next turn, which starts after the
      element with the slot holding the array one pair longer. */
  lemma {:induction false} ArrayTurn(input: Text, pos: nat, refs: seq<Value>, slot: nat, len: Num, pairs: seq<Pair>,
                                     pair: Pair, next: nat, table: seq<Value>, whole: Decoded<seq<Pair>>)
    requires slot < |refs| && refs[slot] == Current(Run(pairs)) && len.Exceeds(|pairs|)
    requires SameOutcome(ArrayLoop(input, pos, refs, slot, len, pairs), whole)
    requires var e := PairAt(input, pos, refs); e.result == Ok(pair) && e.pos == next && e.refs == table
    ensures slot < |table| && Remaining(input, next) < Remaining(input, pos)
    ensures var pairs' := pairs + [pair];
      SameOutcome(ArrayLoop(input, next, table[slot := Current(Run(pairs'))], slot, len, pairs'), whole)
  {
  }

  /** The object loop stops once the index reaches the declared count. */
  lemma {:induction false} ObjectLoopDone(input: Text, pos: nat, refs: seq<Value>, slot: nat, className: Text,
                                          len: Num, members: seq<Member>)
    requires slot < |refs| && refs[slot] == VMap(ObjectEntries(members)) && !len.Exceeds(|members|)
    ensures ObjectLoop(input, pos, refs, slot, className, len, members) == Decoded(Ok(members), pos, refs, [])
  {
  }

  /** A member that cannot be read ends the loop, carrying the object as it stands in place of
      any partial value of the member's own. */
  lemma {:induction false} ObjectMemberFails(input: Text, pos: nat, refs: seq<Value>, slot: nat, className: Text,
                                             len: Num, members: seq<Member>)
    requires slot < |refs| && refs[slot] == VMap(ObjectEntries(members)) && len.Exceeds(|members|)
    requires MemberAt(input, pos, refs, className).result.Err?
    ensures ObjectLoop(input, pos, refs, slot, className, len, members).result
      == Err(Failure(MemberAt(input, pos, refs, className).result.error.error, Some(VMap(ObjectEntries(members)))))
  {
  }

  /** A member read in full hands the rest of the object to the next turn, which starts after
      the value with the slot holding the object with that member stored. */
  lemma {:induction false} ObjectTurn(input: Text, pos: nat, refs: seq<Value>, slot: nat, className: Text,
                                      len: Num, members: seq<Member>,
                                      name: Key, value: Value, next: nat, table: seq<Value>,
                                      whole: Decoded<seq<Member>>)
    requires slot < |refs| && refs[slot] == VMap(ObjectEntries(members)) && len.Exceeds(|members|)
    requires SameOutcome(ObjectLoop(input, pos, refs, slot, className, len, members), whole)
    requires var m := MemberAt(input, pos, refs, className); m.result == Ok((name, value)) && m.pos == next && m.refs == table
    ensures slot < |table| && Remaining(input, next) < Remaining(input, pos)
    ensures var members' := members + [(name, value)];
      SameOutcome(ObjectLoop(input, next, table[slot := VMap(ObjectEntries(members'))], slot, className, len, members'), whole)
  {
  }

  /** `unserialisePhpData`: a fresh parser decodes one value from the start of the input. */
  method Unserialise(data: Text) returns (r: Result<Value, Failure>)
    ensures r == Decode(data)
  {
    var p := new Parser(data);
    r := p.ParseNext();
  }
}
