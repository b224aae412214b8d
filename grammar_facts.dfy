/** What the decoder promises about whole values: the reference table, the tag-specific
    results, and the input after the value. */
module GrammarFacts {
  import opened Units
  import opened Numbers
  import opened Values
  import opened Cursor
  import opened PropertyNames
  import opened Arrays
  import opened Objects
  import opened Grammar

  /** A tag that does not open a container goes straight to its reader. */
  lemma {:induction false} ScalarDispatch(input: Text, pos: nat, refs: seq<Value>, tag: CodeUnit)
    requires TagAt(input, pos) == [tag] && tag in VALUE_TAGS && tag != TAG_ARRAY && tag != TAG_OBJECT
    ensures ValueAt(input, pos, refs) == ScalarAt(input, pos + 2, refs, tag)
  {
  }

  /** An array or object tag goes straight to its container decoder. */
  lemma {:induction false} ContainerDispatch(input: Text, pos: nat, refs: seq<Value>, tag: CodeUnit)
    requires TagAt(input, pos) == [tag] && (tag == TAG_ARRAY || tag == TAG_OBJECT)
    ensures var c := if tag == TAG_ARRAY then ArrayAt(input, pos + 2, refs) else ObjectAt(input, pos + 2, refs);
      ValueAt(input, pos, refs) == Decoded(c.result, c.pos, c.refs, [tag] + c.tags)
  {
  }

  /** A loop that succeeds has read exactly as many pairs as the count says: `for (i < length)`
      runs until `i` reaches `length`, and not at all when `length` is not above where it
      starts. */
  lemma {:induction false} ArrayLoopCount(input: Text, pos: nat, refs: seq<Value>, slot: nat, len: Num,
                                          pairs: seq<Pair>)
    requires slot < |refs| && refs[slot] == Current(Run(pairs))
    requires ArrayLoop(input, pos, refs, slot, len, pairs).result.Ok?
    ensures |ArrayLoop(input, pos, refs, slot, len, pairs).result.value| == if len.Exceeds(|pairs|) then len.n else |pairs|
    decreases Remaining(input, pos)
  {
    if len.Exceeds(|pairs|) {
      var e := PairAt(input, pos, refs);
      var pairs' := pairs + [e.result.value];
      ArrayLoopCount(input, e.pos, e.refs[slot := Current(Run(pairs'))], slot, len, pairs');
    }
  }

  /** The same for an object's members. */
  lemma {:induction false} ObjectLoopCount(input: Text, pos: nat, refs: seq<Value>, slot: nat, className: Text,
                                           len: Num, members: seq<Member>)
    requires slot < |refs| && refs[slot] == VMap(ObjectEntries(members))
    requires ObjectLoop(input, pos, refs, slot, className, len, members).result.Ok?
    ensures |ObjectLoop(input, pos, refs, slot, className, len, members).result.value|
      == if len.Exceeds(|members|) then len.n else |members|
    decreases Remaining(input, pos)
  {
    if len.Exceeds(|members|) {
      var m := MemberAt(input, pos, refs, className);
      var members' := members + [m.result.value];
      ObjectLoopCount(input, m.pos, m.refs[slot := VMap(ObjectEntries(members'))], slot, className, len, members');
    }
  }

  /** Once the element count is read, an array decodes to what its loop gives, from a table
      with the array's slot reserved; the cursor then skips the closing `}`. The loop has read
      exactly that many pairs, none when the count is `NaN` or not positive. */
  lemma {:induction false} ArrayAtLoop(input: Text, pos: nat, refs: seq<Value>)
    requires LengthAt(input, pos).Ok?
    ensures var (len, q) := LengthAt(input, pos).value;
      var loop := ArrayLoop(input, q, refs + [VList([])], |refs|, len, []);
      var d := ArrayAt(input, pos, refs);
      && (loop.result.Err? ==> d.result == Err(loop.result.error))
      && (loop.result.Ok? ==> d.result == Ok(ArrayValue(loop.result.value)) && d.pos == loop.pos + 1 && d.refs == loop.refs)
      && (loop.result.Ok? ==> |loop.result.value| == if len.Exceeds(0) then len.n else 0)
  {
    var (len, q) := LengthAt(input, pos).value;
    if ArrayLoop(input, q, refs + [VList([])], |refs|, len, []).result.Ok? {
      ArrayLoopCount(input, q, refs + [VList([])], |refs|, len, []);
    }
  }

  /** Once the class name and the member count are read, an object decodes to what its loop
      gives, from a table with the object's slot reserved; the cursor then skips the `}`. The
      loop has read exactly that many members, none when the count is `NaN` or not positive. */
  lemma {:induction false} ObjectAtLoop(input: Text, pos: nat, refs: seq<Value>)
    requires StringAt(input, pos, QUOTE).Ok? && LengthAt(input, StringAt(input, pos, QUOTE).value.1).Ok?
    ensures var (className, q) := StringAt(input, pos, QUOTE).value;
      var (len, q2) := LengthAt(input, q).value;
      var loop := ObjectLoop(input, q2, refs + [VMap([])], |refs|, className, len, []);
      var d := ObjectAt(input, pos, refs);
      && (loop.result.Err? ==> d.result == Err(loop.result.error))
      && (loop.result.Ok? ==> d.result == Ok(VMap(ObjectEntries(loop.result.value))) && d.pos == loop.pos + 1 && d.refs == loop.refs)
      && (loop.result.Ok? ==> |loop.result.value| == if len.Exceeds(0) then len.n else 0)
  {
    var (className, q) := StringAt(input, pos, QUOTE).value;
    var (len, q2) := LengthAt(input, q).value;
    if ObjectLoop(input, q2, refs + [VMap([])], |refs|, className, len, []).result.Ok? {
      ObjectLoopCount(input, q2, refs + [VMap([])], |refs|, className, len, []);
    }
  }

  /** The readers under the scalar decoders fail only when a delimiter is missing. */
  lemma {:induction false} ScalarFailsOnlyOnDelimiters(input: Text, pos: nat, refs: seq<Value>, tag: CodeUnit)
    requires tag in VALUE_TAGS && tag != TAG_ARRAY && tag != TAG_OBJECT
    requires ScalarAt(input, pos, refs, tag).result.Err?
    ensures ScalarAt(input, pos, refs, tag).result.error == Failure(ScalarAt(input, pos, refs, tag).result.error.error, None)
    ensures ScalarAt(input, pos, refs, tag).result.error.error.MissingDelimiter?
  {
  }

  /** A value tag outside the closed set fails at the tag's position with no partial value,
      and no other input fails that way; past the end of the input the tag is empty. */
  lemma {:induction false} UnknownTagRejected(input: Text, pos: nat, refs: seq<Value>)
    ensures var tag := TagAt(input, pos);
      (|tag| == 0 || tag[0] !in VALUE_TAGS) <==>
      ValueAt(input, pos, refs).result == Err(Failure(UnknownType(tag, pos), None))
  {
    var tag := TagAt(input, pos);
    var d := ValueAt(input, pos, refs);
    if |tag| == 1 && tag[0] in VALUE_TAGS && d.result.Err? {
      if tag[0] == TAG_ARRAY {
        if LengthAt(input, pos + 2).Ok? {
          ArrayFailureCarriesPartial(input, pos, refs);
        }
      } else if tag[0] == TAG_OBJECT {
        var name := StringAt(input, pos + 2, QUOTE);
        if name.Ok? && LengthAt(input, name.value.1).Ok? {
          ObjectFailureCarriesPartial(input, pos, refs);
        }
      } else {
        ScalarFailsOnlyOnDelimiters(input, pos + 2, refs, tag[0]);
      }
    }
  }

  /** A key tag other than `i` and `s` fails at the tag's position. */
  lemma {:induction false} UnknownKeyTagRejected(input: Text, pos: nat)
    ensures var tag := TagAt(input, pos);
      tag != [TAG_INT] && tag != [TAG_STRING] <==> KeyAt(input, pos) == Err(UnknownKeyType(tag, pos))
  {
  }

  /** `r:n;` gives the `n`-th recorded value (1-based) and records it again; `R:n;` gives the
      same value and records nothing; an index outside the table gives `undefined`. */
  lemma {:induction false} BackReference(input: Text, pos: nat, refs: seq<Value>)
    requires TagAt(input, pos) == [TAG_REF_VALUE] || TagAt(input, pos) == [TAG_REF]
    requires IntAt(input, pos + 2).Ok?
    ensures var (n, q) := IntAt(input, pos + 2).value;
      var v := if n.Finite? && 1 <= n.n <= |refs| then refs[n.n - 1] else VUndef;
      var d := ValueAt(input, pos, refs);
      && d.result == Ok(v) && d.pos == q
      && d.refs == (if input[pos] == TAG_REF_VALUE then refs + [v] else refs)
  {
    ScalarDispatch(input, pos, refs, input[pos]);
  }

  /** A boolean is true exactly when its payload is the single character `1`, and it fails
      exactly when no `;` follows. */
  lemma {:induction false} BooleanPayload(input: Text, pos: nat, refs: seq<Value>)
    requires TagAt(input, pos) == [TAG_BOOL]
    ensures ValueAt(input, pos, refs).result == Ok(VBool(true)) <==>
      TokenAt(input, pos + 2, SEMICOLON).Ok? && TokenAt(input, pos + 2, SEMICOLON).value.0 == [DIGIT_ONE]
    ensures ValueAt(input, pos, refs).result.Ok? <==> TokenAt(input, pos + 2, SEMICOLON).Ok?
  {
    ScalarDispatch(input, pos, refs, TAG_BOOL);
  }

  /** A custom record keeps its class name and its raw payload, and the cursor ends just past
      the `}` that closes the payload. */
  lemma {:induction false} CustomPayload(input: Text, pos: nat)
    requires CustomAt(input, pos).Ok?
    ensures && StringAt(input, pos, QUOTE).Ok?
      && var (name, q) := StringAt(input, pos, QUOTE).value;
      && StringAt(input, q, CLOSE_BRACE).Ok?
      && var (payload, q2) := StringAt(input, q, CLOSE_BRACE).value;
      && var (v, q3) := CustomAt(input, pos).value;
      && v == VCustom(name, payload)
      && q3 == q2 - 1 && 0 < q3 <= |input| && input[q3 - 1] == CLOSE_BRACE
  {
    var (name, q) := StringAt(input, pos, QUOTE).value;
    StringAtSpan(input, q, CLOSE_BRACE);
  }

  /** A scalar decoder succeeds exactly when its reader does, records what the reader read
      when its tag is recorded, and fails with the reader's error and no partial value. */
  lemma {:induction false} ScalarAtRead(input: Text, pos: nat, refs: seq<Value>, tag: CodeUnit)
    requires tag in VALUE_TAGS && tag != TAG_ARRAY && tag != TAG_OBJECT
    ensures var s := ScalarRead(input, pos, refs, tag);
      var d := ScalarAt(input, pos, refs, tag);
      && (s.Err? ==> d.result == Err(Failure(s.error, None)))
      && (s.Ok? ==> d.result == Ok(s.value.0) && d.pos == s.value.1
                    && d.refs == (if tag in RECORDED_TAGS then refs + [s.value.0] else refs))
  {
  }

  /** The `C` reader is `CustomAt`. */
  lemma {:induction false} CustomRead(input: Text, pos: nat, refs: seq<Value>)
    ensures ScalarRead(input, pos, refs, TAG_CUSTOM) == CustomAt(input, pos)
  {
  }

  /** The `C` decoder gives what `CustomAt` reads and records nothing. */
  lemma {:induction false} CustomDecodes(input: Text, pos: nat, refs: seq<Value>)
    ensures var d := ScalarAt(input, pos, refs, TAG_CUSTOM);
      var c := CustomAt(input, pos);
      && (c.Err? ==> d.result == Err(Failure(c.error, None)))
      && (c.Ok? ==> d.result == Ok(c.value.0) && d.pos == c.value.1 && d.refs == refs)
  {
    ScalarAtRead(input, pos, refs, TAG_CUSTOM);
    CustomRead(input, pos, refs);
  }

  /** The `C` tag decodes through `CustomAt` and leaves the reference table as it was. */
  lemma {:induction false} CustomRecord(input: Text, pos: nat, refs: seq<Value>)
    requires TagAt(input, pos) == [TAG_CUSTOM]
    ensures var d := ValueAt(input, pos, refs);
      var c := CustomAt(input, pos + 2);
      && (d.result.Ok? <==> c.Ok?)
      && (c.Ok? ==> d.result.value == c.value.0 && d.pos == c.value.1 && d.refs == refs)
  {
    ScalarDispatch(input, pos, refs, TAG_CUSTOM);
    CustomDecodes(input, pos + 2, refs);
  }

  /** An array or object takes the table slot just past the ones before it, ahead of every
      value nested in it, and the slot ends up holding the container itself. */
  lemma {:induction false} ContainerSlot(input: Text, pos: nat, refs: seq<Value>)
    requires TagAt(input, pos) == [TAG_ARRAY] || TagAt(input, pos) == [TAG_OBJECT]
    requires ValueAt(input, pos, refs).result.Ok?
    ensures var d := ValueAt(input, pos, refs);
      |refs| < |d.refs| && d.refs[|refs|] == d.result.value && d.refs[..|refs|] == refs
  {
  }

  /** The array loop, started from `pairs`, read exactly the pairs `read` (`pairs` and those
      after them), then failed on the next pair; `f` is that pair's error, carrying the list or
      map that `read` makes. */
  predicate ArrayFailedAfter(input: Text, pos: nat, refs: seq<Value>, slot: nat, pairs: seq<Pair>,
                             read: seq<Pair>, f: Failure)
    requires slot < |refs| && refs[slot] == Current(Run(pairs))
  {
    && |pairs| <= |read| && read[..|pairs|] == pairs
    && var done := ArrayLoop(input, pos, refs, slot, Finite(|read|), pairs);
       && done.result == Ok(read)
       && PairAt(input, done.pos, done.refs).result.Err?
       && f == Failure(PairAt(input, done.pos, done.refs).result.error.error, Some(ArrayValue(read)))
  }

  /** When the pair at the start is read in full, a failed run from there is a failed run,
      one pair longer, from after that pair, and nothing else. */
  lemma {:induction false} ArrayFailedAfterStep(input: Text, pos: nat, refs: seq<Value>, slot: nat,
                                                pairs: seq<Pair>, read: seq<Pair>, f: Failure)
    requires slot < |refs| && refs[slot] == Current(Run(pairs))
    requires PairAt(input, pos, refs).result.Ok?
    ensures var e := PairAt(input, pos, refs);
      var pairs' := pairs + [e.result.value];
      var refs' := e.refs[slot := Current(Run(pairs'))];
      (ArrayFailedAfter(input, pos, refs, slot, pairs, read, f)
       <==> |pairs| < |read| && ArrayFailedAfter(input, e.pos, refs', slot, pairs', read, f))
  {
    var e := PairAt(input, pos, refs);
    var pairs' := pairs + [e.result.value];
    var refs' := e.refs[slot := Current(Run(pairs'))];
    if |pairs| < |read| {
      var done := ArrayLoop(input, e.pos, refs', slot, Finite(|read|), pairs');
      assert ArrayLoop(input, pos, refs, slot, Finite(|read|), pairs)
        == if done.result.Err? then done else done.(tags := e.tags + done.tags);
      if |read| >= |pairs'| && read[..|pairs'|] == pairs' {
        PrefixOfPrefix(pairs, pairs', read);
      }
    } else if |read| == |pairs| {
      assert ArrayLoop(input, pos, refs, slot, Finite(|read|), pairs) == Decoded(Ok(pairs), pos, refs, []);
    }
  }

  /** A failed run is determined by where it starts: one set of pairs read, one error. */
  lemma {:induction false} ArrayFailedAfterUnique(input: Text, pos: nat, refs: seq<Value>, slot: nat,
                                                  pairs: seq<Pair>, read: seq<Pair>, f: Failure,
                                                  read2: seq<Pair>, f2: Failure)
    requires slot < |refs| && refs[slot] == Current(Run(pairs))
    requires ArrayFailedAfter(input, pos, refs, slot, pairs, read, f)
    requires ArrayFailedAfter(input, pos, refs, slot, pairs, read2, f2)
    ensures read == read2 && f == f2
    decreases |read| - |pairs|
  {
    var e := PairAt(input, pos, refs);
    if e.result.Ok? {
      var pairs' := pairs + [e.result.value];
      ArrayFailedAfterStep(input, pos, refs, slot, pairs, read, f);
      ArrayFailedAfterStep(input, pos, refs, slot, pairs, read2, f2);
      ArrayFailedAfterUnique(input, e.pos, e.refs[slot := Current(Run(pairs'))], slot, pairs', read, f, read2, f2);
    } else {
      ArrayFailedAfterStart(input, pos, refs, slot, pairs, read, f);
      ArrayFailedAfterStart(input, pos, refs, slot, pairs, read2, f2);
    }
  }

  /** A run whose first pair fails reads nothing more. */
  lemma {:induction false} ArrayFailedAfterStart(input: Text, pos: nat, refs: seq<Value>, slot: nat,
                                                 pairs: seq<Pair>, read: seq<Pair>, f: Failure)
    requires slot < |refs| && refs[slot] == Current(Run(pairs))
    requires PairAt(input, pos, refs).result.Err?
    requires ArrayFailedAfter(input, pos, refs, slot, pairs, read, f)
    ensures read == pairs && f == Failure(PairAt(input, pos, refs).result.error.error, Some(ArrayValue(pairs)))
  {
    assert |read| == |pairs|;
    assert ArrayLoop(input, pos, refs, slot, Finite(|read|), pairs) == Decoded(Ok(pairs), pos, refs, []);
  }

  /** An error inside an array's loop, at any depth below it, is the error of the first pair
      that fails, and it comes out carrying the array as it stood: the list or map of exactly
      the pairs read before that one, fewer than the declared count. The errors of nested
      containers have their state replaced. */
  lemma {:induction false} ArrayLoopFailure(input: Text, pos: nat, refs: seq<Value>, slot: nat, len: Num,
                                            pairs: seq<Pair>)
    requires slot < |refs| && refs[slot] == Current(Run(pairs))
    requires ArrayLoop(input, pos, refs, slot, len, pairs).result.Err?
    ensures var f := ArrayLoop(input, pos, refs, slot, len, pairs).result.error;
      exists read: seq<Pair> :: len.Exceeds(|read|) && ArrayFailedAfter(input, pos, refs, slot, pairs, read, f)
    decreases Remaining(input, pos)
  {
    assert len.Exceeds(|pairs|);
    var f := ArrayLoop(input, pos, refs, slot, len, pairs).result.error;
    var e := PairAt(input, pos, refs);
    if e.result.Ok? {
      var pairs' := pairs + [e.result.value];
      var refs' := e.refs[slot := Current(Run(pairs'))];
      ArrayLoopFailure(input, e.pos, refs', slot, len, pairs');
      var read: seq<Pair> :| len.Exceeds(|read|) && ArrayFailedAfter(input, e.pos, refs', slot, pairs', read, f);
      ArrayFailedAfterStep(input, pos, refs, slot, pairs, read, f);
    } else {
      RunComputesArrayValue(pairs);
      assert pairs[..|pairs|] == pairs;
      assert ArrayFailedAfter(input, pos, refs, slot, pairs, pairs, f);
    }
  }

  /** A failed array whose count was read fails with the error of its first failing pair, and
      reports as the error's state the list or map of exactly the pairs read before it. */
  lemma {:induction false} ArrayFailureCarriesPartial(input: Text, pos: nat, refs: seq<Value>)
    requires TagAt(input, pos) == [TAG_ARRAY] && LengthAt(input, pos + 2).Ok?
    requires ValueAt(input, pos, refs).result.Err?
    ensures var (len, q) := LengthAt(input, pos + 2).value;
      var f := ValueAt(input, pos, refs).result.error;
      exists read: seq<Pair> :: len.Exceeds(|read|) && ArrayFailedAfter(input, q, refs + [VList([])], |refs|, [], read, f)
  {
    var (len, q) := LengthAt(input, pos + 2).value;
    ArrayLoopFailure(input, q, refs + [VList([])], |refs|, len, []);
  }

  /** The object loop, started from `members`, read exactly the members `read` (`members` and
      those after them), then failed on the next member; `f` is that member's error, carrying
      the object that `read` makes. */
  predicate ObjectFailedAfter(input: Text, pos: nat, refs: seq<Value>, slot: nat, className: Text,
                              members: seq<Member>, read: seq<Member>, f: Failure)
    requires slot < |refs| && refs[slot] == VMap(ObjectEntries(members))
  {
    && |members| <= |read| && read[..|members|] == members
    && var done := ObjectLoop(input, pos, refs, slot, className, Finite(|read|), members);
       && done.result == Ok(read)
       && MemberAt(input, done.pos, done.refs, className).result.Err?
       && f == Failure(MemberAt(input, done.pos, done.refs, className).result.error.error,
                       Some(VMap(ObjectEntries(read))))
  }

  /** When the member at the start is read in full, a failed run from there is a failed run,
      one member longer, from after that member, and nothing else. */
  lemma {:induction false} ObjectFailedAfterStep(input: Text, pos: nat, refs: seq<Value>, slot: nat,
                                                 className: Text, members: seq<Member>, read: seq<Member>,
                                                 f: Failure)
    requires slot < |refs| && refs[slot] == VMap(ObjectEntries(members))
    requires MemberAt(input, pos, refs, className).result.Ok?
    ensures var m := MemberAt(input, pos, refs, className);
      var members' := members + [m.result.value];
      var refs' := m.refs[slot := VMap(ObjectEntries(members'))];
      (ObjectFailedAfter(input, pos, refs, slot, className, members, read, f)
       <==> |members| < |read| && ObjectFailedAfter(input, m.pos, refs', slot, className, members', read, f))
  {
    var m := MemberAt(input, pos, refs, className);
    var members' := members + [m.result.value];
    var refs' := m.refs[slot := VMap(ObjectEntries(members'))];
    if |members| < |read| {
      var done := ObjectLoop(input, m.pos, refs', slot, className, Finite(|read|), members');
      assert ObjectLoop(input, pos, refs, slot, className, Finite(|read|), members)
        == if done.result.Err? then done else done.(tags := m.tags + done.tags);
      if |read| >= |members'| && read[..|members'|] == members' {
        PrefixOfPrefix(members, members', read);
      }
    } else if |read| == |members| {
      assert ObjectLoop(input, pos, refs, slot, className, Finite(|read|), members) == Decoded(Ok(members), pos, refs, []);
    }
  }

  /** A failed object run is determined by where it starts: one set of members read, one
      error. */
  lemma {:induction false} ObjectFailedAfterUnique(input: Text, pos: nat, refs: seq<Value>, slot: nat,
                                                   className: Text, members: seq<Member>,
                                                   read: seq<Member>, f: Failure, read2: seq<Member>, f2: Failure)
    requires slot < |refs| && refs[slot] == VMap(ObjectEntries(members))
    requires ObjectFailedAfter(input, pos, refs, slot, className, members, read, f)
    requires ObjectFailedAfter(input, pos, refs, slot, className, members, read2, f2)
    ensures read == read2 && f == f2
    decreases |read| - |members|
  {
    var m := MemberAt(input, pos, refs, className);
    if m.result.Ok? {
      var members' := members + [m.result.value];
      ObjectFailedAfterStep(input, pos, refs, slot, className, members, read, f);
      ObjectFailedAfterStep(input, pos, refs, slot, className, members, read2, f2);
      ObjectFailedAfterUnique(input, m.pos, m.refs[slot := VMap(ObjectEntries(members'))], slot, className,
                              members', read, f, read2, f2);
    } else {
      ObjectFailedAfterStart(input, pos, refs, slot, className, members, read, f);
      ObjectFailedAfterStart(input, pos, refs, slot, className, members, read2, f2);
    }
  }

  /** An object run whose first member fails reads nothing more. */
  lemma {:induction false} ObjectFailedAfterStart(input: Text, pos: nat, refs: seq<Value>, slot: nat,
                                                  className: Text, members: seq<Member>, read: seq<Member>,
                                                  f: Failure)
    requires slot < |refs| && refs[slot] == VMap(ObjectEntries(members))
    requires MemberAt(input, pos, refs, className).result.Err?
    requires ObjectFailedAfter(input, pos, refs, slot, className, members, read, f)
    ensures read == members
    ensures f == Failure(MemberAt(input, pos, refs, className).result.error.error, Some(VMap(ObjectEntries(members))))
  {
    assert |read| == |members|;
    assert ObjectLoop(input, pos, refs, slot, className, Finite(|read|), members) == Decoded(Ok(members), pos, refs, []);
  }

  /** The same for an object: the error is that of the first member that fails, and it carries
      the object made by exactly the members read before that one, fewer than the declared
      count. */
  lemma {:induction false} ObjectLoopFailure(input: Text, pos: nat, refs: seq<Value>, slot: nat,
                                             className: Text, len: Num, members: seq<Member>)
    requires slot < |refs| && refs[slot] == VMap(ObjectEntries(members))
    requires ObjectLoop(input, pos, refs, slot, className, len, members).result.Err?
    ensures var f := ObjectLoop(input, pos, refs, slot, className, len, members).result.error;
      exists read: seq<Member> :: len.Exceeds(|read|) && ObjectFailedAfter(input, pos, refs, slot, className, members, read, f)
    decreases Remaining(input, pos)
  {
    assert len.Exceeds(|members|);
    var f := ObjectLoop(input, pos, refs, slot, className, len, members).result.error;
    var m := MemberAt(input, pos, refs, className);
    if m.result.Ok? {
      var members' := members + [m.result.value];
      var refs' := m.refs[slot := VMap(ObjectEntries(members'))];
      ObjectLoopFailure(input, m.pos, refs', slot, className, len, members');
      var read: seq<Member> :| len.Exceeds(|read|) && ObjectFailedAfter(input, m.pos, refs', slot, className, members', read, f);
      ObjectFailedAfterStep(input, pos, refs, slot, className, members, read, f);
    } else {
      assert members[..|members|] == members;
      assert ObjectFailedAfter(input, pos, refs, slot, className, members, members, f);
    }
  }

  /** A failed object whose class name and count were read fails with the error of its first
      failing member, and reports as the error's state the object made by exactly the members
      read before it. */
  lemma {:induction false} ObjectFailureCarriesPartial(input: Text, pos: nat, refs: seq<Value>)
    requires TagAt(input, pos) == [TAG_OBJECT]
    requires StringAt(input, pos + 2, QUOTE).Ok? && LengthAt(input, StringAt(input, pos + 2, QUOTE).value.1).Ok?
    requires ValueAt(input, pos, refs).result.Err?
    ensures var (className, q) := StringAt(input, pos + 2, QUOTE).value;
      var (len, q2) := LengthAt(input, q).value;
      var f := ValueAt(input, pos, refs).result.error;
      exists read: seq<Member> :: len.Exceeds(|read|)
        && ObjectFailedAfter(input, q2, refs + [VMap([])], |refs|, className, [], read, f)
  {
    var (className, q) := StringAt(input, pos + 2, QUOTE).value;
    var (len, q2) := LengthAt(input, q).value;
    ObjectLoopFailure(input, q2, refs + [VMap([])], |refs|, className, len, []);
  }

  lemma {:induction false} KeyAtExtend(input: Text, extra: Text, pos: nat)
    requires KeyAt(input, pos).Ok?
    ensures KeyAt(input + extra, pos) == KeyAt(input, pos)
  {
    assert TagAt(input + extra, pos) == TagAt(input, pos);
    if TagAt(input, pos) == [TAG_INT] {
      IntAtExtend(input, extra, pos + 2);
    } else {
      StringAtExtend(input, extra, pos + 2, QUOTE);
    }
  }

  /** Whatever follows a value that decodes is never read: the decoding is the same with any
      text appended to the input. */
  lemma {:induction false} ValueAtExtend(input: Text, extra: Text, pos: nat, refs: seq<Value>)
    requires ValueAt(input, pos, refs).result.Ok?
    ensures ValueAt(input + extra, pos, refs) == ValueAt(input, pos, refs)
    decreases Remaining(input, pos), 3
  {
    var tag := input[pos];
    assert TagAt(input, pos) == [tag] && TagAt(input + extra, pos) == [tag];
    if tag == TAG_ARRAY {
      ArrayAtExtend(input, extra, pos + 2, refs);
      ContainerDispatch(input, pos, refs, tag);
      ContainerDispatch(input + extra, pos, refs, tag);
    } else if tag == TAG_OBJECT {
      ObjectAtExtend(input, extra, pos + 2, refs);
      ContainerDispatch(input, pos, refs, tag);
      ContainerDispatch(input + extra, pos, refs, tag);
    } else {
      ScalarValueExtend(input, extra, pos, refs);
    }
  }

  lemma {:induction false} ScalarValueExtend(input: Text, extra: Text, pos: nat, refs: seq<Value>)
    requires ValueAt(input, pos, refs).result.Ok?
    requires input[pos] != TAG_ARRAY && input[pos] != TAG_OBJECT
    ensures ValueAt(input + extra, pos, refs) == ValueAt(input, pos, refs)
  {
    var tag := input[pos];
    assert TagAt(input, pos) == [tag] && TagAt(input + extra, pos) == [tag];
    UnknownTagRejected(input, pos, refs);
    ScalarDispatch(input, pos, refs, tag);
    ScalarDispatch(input + extra, pos, refs, tag);
    ScalarAtExtend(input, extra, pos + 2, refs, tag);
  }

  lemma {:induction false} ScalarAtExtend(input: Text, extra: Text, pos: nat, refs: seq<Value>, tag: CodeUnit)
    requires tag in VALUE_TAGS && tag != TAG_ARRAY && tag != TAG_OBJECT
    requires ScalarAt(input, pos, refs, tag).result.Ok?
    ensures ScalarAt(input + extra, pos, refs, tag) == ScalarAt(input, pos, refs, tag)
  {
    ScalarReadExtend(input, extra, pos, refs, tag);
  }

  lemma {:induction false} ScalarReadExtend(input: Text, extra: Text, pos: nat, refs: seq<Value>, tag: CodeUnit)
    requires ScalarRead(input, pos, refs, tag).Ok?
    ensures ScalarRead(input + extra, pos, refs, tag) == ScalarRead(input, pos, refs, tag)
  {
    if tag == TAG_INT {
      IntAtExtend(input, extra, pos);
      assert IntValueAt(input + extra, pos) == IntValueAt(input, pos);
    } else if tag == TAG_FLOAT || tag == TAG_BOOL {
      TokenAtExtend(input, extra, pos, SEMICOLON);
    } else if tag == TAG_STRING || tag == TAG_ESCAPED_STRING {
      StringAtExtend(input, extra, pos, QUOTE);
    } else if tag == TAG_CUSTOM {
      var (name, q) := StringAt(input, pos, QUOTE).value;
      StringAtExtend(input, extra, pos, QUOTE);
      StringAtExtend(input, extra, q, CLOSE_BRACE);
      assert CustomAt(input + extra, pos) == CustomAt(input, pos);
    } else if tag != TAG_NULL {
      IntAtExtend(input, extra, pos);
      assert RefTargetAt(input + extra, pos, refs) == RefTargetAt(input, pos, refs);
    }
  }

  /** An array decodes the same from two inputs whose length fields and loops agree. */
  lemma {:induction false} ArrayAtCongruent(a: Text, b: Text, pos: nat, refs: seq<Value>)
    requires LengthAt(a, pos).Ok? && LengthAt(b, pos) == LengthAt(a, pos)
    requires var (len, q) := LengthAt(a, pos).value;
      ArrayLoop(b, q, refs + [VList([])], |refs|, len, []) == ArrayLoop(a, q, refs + [VList([])], |refs|, len, [])
    ensures ArrayAt(b, pos, refs) == ArrayAt(a, pos, refs)
  {
  }

  lemma {:induction false} ArrayAtLoopOk(input: Text, pos: nat, refs: seq<Value>)
    requires ArrayAt(input, pos, refs).result.Ok?
    ensures LengthAt(input, pos).Ok?
    ensures var (len, q) := LengthAt(input, pos).value;
      ArrayLoop(input, q, refs + [VList([])], |refs|, len, []).result.Ok?
  {
  }

  lemma {:induction false} ArrayAtExtend(input: Text, extra: Text, pos: nat, refs: seq<Value>)
    requires ArrayAt(input, pos, refs).result.Ok?
    ensures ArrayAt(input + extra, pos, refs) == ArrayAt(input, pos, refs)
    decreases Remaining(input, pos), 2
  {
    ArrayAtLoopOk(input, pos, refs);
    LengthAtExtend(input, extra, pos);
    var (len, q) := LengthAt(input, pos).value;
    ArrayLoopExtend(input, extra, q, refs + [VList([])], |refs|, len, []);
    ArrayAtCongruent(input, input + extra, pos, refs);
  }

  lemma {:induction false} ArrayLoopExtend(input: Text, extra: Text, pos: nat, refs: seq<Value>, slot: nat,
                                           len: Num, pairs: seq<Pair>)
    requires slot < |refs| && refs[slot] == Current(Run(pairs))
    requires ArrayLoop(input, pos, refs, slot, len, pairs).result.Ok?
    ensures ArrayLoop(input + extra, pos, refs, slot, len, pairs) == ArrayLoop(input, pos, refs, slot, len, pairs)
    decreases Remaining(input, pos), 1
  {
    if len.Exceeds(|pairs|) {
      PairAtExtend(input, extra, pos, refs);
      var e := PairAt(input, pos, refs);
      var pairs' := pairs + [e.result.value];
      ArrayLoopExtend(input, extra, e.pos, e.refs[slot := Current(Run(pairs'))], slot, len, pairs');
    }
  }

  lemma {:induction false} PairAtExtend(input: Text, extra: Text, pos: nat, refs: seq<Value>)
    requires PairAt(input, pos, refs).result.Ok?
    ensures PairAt(input + extra, pos, refs) == PairAt(input, pos, refs)
    decreases Remaining(input, pos), 0
  {
    KeyAtExtend(input, extra, pos);
    var (key, q) := KeyAt(input, pos).value;
    ValueAtExtend(input, extra, q, refs);
  }

  /** An object decodes the same from two inputs whose class names, member counts and loops
      agree. */
  lemma {:induction false} ObjectAtCongruent(a: Text, b: Text, pos: nat, refs: seq<Value>)
    requires StringAt(a, pos, QUOTE).Ok? && StringAt(b, pos, QUOTE) == StringAt(a, pos, QUOTE)
    requires var q := StringAt(a, pos, QUOTE).value.1;
      LengthAt(a, q).Ok? && LengthAt(b, q) == LengthAt(a, q)
    requires var (className, q) := StringAt(a, pos, QUOTE).value;
      var (len, q2) := LengthAt(a, q).value;
      ObjectLoop(b, q2, refs + [VMap([])], |refs|, className, len, [])
        == ObjectLoop(a, q2, refs + [VMap([])], |refs|, className, len, [])
    ensures ObjectAt(b, pos, refs) == ObjectAt(a, pos, refs)
  {
  }

  lemma {:induction false} ObjectAtLoopOk(input: Text, pos: nat, refs: seq<Value>)
    requires ObjectAt(input, pos, refs).result.Ok?
    ensures StringAt(input, pos, QUOTE).Ok?
    ensures LengthAt(input, StringAt(input, pos, QUOTE).value.1).Ok?
    ensures var (className, q) := StringAt(input, pos, QUOTE).value;
      var (len, q2) := LengthAt(input, q).value;
      ObjectLoop(input, q2, refs + [VMap([])], |refs|, className, len, []).result.Ok?
  {
  }

  lemma {:induction false} ObjectAtExtend(input: Text, extra: Text, pos: nat, refs: seq<Value>)
    requires ObjectAt(input, pos, refs).result.Ok?
    ensures ObjectAt(input + extra, pos, refs) == ObjectAt(input, pos, refs)
    decreases Remaining(input, pos), 2
  {
    ObjectAtLoopOk(input, pos, refs);
    StringAtExtend(input, extra, pos, QUOTE);
    var (className, q) := StringAt(input, pos, QUOTE).value;
    LengthAtExtend(input, extra, q);
    var (len, q2) := LengthAt(input, q).value;
    ObjectLoopExtend(input, extra, q2, refs + [VMap([])], |refs|, className, len, []);
    ObjectAtCongruent(input, input + extra, pos, refs);
  }

  lemma {:induction false} ObjectLoopExtend(input: Text, extra: Text, pos: nat, refs: seq<Value>, slot: nat,
                                            className: Text, len: Num, members: seq<Member>)
    requires slot < |refs| && refs[slot] == VMap(ObjectEntries(members))
    requires ObjectLoop(input, pos, refs, slot, className, len, members).result.Ok?
    ensures ObjectLoop(input + extra, pos, refs, slot, className, len, members)
         == ObjectLoop(input, pos, refs, slot, className, len, members)
    decreases Remaining(input, pos), 1
  {
    if len.Exceeds(|members|) {
      MemberAtExtend(input, extra, pos, refs, className);
      var m := MemberAt(input, pos, refs, className);
      var members' := members + [m.result.value];
      ObjectLoopExtend(input, extra, m.pos, m.refs[slot := VMap(ObjectEntries(members'))], slot, className, len, members');
    }
  }

  lemma {:induction false} MemberAtExtend(input: Text, extra: Text, pos: nat, refs: seq<Value>, className: Text)
    requires MemberAt(input, pos, refs, className).result.Ok?
    ensures MemberAt(input + extra, pos, refs, className) == MemberAt(input, pos, refs, className)
    decreases Remaining(input, pos), 0
  {
    KeyAtExtend(input, extra, pos);
    var (key, q) := KeyAt(input, pos).value;
    ValueAtExtend(input, extra, q, refs);
  }

  /** Input after the top-level value is ignored. */
  lemma {:induction false} TrailingInputIgnored(input: Text, extra: Text)
    requires Decode(input).Ok?
    ensures Decode(input + extra) == Decode(input)
  {
    ValueAtExtend(input, extra, 0, []);
  }
}
