/** Small inputs of the shapes the decoder is used on, decoded step by step. */
module Samples {
  import opened Units
  import opened Numbers
  import opened Values
  import opened Cursor
  import opened Arrays
  import opened Grammar
  import opened GrammarFacts

  /** `a:0:{}` */
  const EMPTY_ARRAY: Text := [TAG_ARRAY, COLON, DIGIT_ZERO, COLON, '{' as int, CLOSE_BRACE]

  /** `a:1:{i:0;N;}` */
  const SINGLETON: Text :=
    [TAG_ARRAY, COLON, DIGIT_ONE, COLON, '{' as int, TAG_INT, COLON, DIGIT_ZERO, SEMICOLON, TAG_NULL, SEMICOLON, CLOSE_BRACE]

  /** `a:2:{i:0;N;i:1;x`, whose second value has no known type. */
  const TRUNCATED: Text :=
    [TAG_ARRAY, COLON, DIGIT_ZERO + 2, COLON, '{' as int, TAG_INT, COLON, DIGIT_ZERO, SEMICOLON, TAG_NULL, SEMICOLON,
     TAG_INT, COLON, DIGIT_ONE, SEMICOLON, 'x' as int]

  /** `s:3:"a"b";` */
  const QUOTED: Text := [TAG_STRING, COLON, DIGIT_ZERO + 3, COLON, QUOTE, 'a' as int, QUOTE, 'b' as int, QUOTE, SEMICOLON]

  /** `s:3:"“";`, the quotation mark being U+201C. */
  const WIDE: Text := [TAG_STRING, COLON, DIGIT_ZERO + 3, COLON, QUOTE, 0x201C, QUOTE, SEMICOLON]

  /** A one-digit number field: the digit, then its delimiter. */
  lemma {:induction false} DigitField(t: Text, pos: nat, delim: CodeUnit)
    requires pos + 1 < |t| && IsDigit(t[pos]) && t[pos] != delim && t[pos + 1] == delim
    ensures TokenAt(t, pos, delim) == Ok(([t[pos]], pos + 1))
    ensures ParseIntPrefix([t[pos]]) == Finite(DigitValue(t[pos]))
    ensures ToNumber([t[pos]]) == Finite(DigitValue(t[pos]))
  {
    assert IndexOf(t, delim, pos + 1) == Some(pos + 1);
    assert t[pos..pos + 1] == [t[pos]];
    assert DigitRun([t[pos]]) == 1;
    assert [t[pos]][..1] == [t[pos]] && [t[pos]][..0] == [];
    assert DigitsValue([t[pos]]) == DigitValue(t[pos]);
    assert AllDigits([t[pos]]);
  }

  /** The element count of `a:0:{}` is 0, and the pairs start at the `{`. */
  lemma EmptyArrayCount()
    ensures LengthAt(EMPTY_ARRAY, 2) == Ok((Finite(0), 5))
  {
    DigitField(EMPTY_ARRAY, 2, COLON);
  }

  /** `a:0:{}` is the empty list. */
  lemma EmptyArray()
    ensures Decode(EMPTY_ARRAY) == Ok(VList([]))
  {
    var t := EMPTY_ARRAY;
    ContainerDispatch(t, 0, [], TAG_ARRAY);
    EmptyArrayCount();
    var loop := ArrayLoop(t, 5, [VList([])], 0, Finite(0), []);
    assert loop.result == Ok([]);
    RunComputesArrayValue([]);
    assert ArrayAt(t, 2, []).result == Ok(VList([]));
  }

  /** The one pair of `a:1:{i:0;N;}` has the key 0 and the value null, which takes the table
      slot after the array's. */
  lemma SingletonPair()
    ensures var e := PairAt(SINGLETON, 5, [VList([])]);
      e.result == Ok((KNum(Finite(0)), VNull)) && e.pos == 11 && e.refs == [VList([]), VNull]
  {
    var t := SINGLETON;
    DigitField(t, 7, SEMICOLON);
    assert IntAt(t, 7) == Ok((Finite(0), 9));
    assert KeyAt(t, 5) == Ok((KNum(Finite(0)), 9));
    ScalarDispatch(t, 9, [VList([])], TAG_NULL);
  }

  /** After its one pair the loop of `a:1:{i:0;N;}` stops, with the list `[null]` built. */
  lemma SingletonRest()
    ensures Run([(KNum(Finite(0)), VNull)]) == Listing([VNull])
    ensures ArrayLoop(SINGLETON, 11, [VList([VNull]), VNull], 0, Finite(1), [(KNum(Finite(0)), VNull)]).result
      == Ok([(KNum(Finite(0)), VNull)])
  {
    RunExtends([], KNum(Finite(0)), VNull);
  }

  lemma SingletonLoop()
    ensures ArrayLoop(SINGLETON, 5, [VList([])], 0, Finite(1), []).result == Ok([(KNum(Finite(0)), VNull)])
  {
    SingletonPair();
    SingletonRest();
  }

  lemma SingletonCount()
    ensures LengthAt(SINGLETON, 2) == Ok((Finite(1), 5))
  {
    DigitField(SINGLETON, 2, COLON);
  }

  /** A one-element list keeps its list form: `a:1:{i:0;N;}` is `[null]`. */
  lemma SingletonList()
    ensures Decode(SINGLETON) == Ok(VList([VNull]))
  {
    ContainerDispatch(SINGLETON, 0, [], TAG_ARRAY);
    SingletonCount();
    ArrayAtLoop(SINGLETON, 2, []);
    assert [] + [VList([])] == [VList([])];
    SingletonLoop();
    RunComputesArrayValue([(KNum(Finite(0)), VNull)]);
    SingletonRest();
  }

  /** The string of `s:3:"a"b";` is the three units `a"b`: the declared length covers the
      inner quote, and the cursor ends past the `";`. */
  lemma QuotedRead()
    ensures StringAt(QUOTED, 2, QUOTE) == Ok((['a' as int, QUOTE, 'b' as int], 10))
  {
    var t := QUOTED;
    DigitField(t, 2, COLON);
    assert LengthAt(t, 2) == Ok((Finite(3), 5));
    assert Goal(Finite(3)) == 3;
    assert MeasuredSpan(t, 7, 1) == 1;
    assert MeasuredSpan(t, 6, 2) == 2;
    assert MeasuredSpan(t, 5, 3) == 3;
    assert IndexOf(t, QUOTE, 8) == Some(8);
    assert t[5..8] == ['a' as int, QUOTE, 'b' as int];
  }

  /** A quote inside a string of the declared length does not end it. */
  lemma QuoteInsideString()
    ensures Decode(QUOTED) == Ok(VStr(['a' as int, QUOTE, 'b' as int]))
  {
    ScalarDispatch(QUOTED, 0, [], TAG_STRING);
    ScalarAtRead(QUOTED, 2, [], TAG_STRING);
    QuotedRead();
  }

  /** The string of `s:3:"“";` is the one unit U+201C, which weighs three bytes. */
  lemma WideRead()
    ensures StringAt(WIDE, 2, QUOTE) == Ok(([0x201C], 8))
  {
    var t := WIDE;
    DigitField(t, 2, COLON);
    assert LengthAt(t, 2) == Ok((Finite(3), 5));
    assert Goal(Finite(3)) == 3;
    assert MeasuredSpan(t, 5, 3) == 1;
    assert IndexOf(t, QUOTE, 6) == Some(6);
    assert t[5..6] == [0x201C];
  }

  /** A code unit above 0x7FF counts as three bytes of the declared length. */
  lemma ThreeByteUnit()
    ensures Decode(WIDE) == Ok(VStr([0x201C]))
  {
    ScalarDispatch(WIDE, 0, [], TAG_STRING);
    ScalarAtRead(WIDE, 2, [], TAG_STRING);
    WideRead();
  }

  /** A pair read in full hands the loop on to the next one. */
  lemma {:induction false} ArrayLoopTurn(input: Text, pos: nat, refs: seq<Value>, slot: nat, len: Num,
                                         pairs: seq<Pair>, pair: Pair, next: nat, after: seq<Value>)
    requires slot < |refs| && refs[slot] == Current(Run(pairs))
    requires len.Exceeds(|pairs|)
    requires PairAt(input, pos, refs).result == Ok(pair) && PairAt(input, pos, refs).pos == next
    requires after == PairAt(input, pos, refs).refs[slot := Current(Run(pairs + [pair]))]
    ensures slot < |after| && after[slot] == Current(Run(pairs + [pair]))
    ensures ArrayLoop(input, pos, refs, slot, len, pairs).result
      == ArrayLoop(input, next, after, slot, len, pairs + [pair]).result
  {
  }

  lemma TruncatedCount()
    ensures LengthAt(TRUNCATED, 2) == Ok((Finite(2), 5))
  {
    DigitField(TRUNCATED, 2, COLON);
  }

  /** The first pair of `a:2:{i:0;N;i:1;x` is read in full. */
  lemma TruncatedFirstPair()
    ensures var e := PairAt(TRUNCATED, 5, [VList([])]);
      e.result == Ok((KNum(Finite(0)), VNull)) && e.pos == 11 && e.refs == [VList([]), VNull]
  {
    var t := TRUNCATED;
    DigitField(t, 7, SEMICOLON);
    assert IntAt(t, 7) == Ok((Finite(0), 9));
    assert KeyAt(t, 5) == Ok((KNum(Finite(0)), 9));
    ScalarDispatch(t, 9, [VList([])], TAG_NULL);
  }

  /** The second pair of `a:2:{i:0;N;i:1;x` fails on the unknown type `x`. */
  lemma TruncatedSecondPair()
    ensures PairAt(TRUNCATED, 11, [VList([VNull]), VNull]).result == Err(Failure(UnknownType(['x' as int], 15), None))
  {
    var t := TRUNCATED;
    DigitField(t, 13, SEMICOLON);
    assert IntAt(t, 13) == Ok((Finite(1), 15));
    assert KeyAt(t, 11) == Ok((KNum(Finite(1)), 15));
    assert TagAt(t, 15) == ['x' as int];
    UnknownTagRejected(t, 15, [VList([VNull]), VNull]);
  }

  /** The loop of `a:2:{i:0;N;i:1;x` fails with the second pair's error, carrying the list of
      the one pair read, `[null]`. */
  lemma TruncatedLoop()
    ensures ArrayLoop(TRUNCATED, 5, [VList([])], 0, Finite(2), []).result
      == Err(Failure(UnknownType(['x' as int], 15), Some(VList([VNull]))))
  {
    var pair := (KNum(Finite(0)), VNull);
    TruncatedFirstPair();
    TruncatedRest();
    assert [] + [pair] == [pair];
    assert [VList([]), VNull][0 := VList([VNull])] == [VList([VNull]), VNull];
    ArrayLoopTurn(TRUNCATED, 5, [VList([])], 0, Finite(2), [], pair, 11, [VList([VNull]), VNull]);
  }

  /** After the first pair, the loop of `a:2:{i:0;N;i:1;x` fails on the second. */
  lemma TruncatedRest()
    ensures var pairs := [(KNum(Finite(0)), VNull)];
      Run(pairs) == Listing([VNull]) &&
      ArrayLoop(TRUNCATED, 11, [VList([VNull]), VNull], 0, Finite(2), pairs).result
        == Err(Failure(UnknownType(['x' as int], 15), Some(VList([VNull]))))
  {
    RunExtends([], KNum(Finite(0)), VNull);
    TruncatedSecondPair();
  }

  /** A decode that fails inside an array reports the array built up to the failure:
      `a:2:{i:0;N;i:1;x` fails on `x` with the state `[null]`. */
  lemma FailureKeepsPartialArray()
    ensures Decode(TRUNCATED) == Err(Failure(UnknownType(['x' as int], 15), Some(VList([VNull]))))
  {
    ContainerDispatch(TRUNCATED, 0, [], TAG_ARRAY);
    TruncatedCount();
    ArrayAtLoop(TRUNCATED, 2, []);
    assert [] + [VList([])] == [VList([])];
    TruncatedLoop();
    assert ArrayAt(TRUNCATED, 2, []).result == Err(Failure(UnknownType(['x' as int], 15), Some(VList([VNull]))));
  }
}
