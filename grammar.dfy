/** The decoder as functions of the input, the cursor and the reference table: what the text
    at a position decodes to, where the cursor ends, and what the table holds afterwards.
    The parser's methods are proved to compute exactly these. */
module Grammar {
  import opened Units
  import opened Numbers
  import opened Values
  import opened Cursor
  import opened PropertyNames
  import opened Arrays
  import opened Objects

  /** The outcome of a decoding step: its result, the cursor and the reference table after it,
      and the value tags it dispatched, in order. */
  datatype Decoded<T> = Decoded(result: Result<T, Failure>, pos: nat, refs: seq<Value>, tags: Text)

  /** The tags whose decoder appends one entry to the reference table. */
  const RECORDED_TAGS: set<CodeUnit> :=
    {TAG_INT, TAG_FLOAT, TAG_BOOL, TAG_STRING, TAG_ESCAPED_STRING, TAG_NULL, TAG_REF_VALUE, TAG_ARRAY, TAG_OBJECT}

  /** The closed set of value tags; `C` and `R` append nothing. */
  const VALUE_TAGS: set<CodeUnit> := RECORDED_TAGS + {TAG_CUSTOM, TAG_REF}

  function RecordedCount(tags: Text): nat {
    if |tags| == 0 then 0 else (if tags[0] in RECORDED_TAGS then 1 else 0) + RecordedCount(tags[1..])
  }

  lemma {:induction false} RecordedCountAppend(a: Text, b: Text)
    ensures RecordedCount(a + b) == RecordedCount(a) + RecordedCount(b)
  {
    if |a| > 0 {
      assert (a + b)[1..] == a[1..] + b;
      RecordedCountAppend(a[1..], b);
    } else {
      assert a + b == b;
    }
  }

  /** How much input is left to the right of the cursor; every step that can recurse consumes some. */
  function Remaining(input: Text, pos: nat): nat {
    if pos < |input| then |input| - pos else 0
  }

  function Fail<T>(e: Error, pos: nat, refs: seq<Value>): Decoded<T> {
    Decoded(Err(Failure(e, None)), pos, refs, [])
  }

  /** A failure raised inside an array or object loop, with that container attached. */
  function FailIn<T>(e: Error, partial: Value, pos: nat, refs: seq<Value>, tags: Text): Decoded<T> {
    Decoded(Err(Failure(e, Some(partial))), pos, refs, tags)
  }

  /** A 1-based back-reference looked up in the 0-based table; out of range it is `undefined`. */
  function Resolve(refs: seq<Value>, index: Num): Value {
    if index.Finite? && 1 <= index.n <= |refs| then refs[index.n - 1] else VUndef
  }

  /** The table after one loop step: the element's own decoding extends the table, the
      container's slot is overwritten, and the rest of the loop extends it again. */
  lemma {:induction false} SlotFrame(refs: seq<Value>, slot: nat, mid: seq<Value>, x: Value, out: seq<Value>)
    requires slot < |refs| <= |mid| && mid[..|refs|] == refs
    requires |mid| <= |out| && out[..|mid|] == mid[slot := x][slot := out[slot]]
    ensures out[..|refs|] == refs[slot := out[slot]]
  {
    assert forall j | 0 <= j < |refs| :: out[..|refs|][j] == out[..|mid|][j];
  }

  lemma {:induction false} PrefixOfPrefix<T>(a: seq<T>, b: seq<T>, c: seq<T>)
    requires |b| <= |c| && c[..|b|] == b && |a| <= |b| && b[..|a|] == a
    ensures c[..|a|] == a
  {
    assert forall j | 0 <= j < |a| :: c[..|a|][j] == c[..|b|][j];
  }

  /** A container's decoding reserves the slot just past the table it started from and leaves
      that table as it was. */
  lemma {:induction false} SlotReserved(refs: seq<Value>, x: Value, out: seq<Value>)
    requires |refs| < |out| && out[..|refs| + 1] == (refs + [x])[|refs| := out[|refs|]]
    ensures out[..|refs|] == refs
  {
    assert forall j | 0 <= j < |refs| :: out[..|refs|][j] == out[..|refs| + 1][j];
  }

  /** `readTypeKey`: a key is an integer or a string; any other tag is an error reported at the
      tag's position. */
  function KeyAt(input: Text, pos: nat): (r: Result<(Key, nat), Error>)
    ensures r.Ok? ==> pos < |input| && pos < r.value.1
  {
    var tag := TagAt(input, pos);
    if tag == [TAG_INT] then
      match IntAt(input, pos + 2)
      case Err(e) => Err(e)
      case Ok((n, q)) => Ok((KNum(n), q))
    else if tag == [TAG_STRING] then
      match StringAt(input, pos + 2, QUOTE)
      case Err(e) => Err(e)
      case Ok((s, q)) => Ok((KStr(s), q))
    else Err(UnknownKeyType(tag, pos))
  }

  /** `parseNext`: the type tag and its separator, then the decoder the tag selects. */
  function ValueAt(input: Text, pos: nat, refs: seq<Value>): (d: Decoded<Value>)
    ensures d.result.Ok? ==> pos < |input| && pos < d.pos
    ensures d.result.Ok? ==> |d.tags| > 0 && d.tags[0] == input[pos]
    ensures d.result.Ok? ==> |refs| <= |d.refs| && d.refs[..|refs|] == refs
    ensures d.result.Ok? ==> |d.refs| == |refs| + RecordedCount(d.tags)
    decreases Remaining(input, pos), 3
  {
    var tag := TagAt(input, pos);
    var p := pos + 2;
    if tag == [TAG_ARRAY] then
      var d := ArrayAt(input, p, refs);
      Decoded(d.result, d.pos, d.refs, tag + d.tags)
    else if tag == [TAG_OBJECT] then
      var d := ObjectAt(input, p, refs);
      Decoded(d.result, d.pos, d.refs, tag + d.tags)
    else if |tag| == 1 && tag[0] in VALUE_TAGS then
      ScalarAt(input, p, refs, tag[0])
    else Fail(UnknownType(tag, pos), p, refs)
  }

  /** `parseAsInt`: the number before the next `;`. */
  function IntValueAt(input: Text, pos: nat): (r: Result<(Value, nat), Error>)
    ensures r.Ok? ==> pos < r.value.1
  {
    match IntAt(input, pos)
    case Err(e) => Err(e)
    case Ok((n, q)) => Ok((VInt(n), q))
  }

  /** `parseAsFloat`: the token before the next `;`, kept as it is written. */
  function FloatValueAt(input: Text, pos: nat): (r: Result<(Value, nat), Error>)
    ensures r.Ok? ==> pos < r.value.1
  {
    match TokenAt(input, pos, SEMICOLON)
    case Err(e) => Err(e)
    case Ok((token, d)) => Ok((VFloat(token), d + 1))
  }

  /** `parseAsBoolean`: true exactly when the token before the next `;` is `1`. */
  function BoolValueAt(input: Text, pos: nat): (r: Result<(Value, nat), Error>)
    ensures r.Ok? ==> pos < r.value.1
  {
    match TokenAt(input, pos, SEMICOLON)
    case Err(e) => Err(e)
    case Ok((token, d)) => Ok((VBool(token == [DIGIT_ONE]), d + 1))
  }

  /** `parseAsString`, for both `s` and `E`. */
  function StringValueAt(input: Text, pos: nat): (r: Result<(Value, nat), Error>)
    ensures r.Ok? ==> pos < r.value.1
  {
    match StringAt(input, pos, QUOTE)
    case Err(e) => Err(e)
    case Ok((s, q)) => Ok((VStr(s), q))
  }

  /** `parseAsCustom`: the class name, then the payload up to `}`; the reader skips one
      character after the `}` that is not there, so the cursor steps back by one. */
  function CustomAt(input: Text, pos: nat): (r: Result<(Value, nat), Error>)
    ensures r.Ok? ==> pos < r.value.1
    ensures r.Ok? ==> r.value.0.VCustom? && r.value.1 <= |input| && input[r.value.1 - 1] == CLOSE_BRACE
  {
    match StringAt(input, pos, QUOTE)
    case Err(e) => Err(e)
    case Ok((name, q)) =>
      match StringAt(input, q, CLOSE_BRACE)
      case Err(e) => Err(e)
      case Ok((payload, q2)) => Ok((VCustom(name, payload), q2 - 1))
  }

  /** `parseAsRefValue` and `parseAsRef`: the value a back-reference index names. */
  function RefTargetAt(input: Text, pos: nat, refs: seq<Value>): (r: Result<(Value, nat), Error>)
    ensures r.Ok? ==> pos < r.value.1
  {
    match IntAt(input, pos)
    case Err(e) => Err(e)
    case Ok((n, q)) => Ok((Resolve(refs, n), q))
  }

  /** The reader a non-recursing tag selects. */
  function ScalarRead(input: Text, pos: nat, refs: seq<Value>, tag: CodeUnit): (r: Result<(Value, nat), Error>)
    ensures r.Ok? ==> pos <= r.value.1
  {
    if tag == TAG_INT then IntValueAt(input, pos)
    else if tag == TAG_FLOAT then FloatValueAt(input, pos)
    else if tag == TAG_BOOL then BoolValueAt(input, pos)
    else if tag == TAG_STRING || tag == TAG_ESCAPED_STRING then StringValueAt(input, pos)
    else if tag == TAG_NULL then Ok((VNull, pos))
    else if tag == TAG_CUSTOM then CustomAt(input, pos)
    else RefTargetAt(input, pos, refs)
  }

  /** The decoders that do not recurse, `i`, `d`, `b`, `s`/`E`, `N`, `C`, `r`, `R`; all but `C`
      and `R` record their value in the table. */
  function ScalarAt(input: Text, pos: nat, refs: seq<Value>, tag: CodeUnit): (d: Decoded<Value>)
    requires tag in VALUE_TAGS && tag != TAG_ARRAY && tag != TAG_OBJECT
    ensures d.result.Ok? ==> pos <= d.pos && d.tags == [tag]
    ensures d.result.Ok? ==> d.refs == if tag in RECORDED_TAGS then refs + [d.result.value] else refs
  {
    match ScalarRead(input, pos, refs, tag)
    case Err(e) => Fail(e, pos, refs)
    case Ok((v, q)) => Decoded(Ok(v), q, if tag in RECORDED_TAGS then refs + [v] else refs, [tag])
  }

  /** `parseAsArray`: the element count, a table slot reserved for the array, the pairs, and the
      closing `}`, which is skipped unread. */
  function ArrayAt(input: Text, pos: nat, refs: seq<Value>): (d: Decoded<Value>)
    ensures d.result.Ok? ==> pos < d.pos
    ensures d.result.Ok? ==> |refs| < |d.refs| && d.refs[..|refs|] == refs && d.refs[|refs|] == d.result.value
    ensures d.result.Ok? ==> |d.refs| == |refs| + 1 + RecordedCount(d.tags)
    decreases Remaining(input, pos), 2
  {
    match LengthAt(input, pos)
    case Err(e) => Fail(e, pos, refs)
    case Ok((len, q)) =>
      var slot := |refs|;
      var loop := ArrayLoop(input, q, refs + [VList([])], slot, len, []);
      match loop.result
      case Err(f) => Decoded(Err(f), loop.pos, loop.refs, loop.tags)
      case Ok(pairs) =>
        SlotReserved(refs, VList([]), loop.refs);
        RunComputesArrayValue(pairs);
        Decoded(Ok(ArrayValue(pairs)), loop.pos + 1, loop.refs, loop.tags)
  }

  /** The array loop from iteration `|pairs|` on; `pairs` are the pairs decoded so far and the
      array's slot holds the list or map the loop has built from them. */
  function ArrayLoop(input: Text, pos: nat, refs: seq<Value>, slot: nat, len: Num, pairs: seq<Pair>)
    : (d: Decoded<seq<Pair>>)
    requires slot < |refs| && refs[slot] == Current(Run(pairs))
    ensures d.result.Ok? ==> pos <= d.pos
    ensures d.result.Ok? ==> |d.result.value| >= |pairs| && d.result.value[..|pairs|] == pairs
    ensures d.result.Ok? ==> !len.Exceeds(|d.result.value|)
    ensures d.result.Ok? ==> |refs| <= |d.refs| && d.refs[..|refs|] == refs[slot := d.refs[slot]]
    ensures d.result.Ok? ==> d.refs[slot] == Current(Run(d.result.value))
    ensures d.result.Ok? ==> |d.refs| == |refs| + RecordedCount(d.tags)
    decreases Remaining(input, pos), 1
  {
    if !len.Exceeds(|pairs|) then Decoded(Ok(pairs), pos, refs, [])
    else
      var e := PairAt(input, pos, refs);
      match e.result
      case Err(f) => FailIn(f.error, Current(Run(pairs)), pos, refs, [])
      case Ok(pair) =>
        var pairs' := pairs + [pair];
        var rest := ArrayLoop(input, e.pos, e.refs[slot := Current(Run(pairs'))], slot, len, pairs');
        if rest.result.Err? then rest
        else
          RecordedCountAppend(e.tags, rest.tags);
          SlotFrame(refs, slot, e.refs, Current(Run(pairs')), rest.refs);
          PrefixOfPrefix(pairs, pairs', rest.result.value);
          rest.(tags := e.tags + rest.tags)
  }

  /** One turn of the array loop: a key, then the value stored under it. */
  function PairAt(input: Text, pos: nat, refs: seq<Value>): (d: Decoded<Pair>)
    ensures d.result.Ok? ==> pos < |input| && pos < d.pos
    ensures d.result.Ok? ==> |refs| <= |d.refs| && d.refs[..|refs|] == refs
    ensures d.result.Ok? ==> |d.refs| == |refs| + RecordedCount(d.tags)
    decreases Remaining(input, pos), 0
  {
    match KeyAt(input, pos)
    case Err(e) => Fail(e, pos, refs)
    case Ok((key, q)) =>
      var v := ValueAt(input, q, refs);
      match v.result
      case Err(f) => Decoded(Err(f), v.pos, v.refs, v.tags)
      case Ok(value) => Decoded(Ok((key, value)), v.pos, v.refs, v.tags)
  }

  /** `parseAsObject`: a table slot reserved for the object, the class name, the member count,
      the members, and the closing `}`, which is skipped unread. */
  function ObjectAt(input: Text, pos: nat, refs: seq<Value>): (d: Decoded<Value>)
    ensures d.result.Ok? ==> pos < d.pos
    ensures d.result.Ok? ==> |refs| < |d.refs| && d.refs[..|refs|] == refs && d.refs[|refs|] == d.result.value
    ensures d.result.Ok? ==> |d.refs| == |refs| + 1 + RecordedCount(d.tags)
    decreases Remaining(input, pos), 2
  {
    match StringAt(input, pos, QUOTE)
    case Err(e) => Fail(e, pos, refs)
    case Ok((className, q)) =>
      match LengthAt(input, q)
      case Err(e) => Fail(e, q, refs)
      case Ok((len, q2)) =>
        var slot := |refs|;
        var loop := ObjectLoop(input, q2, refs + [VMap([])], slot, className, len, []);
        match loop.result
        case Err(f) => Decoded(Err(f), loop.pos, loop.refs, loop.tags)
        case Ok(members) =>
          SlotReserved(refs, VMap([]), loop.refs);
          Decoded(Ok(VMap(ObjectEntries(members))), loop.pos + 1, loop.refs, loop.tags)
  }

  /** The object loop after the members already read; each member name goes through the
      property-name rule and each value is stored as it is. The result is all the members
      read, and the object's slot holds the object they make. */
  function ObjectLoop(input: Text, pos: nat, refs: seq<Value>, slot: nat, className: Text, len: Num,
                      members: seq<Member>): (d: Decoded<seq<Member>>)
    requires slot < |refs| && refs[slot] == VMap(ObjectEntries(members))
    ensures d.result.Ok? ==> pos <= d.pos
    ensures d.result.Ok? ==> |d.result.value| >= |members| && d.result.value[..|members|] == members
    ensures d.result.Ok? ==> !len.Exceeds(|d.result.value|)
    ensures d.result.Ok? ==> |refs| <= |d.refs| && d.refs[..|refs|] == refs[slot := d.refs[slot]]
    ensures d.result.Ok? ==> d.refs[slot] == VMap(ObjectEntries(d.result.value))
    ensures d.result.Ok? ==> |d.refs| == |refs| + RecordedCount(d.tags)
    decreases Remaining(input, pos), 1
  {
    if !len.Exceeds(|members|) then Decoded(Ok(members), pos, refs, [])
    else
      var m := MemberAt(input, pos, refs, className);
      match m.result
      case Err(f) => FailIn(f.error, VMap(ObjectEntries(members)), pos, refs, [])
      case Ok(member) =>
        var members' := members + [member];
        var rest := ObjectLoop(input, m.pos, m.refs[slot := VMap(ObjectEntries(members'))], slot, className, len, members');
        if rest.result.Err? then rest
        else
          RecordedCountAppend(m.tags, rest.tags);
          SlotFrame(refs, slot, m.refs, VMap(ObjectEntries(members')), rest.refs);
          PrefixOfPrefix(members, members', rest.result.value);
          rest.(tags := m.tags + rest.tags)
  }

  /** One turn of the object loop: a key, the member name the property-name rule makes of it,
      and the member's value. */
  function MemberAt(input: Text, pos: nat, refs: seq<Value>, className: Text): (d: Decoded<Member>)
    ensures d.result.Ok? ==> pos < |input| && pos < d.pos
    ensures d.result.Ok? ==> |refs| <= |d.refs| && d.refs[..|refs|] == refs
    ensures d.result.Ok? ==> |d.refs| == |refs| + RecordedCount(d.tags)
    decreases Remaining(input, pos), 0
  {
    match KeyAt(input, pos)
    case Err(e) => Fail(e, pos, refs)
    case Ok((key, q)) =>
      match FixPropertyName(key, className, q)
      case Err(e) => Fail(e, q, refs)
      case Ok(name) =>
        var v := ValueAt(input, q, refs);
        match v.result
        case Err(f) => Decoded(Err(f), v.pos, v.refs, v.tags)
        case Ok(value) => Decoded(Ok((name, value)), v.pos, v.refs, v.tags)
  }

  /** `unserialisePhpData`: one value from the start of the input; what follows it is ignored. */
  function Decode(input: Text): Result<Value, Failure> {
    ValueAt(input, 0, []).result
  }
}
