/** The primitive reads of the decoder: a delimiter search, the two number readers, the type
    tag, and the byte-length-prefixed string. Each takes the input and a cursor position and
    gives what is read with the position that follows it. */
module Cursor {
  import opened Units
  import opened Numbers
  import opened Values

  /** `s.indexOf(c, from)`: the first position at or after `from` that holds `c`. */
  function IndexOf(s: Text, c: CodeUnit, from: nat): (r: Option<nat>)
    ensures r.Some? ==> from <= r.value < |s| && s[r.value] == c
    decreases |s| - from
  {
    if from >= |s| then None
    else if s[from] == c then Some(from)
    else IndexOf(s, c, from + 1)
  }

  /** No position before the one found holds `c`; when none is found, no position at all. */
  lemma {:induction false} IndexOfIsFirst(s: Text, c: CodeUnit, from: nat)
    ensures forall j :: from <= j < |s| && (IndexOf(s, c, from).None? || j < IndexOf(s, c, from).value) ==> s[j] != c
    decreases |s| - from
  {
    if from < |s| && s[from] != c {
      IndexOfIsFirst(s, c, from + 1);
    }
  }

  /** The text from `pos` up to the next `delim`, and the position of that delimiter. */
  function TokenAt(input: Text, pos: nat, delim: CodeUnit): (r: Result<(Text, nat), Error>)
    ensures r.Ok? ==> pos <= r.value.1 < |input|
  {
    match IndexOf(input, delim, pos)
    case None => Err(MissingDelimiter(delim, pos))
    case Some(d) => Ok((input[pos..d], d))
  }

  /** A token runs up to the first `delim` at or after `pos` and does not contain one; when there
      is no `delim`, reading fails with the position the search started from. */
  lemma {:induction false} TokenAtMeaning(input: Text, pos: nat, delim: CodeUnit)
    ensures var r := TokenAt(input, pos, delim);
      && (r.Ok? ==> input[r.value.1] == delim && r.value.0 == input[pos..r.value.1] && delim !in r.value.0)
      && (r.Err? <==> forall j :: pos <= j < |input| ==> input[j] != delim)
      && (r.Err? ==> r.error == MissingDelimiter(delim, pos))
  {
    IndexOfIsFirst(input, delim, pos);
  }

  /** `readLength`: the number before the next `:`, read by `parseInt`; the cursor moves past
      that `:` and the character after it. */
  function LengthAt(input: Text, pos: nat): (r: Result<(Num, nat), Error>)
    ensures r.Ok? ==> pos + 2 <= r.value.1 && r.value.1 - 2 < |input| && input[r.value.1 - 2] == COLON
    ensures r.Err? ==> r.error == MissingDelimiter(COLON, pos)
  {
    match TokenAt(input, pos, COLON)
    case Err(e) => Err(e)
    case Ok((token, d)) => Ok((ParseIntPrefix(token), d + 2))
  }

  /** `readInt`: the number before the next `;`, read by `Number`; the cursor moves past the `;`. */
  function IntAt(input: Text, pos: nat): (r: Result<(Num, nat), Error>)
    ensures r.Ok? ==> pos + 1 <= r.value.1 <= |input| && input[r.value.1 - 1] == SEMICOLON
    ensures r.Err? ==> r.error == MissingDelimiter(SEMICOLON, pos)
  {
    match TokenAt(input, pos, SEMICOLON)
    case Err(e) => Err(e)
    case Ok((token, d)) => Ok((ToNumber(token), d + 1))
  }

  /** `charAt(pos)`: the code unit at `pos` as a one-unit text, or the empty text past the end. */
  function TagAt(input: Text, pos: nat): (t: Text)
    ensures |t| <= 1
  {
    if pos < |input| then [input[pos]] else []
  }

  /** The estimated UTF-8 length of a code unit. */
  function Weight(u: CodeUnit): nat {
    if u <= 0x7F then 1 else if u > 0x7FF then 3 else 2
  }

  /** The weight of the code unit at `i`; past the end `charCodeAt` gives NaN, which fails
      both comparisons and weighs 2. */
  function WeightAt(input: Text, i: nat): (w: nat)
    ensures 1 <= w <= 3
  {
    if i < |input| then Weight(input[i]) else 2
  }

  /** The estimated byte length of the `k` code units from `start`. */
  function ByteCount(input: Text, start: nat, k: nat): nat
    decreases k
  {
    if k == 0 then 0 else WeightAt(input, start) + ByteCount(input, start + 1, k - 1)
  }

  /** Counting one more code unit adds its weight at the end. */
  lemma {:induction false} ByteCountSnoc(input: Text, start: nat, k: nat)
    ensures ByteCount(input, start, k + 1) == ByteCount(input, start, k) + WeightAt(input, start + k)
    decreases k
  {
    if k > 0 {
      ByteCountSnoc(input, start + 1, k - 1);
    }
  }

  /** The number of code units from `start` that a declared byte length covers: the shortest
      run whose estimated byte length reaches `goal`. */
  function MeasuredSpan(input: Text, start: nat, goal: nat): nat
    decreases goal
  {
    if goal == 0 then 0
    else
      var w := WeightAt(input, start);
      if w >= goal then 1 else 1 + MeasuredSpan(input, start + 1, goal - w)
  }

  /** The measured span reaches the goal, and no shorter run does. */
  lemma {:induction false} MeasuredSpanIsShortest(input: Text, start: nat, goal: nat)
    ensures ByteCount(input, start, MeasuredSpan(input, start, goal)) >= goal
    ensures forall j :: 0 <= j < MeasuredSpan(input, start, goal) ==> ByteCount(input, start, j) < goal
    decreases goal
  {
    if goal > 0 {
      var w := WeightAt(input, start);
      if w < goal {
        MeasuredSpanIsShortest(input, start + 1, goal - w);
        forall j | 0 < j < MeasuredSpan(input, start, goal)
          ensures ByteCount(input, start, j) < goal
        {
          assert ByteCount(input, start, j) == w + ByteCount(input, start + 1, j - 1);
        }
      }
    }
  }

  /** The measured span is the only run that reaches the goal when no shorter run does; this is
      where a weighing loop that stops at the goal ends. */
  lemma {:induction false} MeasuredSpanUnique(input: Text, start: nat, goal: nat, k: nat)
    requires ByteCount(input, start, k) >= goal
    requires forall j :: 0 <= j < k ==> ByteCount(input, start, j) < goal
    ensures k == MeasuredSpan(input, start, goal)
  {
    MeasuredSpanIsShortest(input, start, goal);
  }

  /** The byte count the weighing loop must reach: `byteCount < expectedLength` never holds
      for a NaN or non-positive length. */
  function Goal(expected: Num): (g: nat)
    ensures forall c: nat :: expected.Exceeds(c) <==> c < g
  {
    if expected.Finite? && expected.n > 0 then expected.n else 0
  }

  /** `readString(delim)`: a declared byte length, then the string it covers, which must be
      followed by `delim`; when it is not, the string runs to the next `delim` instead. The
      cursor moves past the delimiter and the character after it. */
  function StringAt(input: Text, pos: nat, delim: CodeUnit): (r: Result<(Text, nat), Error>)
    ensures r.Ok? ==> pos + 2 <= r.value.1
    ensures r.Ok? ==> && LengthAt(input, pos).Ok?
                      && r.value.1 == LengthAt(input, pos).value.1 + |r.value.0| + 2
                      && r.value.1 - 2 < |input| && input[r.value.1 - 2] == delim
  {
    match LengthAt(input, pos)
    case Err(e) => Err(e)
    case Ok((len, start)) =>
      var k := MeasuredSpan(input, start, Goal(len));
      match IndexOf(input, delim, start + k)
      case None => Err(MissingDelimiter(delim, start + k))
      case Some(end) => Ok((input[start..end], end + 2))
  }

  /** The number of code units `readString` measures from `start` for a declared length. */
  function SpanStart(input: Text, pos: nat): nat
    requires LengthAt(input, pos).Ok?
  {
    var (len, start) := LengthAt(input, pos).value;
    start + MeasuredSpan(input, start, Goal(len))
  }

  lemma {:induction false} StringAtEnd(input: Text, pos: nat, delim: CodeUnit)
    requires StringAt(input, pos, delim).Ok?
    ensures LengthAt(input, pos).Ok?
    ensures var end := StringAt(input, pos, delim).value.1 - 2;
      SpanStart(input, pos) <= end < |input| && input[end] == delim
  {
  }

  lemma {:induction false} StringAtText(input: Text, pos: nat, delim: CodeUnit)
    requires StringAt(input, pos, delim).Ok?
    ensures LengthAt(input, pos).Ok?
    ensures var r := StringAt(input, pos, delim);
      LengthAt(input, pos).value.1 <= r.value.1 - 2 <= |input|
      && r.value.0 == input[LengthAt(input, pos).value.1..r.value.1 - 2]
  {
  }

  lemma {:induction false} StringAtFirstDelimiter(input: Text, pos: nat, delim: CodeUnit)
    requires StringAt(input, pos, delim).Ok?
    ensures LengthAt(input, pos).Ok?
    ensures forall j :: SpanStart(input, pos) <= j < StringAt(input, pos, delim).value.1 - 2 ==> input[j] != delim
  {
    IndexOfIsFirst(input, delim, SpanStart(input, pos));
  }

  /** What `readString` returns: the measured span is always part of the string, whatever it
      contains; the string ends at the first `delim` from there on; that `delim` is the character
      right after the string, and the cursor ends two past the string. */
  lemma {:induction false} StringAtSpan(input: Text, pos: nat, delim: CodeUnit)
    requires StringAt(input, pos, delim).Ok?
    ensures LengthAt(input, pos).Ok?
    ensures var (len, start) := LengthAt(input, pos).value;
      var k := MeasuredSpan(input, start, Goal(len));
      var r := StringAt(input, pos, delim);
      var end := r.value.1 - 2;
      && start + k <= end < |input|
      && input[end] == delim
      && r.value.0 == input[start..end]
      && forall j :: start + k <= j < end ==> input[j] != delim
  {
    StringAtEnd(input, pos, delim);
    StringAtText(input, pos, delim);
    StringAtFirstDelimiter(input, pos, delim);
  }

  /** `readString` fails exactly when the length has no `:` after it or no `delim` follows the
      measured span. */
  lemma {:induction false} StringAtFails(input: Text, pos: nat, delim: CodeUnit)
    ensures StringAt(input, pos, delim).Err? <==>
      || LengthAt(input, pos).Err?
      || var (len, start) := LengthAt(input, pos).value;
         forall j :: start + MeasuredSpan(input, start, Goal(len)) <= j < |input| ==> input[j] != delim
  {
    if LengthAt(input, pos).Ok? {
      var (len, start) := LengthAt(input, pos).value;
      IndexOfIsFirst(input, delim, start + MeasuredSpan(input, start, Goal(len)));
    }
  }

  /** Text appended after a successful read changes nothing about it: each read only looks up
      to the delimiter it finds. */
  lemma {:induction false} IndexOfExtend(s: Text, extra: Text, c: CodeUnit, from: nat)
    requires IndexOf(s, c, from).Some?
    ensures IndexOf(s + extra, c, from) == IndexOf(s, c, from)
  {
    var i := IndexOf(s, c, from).value;
    IndexOfIsFirst(s, c, from);
    IndexOfIsFirst(s + extra, c, from);
    assert (s + extra)[i] == c;
    assert forall j :: from <= j < i ==> (s + extra)[j] == s[j];
  }

  lemma {:induction false} TokenAtExtend(input: Text, extra: Text, pos: nat, delim: CodeUnit)
    requires TokenAt(input, pos, delim).Ok?
    ensures TokenAt(input + extra, pos, delim) == TokenAt(input, pos, delim)
  {
    IndexOfExtend(input, extra, delim, pos);
    var d := IndexOf(input, delim, pos).value;
    assert (input + extra)[pos..d] == input[pos..d];
  }

  lemma {:induction false} LengthAtExtend(input: Text, extra: Text, pos: nat)
    requires LengthAt(input, pos).Ok?
    ensures LengthAt(input + extra, pos) == LengthAt(input, pos)
  {
    TokenAtExtend(input, extra, pos, COLON);
  }

  lemma {:induction false} IntAtExtend(input: Text, extra: Text, pos: nat)
    requires IntAt(input, pos).Ok?
    ensures IntAt(input + extra, pos) == IntAt(input, pos)
  {
    TokenAtExtend(input, extra, pos, SEMICOLON);
  }

  lemma {:induction false} MeasuredSpanExtend(input: Text, extra: Text, start: nat, goal: nat)
    requires start + MeasuredSpan(input, start, goal) <= |input|
    ensures MeasuredSpan(input + extra, start, goal) == MeasuredSpan(input, start, goal)
    decreases goal
  {
    if goal > 0 {
      assert WeightAt(input + extra, start) == WeightAt(input, start);
      var w := WeightAt(input, start);
      if w < goal {
        MeasuredSpanExtend(input, extra, start + 1, goal - w);
      }
    }
  }

  lemma {:induction false} StringAtExtend(input: Text, extra: Text, pos: nat, delim: CodeUnit)
    requires StringAt(input, pos, delim).Ok?
    ensures StringAt(input + extra, pos, delim) == StringAt(input, pos, delim)
  {
    var longer := input + extra;
    StringAtEnd(input, pos, delim);
    TokenAtExtend(input, extra, pos, COLON);
    assert LengthAt(longer, pos) == LengthAt(input, pos);
    var (len, start) := LengthAt(input, pos).value;
    MeasuredSpanExtend(input, extra, start, Goal(len));
    var from := SpanStart(input, pos);
    assert SpanStart(longer, pos) == from;
    IndexOfExtend(input, extra, delim, from);
    var end := IndexOf(input, delim, from).value;
    assert longer[start..end] == input[start..end];
  }
}
