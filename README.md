# unserialisePhpData, modelled in Dafny

This project models `unserialisePhpData`, a JavaScript decoder for the text that PHP's
`serialize()` produces. It takes values such as `i:4;`, `s:5:"hello";`, `a:1:{i:0;N;}`,
`O:3:"Foo":1:{s:1:"x";b:1;}`, `C:3:"Foo":4:{data}` and the back-references `r:n;` / `R:n;`. It
builds numbers, booleans, strings, lists, plain objects, custom-class records, `null` and `undefined`.

The decoder keeps three pieces of state:

- **The input**, a JavaScript string. Here it is `Text`, a sequence of UTF-16 code units.
- **The cursor.** Every reader moves it forward.
- **The reference table.** Integers, floats, booleans, strings, `null`, arrays, objects and `r:`
  back-references are appended to it in the order they are met. `r:n;` and `R:n;` look up the
  `n`-th entry, 1-based; `C:` and `R:` records are not appended.

The model has two layers.

- **Module `Grammar`** gives the decoder as total functions of the input, the cursor and the
  table. `ValueAt` is `parseNext`; `ArrayAt` and `ArrayLoop` are `parseAsArray`; `ObjectAt`
  and `ObjectLoop` are `parseAsObject`; `Decode` is the whole call. Each returns the result,
  the new cursor, the new table, and the value tags it dispatched.
- **Class `Parser.Parser`** holds a constant input, a mutable `pos` and a mutable `refs`. Its
  methods are the source's closures, with the source's loops, with these exceptions:
  - `fixPropertyName` only computes a value, so it is the function `PropertyNames.FixPropertyName`.
  - `ReadToken` is the `indexOf`-and-slice step that several closures share.
  - `ParseArrayElements` and `ParseObjectMembers` are the loops of `parseAsArray` and `parseAsObject`.
  - `ParsePair`, `ParseMember` and `CountUnits` are loop bodies.

  Each method is proved to leave exactly the result, cursor and table that the matching
  `Grammar` function gives. Everything proved about `Grammar` therefore holds of the parser.

The other modules:

- `Units`: code units and the format's delimiters.
- `Numbers`: JavaScript's `parseInt` and `Number` on sign-and-digit text, and the
  decimal rendering of property keys.
- `Values`: keys, values, errors, and JavaScript objects as insertion-ordered property lists.
- `Cursor`: `indexOf`, `charAt`, the byte weighing of `readString`, and the readers of
  lengths, integers and strings.
- `PropertyNames`: the rule for NUL-marked member names.
- `Arrays`: the list-or-map state of the array loop.
- `Objects`: the object that the object loop's members make.
- `GrammarFacts`: properties of the decoder.
- `Samples`: whole decodes worked through on concrete inputs.

Three JavaScript behaviours are modelled exactly:

- The length loops compare with `<`, so a `NaN` length runs no iterations (`Num.Exceeds`).
- `charCodeAt` past the end of the input is `NaN`, and `NaN` weighs 2 bytes (`Cursor.WeightAt`).
- Array keys are compared with `===`. A number key equal to the next index extends the list.
  Any other key turns the array into a map that starts with the list's indexes. After that,
  each value is stored with a one-element array unwrapped to its element.

The decoder's `fixPropertyName` (lines 158-178) splits a NUL-marked name at its NULs and takes
the second and third pieces as the class piece and the name piece; a missing piece is
`undefined`. Two cases are not rejected, although the name is not made of two NUL-marked parts:

- A name with one NUL and a non-empty class piece. `\0*foo` yields the member
  `*foo::undefined` (`undefined` in an object of class `*foo`): the class piece is `*foo`, and as there is no third piece the name piece
  is `undefined`. With an empty class piece, `\0` alone is rejected, unless the object's own
  class name is empty too.
- A name whose class piece is empty, such as `\0\0x`, when the object's own class name is also
  empty. The code compares the class piece with the class name before it tests the piece for
  emptiness, and the two empty strings are equal, so the member is `x`.

`PropertyNames.OneMarker` and `PropertyNames.MalformedExactly` state exactly what the code does.

## Model

| member | source | states |
|---|---|---|
| Parser.Parser.constructor | src/util/parser.mjs:9-12 | decoding starts at position 0 with an empty reference table |
| Parser.Parser.ReadToken | src/util/parser.mjs:22-23 | returns the text from the cursor to the next delimiter and leaves the cursor on that delimiter, as `Cursor.TokenAt` gives it; fails when there is no delimiter; the table is untouched |
| Parser.Parser.ReadLength | src/util/parser.mjs:14-19 | result and new cursor are `Cursor.LengthAt`: `parseInt` of the text before the next `:`, cursor two past the `:` |
| Parser.Parser.ReadInt | src/util/parser.mjs:21-26 | result and new cursor are `Cursor.IntAt`: `Number` of the text before the next `;`, cursor one past the `;` |
| Parser.Parser.ReadString | src/util/parser.mjs:53-85 | result and new cursor are `Cursor.StringAt`: the measured span, then the fall-back search for the delimiter when the measured span is not followed by it |
| Parser.Parser.CountUnits | src/util/parser.mjs:55-63 | the counting loop stops at the shortest code-unit span whose byte weight reaches the declared length (`Cursor.MeasuredSpan`) |
| Parser.Parser.ReadDataType | src/util/parser.mjs:93-97 | the tag is the one code unit at the cursor, or empty past the end; the cursor moves by two |
| Parser.Parser.ReadTypeKey | src/util/parser.mjs:99-113 | result and new cursor are `Grammar.KeyAt`: `i` gives a number key, `s` a string key, any other tag an error |
| Parser.Parser.ParseAsInt | src/util/parser.mjs:28-32 | computes `Grammar.ScalarAt` for `i`: the number, appended to the table |
| Parser.Parser.ParseAsFloat | src/util/parser.mjs:34-42 | computes `Grammar.ScalarAt` for `d`: the float's text, appended to the table |
| Parser.Parser.ParseAsBoolean | src/util/parser.mjs:44-51 | computes `Grammar.ScalarAt` for `b`: true exactly for `1`, appended to the table |
| Parser.Parser.ParseAsString | src/util/parser.mjs:87-91 | computes `Grammar.ScalarAt` for `s` and `E`: the string, appended to the table |
| Parser.Parser.ParseAsNull | src/util/parser.mjs:229-233 | computes `Grammar.ScalarAt` for `N`: `null`, appended to the table |
| Parser.Parser.ParseAsCustom | src/util/parser.mjs:204-213 | computes `Grammar.ScalarAt` for `C`: class name and payload, the cursor stepped back by one, nothing recorded |
| Parser.Parser.ParseAsRefValue | src/util/parser.mjs:215-221 | computes `Grammar.ScalarAt` for `r`: the 1-based entry, appended again |
| Parser.Parser.ParseAsRef | src/util/parser.mjs:223-227 | computes `Grammar.ScalarAt` for `R`: the 1-based entry, nothing recorded |
| Parser.Parser.ParseNext | src/util/parser.mjs:235-258 | result, cursor and table are `Grammar.ValueAt`, whichever of the eleven tags it dispatches on, and the unknown-tag error otherwise |
| Parser.Parser.ParseAsArray | src/util/parser.mjs:115-156 | result, cursor and table are `Grammar.ArrayAt` |
| Parser.Parser.ParseArrayElements | src/util/parser.mjs:124-152 | the loop yields `Grammar.ArrayLoop`'s pairs and returns `Arrays.ArrayValue` of them, with that loop's cursor and table; on an error, the same error and partial state |
| Parser.Parser.ParsePair | src/util/parser.mjs:126-127 | one iteration's key and value, as `Grammar.PairAt` |
| Parser.Parser.ParseAsObject | src/util/parser.mjs:180-202 | result, cursor and table are `Grammar.ObjectAt` |
| Parser.Parser.ParseObjectMembers | src/util/parser.mjs:188-198 | the loop yields `Grammar.ObjectLoop`'s members and returns the object `Objects.ObjectEntries` makes of them, with that loop's cursor and table; on an error, the same error and partial object |
| Parser.Parser.ParseMember | src/util/parser.mjs:190-191 | one member's fixed name and value, as `Grammar.MemberAt` |
| Parser.Unserialise | src/util/parser.mjs:9-261 | the whole decode of the input from position 0 with an empty table is `Grammar.Decode` |
| Grammar.ValueAt | src/util/parser.mjs:235-258 | a decoded value moves the cursor forward; its first tag is the one at the cursor; the earlier table entries are kept; the table grows by exactly one entry per recorded tag dispatched, at any depth |
| Grammar.ScalarAt | src/util/parser.mjs:204-233 | a scalar dispatches only its own tag; it appends its value to the table exactly when the tag is one that records (`i d b s E r N`), so never for `C` and `R` |
| Grammar.KeyAt | src/util/parser.mjs:99-113 | a key that is read lies within the input and moves the cursor forward |
| Grammar.ArrayAt | src/util/parser.mjs:115-156 | an array takes the table slot right after the earlier entries, the slot ends up holding the array, and the table grows by one plus the entries recorded inside it |
| Grammar.ArrayLoop | src/util/parser.mjs:125-152 | the loop only adds pairs; it stops only once the count is no longer exceeded (`i < length` is false); its slot always holds the array state of the pairs read; the other table entries before it are kept |
| Grammar.PairAt | src/util/parser.mjs:126-127 | a key and value that are read move the cursor forward, keep the table prefix and grow it by the entries recorded |
| Grammar.ObjectAt | src/util/parser.mjs:180-202 | an object takes the table slot right after the earlier entries, the slot ends up holding the object, and the table grows by one plus the entries recorded inside it |
| Grammar.ObjectLoop | src/util/parser.mjs:189-198 | the loop only adds members; it stops only once the count is no longer exceeded; the object's slot always holds the object the members read make; the other table entries before it are kept |
| Grammar.CustomAt | src/util/parser.mjs:204-213 | a custom record that is read leaves the cursor just past its `}`, stepped back from where the payload reader left it |
| Grammar.MemberAt | src/util/parser.mjs:190-191 | a member that is read moves the cursor forward, keeps the table prefix and grows it by the entries recorded |
| GrammarFacts.ScalarDispatch | src/util/parser.mjs:235-257 | a scalar tag at the cursor means decoding is that scalar's reader two units on |
| GrammarFacts.ContainerDispatch | src/util/parser.mjs:235-257 | an `a` or `O` at the cursor means decoding is that container's reader two units on, with the tag in front of its dispatched tags |
| GrammarFacts.ArrayLoopCount | src/util/parser.mjs:125 | a loop that succeeds has read exactly as many pairs as the count says, and none beyond those it started from when the count is `NaN` or not above them |
| GrammarFacts.ObjectLoopCount | src/util/parser.mjs:189 | a loop that succeeds has read exactly as many members as the count says, and none beyond those it started from when the count is `NaN` or not above them |
| GrammarFacts.ArrayAtLoop | src/util/parser.mjs:115-156 | an array is its length, its loop from the first pair with a fresh slot holding the empty list, and one skipped `}`; its value is `Arrays.ArrayValue` of exactly `length` pairs (none for a length that is `NaN` or not positive), and an error is passed through |
| GrammarFacts.ObjectAtLoop | src/util/parser.mjs:180-202 | an object is its class name, its count, its loop with a fresh slot holding the empty object, and one skipped `}`; its value is `Objects.ObjectEntries` of exactly `len` members (none for a count that is `NaN` or not positive), and an error is passed through |
| GrammarFacts.ScalarFailsOnlyOnDelimiters | src/util/parser.mjs:21-91 | a scalar fails only when a delimiter it searches for is missing, and that error carries no partial value |
| GrammarFacts.UnknownTagRejected | src/util/parser.mjs:251-255 | decoding fails with the unknown-type error at the tag's position and no partial value if and only if the tag is not one of the eleven, including an empty tag past the end |
| GrammarFacts.UnknownKeyTagRejected | src/util/parser.mjs:106-110 | reading a key fails with the unknown-key-type error at the tag's position if and only if the tag is neither `i` nor `s` |
| GrammarFacts.BackReference | src/util/parser.mjs:215-227 | `r:n;` and `R:n;` give the `n`-th table entry, 1-based, or `undefined` outside the table; only `r` appends it |
| GrammarFacts.BooleanPayload | src/util/parser.mjs:44-51 | a boolean is true if and only if its payload is exactly `1`, and it fails if and only if there is no `;` |
| GrammarFacts.CustomPayload | src/util/parser.mjs:204-213 | a custom record is the class name read up to `"` and the payload read up to `}`; the cursor ends just past that `}` |
| GrammarFacts.CustomDecodes | src/util/parser.mjs:204-213 | the `C` decoder gives what `CustomAt` reads, its error with no state, and records nothing in the table |
| GrammarFacts.CustomRecord | src/util/parser.mjs:204-213 | decoding a `C` record succeeds if and only if its reader does, gives its record and leaves the table unchanged |
| GrammarFacts.ContainerSlot | src/util/parser.mjs:118-122 | an array or object occupies the table slot right after the entries before it, ahead of everything nested in it, and that slot ends up holding the container |
| GrammarFacts.ArrayLoopFailure | src/util/parser.mjs:149-152 | an error anywhere inside an array's loop is the error of the first pair that fails, and it carries `Arrays.ArrayValue` of exactly the pairs read before that pair (`GrammarFacts.ArrayFailedAfter`), fewer than the count |
| GrammarFacts.ArrayFailureCarriesPartial | src/util/parser.mjs:149-152 | a failed array whose length was read fails with the error of its first failing pair, and reports as the error's state `Arrays.ArrayValue` of exactly the pairs its loop read before that pair |
| GrammarFacts.ArrayFailedAfterStep | src/util/parser.mjs:125-132 | when the pair at the start is read in full, a failed run from there is exactly a failed run, one pair longer, from after that pair |
| GrammarFacts.ArrayFailedAfterStart | src/util/parser.mjs:125-152 | a failed run whose first pair fails reads no further pair, and carries that pair's error with the array as it stood |
| GrammarFacts.ArrayFailedAfterUnique | src/util/parser.mjs:125-152 | where a failure is, and what it carries, is determined by where the loop starts: any two descriptions of it agree on the pairs read and on the error |
| GrammarFacts.ObjectLoopFailure | src/util/parser.mjs:194-198 | an error anywhere inside an object's loop is the error of the first member that fails, and it carries the object made by exactly the members read before that member (`GrammarFacts.ObjectFailedAfter`), fewer than the count |
| GrammarFacts.ObjectFailureCarriesPartial | src/util/parser.mjs:194-198 | a failed object whose class name and count were read fails with the error of its first failing member, and reports as the error's state the object made by exactly the members its loop read before that member |
| GrammarFacts.ObjectFailedAfterStep | src/util/parser.mjs:189-193 | when the member at the start is read in full, a failed run from there is exactly a failed run, one member longer, from after that member |
| GrammarFacts.ObjectFailedAfterStart | src/util/parser.mjs:189-198 | a failed run whose first member fails reads no further member, and carries that member's error with the object as it stood |
| GrammarFacts.ObjectFailedAfterUnique | src/util/parser.mjs:189-198 | any two descriptions of an object loop's failure agree on the members read and on the error |
| GrammarFacts.ValueAtExtend | src/util/parser.mjs:235-258 | text appended after a value that decodes changes nothing about its decode: not the value, the cursor, the table or the tags |
| GrammarFacts.TrailingInputIgnored | src/util/parser.mjs:260 | a decode that succeeds gives the same result whatever text follows it |
| Arrays.Step | src/util/parser.mjs:129-147 | one loop body keeps the list if and only if it was a list and the key `===` the index; in the map it stores the unwrapped value under the key's property name |
| Values.Unwrap | src/util/parser.mjs:143-145 | the value stored is the value itself, or the sole element of a one-element list, and always that element when the value is such a list |
| Arrays.RunExtends | src/util/parser.mjs:129-147 | one loop body applied to the state of the pairs read so far is the state of those pairs plus the new one |
| Arrays.SequentialPrefix | src/util/parser.mjs:129 | the longest prefix of pairs whose keys are the numbers 0, 1, … in order, which is how long the array stays a list |
| Arrays.RunComputesArrayValue | src/util/parser.mjs:125-148 | the loop's state after any pairs is `ArrayValue`, and it is still a list if and only if every key was the next index |
| Arrays.RunMatchesAll | src/util/parser.mjs:125-148 | after any pairs, the state is the list of the values while the keys were sequential, and the promoted map after that |
| Arrays.SequentialKeysGiveList | src/util/parser.mjs:129-132 | an array decodes to a list if and only if every key `===` its index, and the list is then exactly the values in order; otherwise a map |
| Arrays.IndexEntriesLookup | src/util/parser.mjs:135-138 | promotion stores the `j`-th list element under the key `"j"`, with no key repeated |
| Arrays.PromotionKeepsEarlierElements | src/util/parser.mjs:134-141 | after promotion, each list element read before it is still in the map under its index unless a later key overwrote it |
| Arrays.PromotionLastWriteWins | src/util/parser.mjs:143-147 | after promotion, a key holds the unwrapped value of its last assignment |
| Arrays.PromotedKeys | src/util/parser.mjs:134-147 | a promoted array's keys are the list indexes before promotion and the keys assigned after it, each exactly once |
| Values.Put | src/util/parser.mjs:192 | `obj[key] = value` stores the pair and adds at most one property |
| Values.LookupFinds | src/util/parser.mjs:147 | a property list has a value for a key if and only if the key was stored, and that value is one of its entries |
| Values.PutLookup | src/util/parser.mjs:192 | after an assignment, the key holds the new value and every other key is unchanged |
| Values.PutKeys | src/util/parser.mjs:192 | an assignment adds its key and no other key; a new key goes at the end and an existing key keeps its place; keys stay distinct |
| Values.PutAllLookup | src/util/parser.mjs:135-138 | a series of assignments leaves each key with its last assigned value, or its earlier one if it was not assigned |
| Values.PutAllKeys | src/util/parser.mjs:135-138 | a series of assignments adds exactly the keys assigned, keeping keys distinct |
| Objects.ObjectEntriesSnoc | src/util/parser.mjs:190-192 | one more member is one more assignment, under its property name, of its value exactly as read (never unwrapped) |
| Objects.ObjectLastWriteWins | src/util/parser.mjs:189-193 | a member that no later member renames gives its property its own value; a one-element list stays a list |
| Objects.ObjectLookupAbsent | src/util/parser.mjs:189-193 | a property that no member names is absent from the object |
| Objects.ObjectKeys | src/util/parser.mjs:189-193 | the object's properties are exactly the members' names, each once |
| Numbers.NatToString | src/util/parser.mjs:137 | an index is rendered as a non-empty string of digits |
| Numbers.NatToStringRoundTrip | src/util/parser.mjs:137 | the digits of an index read back as that index |
| Numbers.NatToStringInjective | src/util/parser.mjs:137 | two indexes are written the same if and only if they are equal |
| Numbers.IntToStringRoundTrip | src/util/parser.mjs:14-26 | an integer written in decimal reads back as itself through both `Number` and `parseInt` |
| Numbers.IntToStringInjective | src/util/parser.mjs:147 | two integer keys give the same property name if and only if they are equal |
| Numbers.DigitRun | src/util/parser.mjs:18 | `parseInt` reads the longest run of digits: all of it digits, and the unit after it is not one |
| Numbers.ToNumber | src/util/parser.mjs:25 | `Number` accepts the empty token, as 0, and an optionally signed run of digits, and nothing else; only a leading `-` makes it negative |
| Numbers.ParseIntPrefix | src/util/parser.mjs:18 | `parseInt` gives a number exactly when a digit follows the optional sign |
| Numbers.ParseIntReadsPrefix | src/util/parser.mjs:18 | when `parseInt` gives a number, it is what `Number` makes of the sign and the longest digit run alone, whatever follows them |
| Numbers.NumberAgreesWithParseInt | src/util/parser.mjs:14-26 | on every non-empty token `Number` accepts, `parseInt` gives the same number |
| Numbers.IntToString | src/util/parser.mjs:137-147 | the spelling of a number used as a property name is not empty, starts with `-` exactly for a negative number, and is digits after that sign |
| Cursor.IndexOf | src/util/parser.mjs:15 | a found position is at or after the start and holds the searched unit |
| Cursor.IndexOfIsFirst | src/util/parser.mjs:15 | no earlier position from the start holds the unit, and none at all when it is not found |
| Cursor.TokenAtMeaning | src/util/parser.mjs:22-23 | the token is the text up to the first delimiter and contains none; reading fails if and only if no delimiter follows |
| Cursor.LengthAt | src/util/parser.mjs:14-19 | a length that is read leaves the cursor two past the `:` that ends it; without a `:`, the missing-delimiter error |
| Cursor.IntAt | src/util/parser.mjs:21-26 | an integer that is read leaves the cursor just past the `;` that ends it; without a `;`, the missing-delimiter error |
| Cursor.TagAt | src/util/parser.mjs:94 | `charAt` gives at most one code unit |
| Cursor.WeightAt | src/util/parser.mjs:59-62 | each code unit weighs one to three bytes, a position past the end included |
| Cursor.MeasuredSpanIsShortest | src/util/parser.mjs:58-63 | the measured span reaches the declared byte length and no shorter span does |
| Cursor.MeasuredSpanUnique | src/util/parser.mjs:58-63 | any span that reaches the length when no shorter one does is the measured span |
| Cursor.Goal | src/util/parser.mjs:58 | a count is below the declared length exactly when `byteCount < expectedLength`; with `NaN` it never is |
| Cursor.StringAt | src/util/parser.mjs:53-85 | a string starts right after its length field; the unit after it is the delimiter, and the cursor ends two past the string |
| Cursor.StringAtEnd | src/util/parser.mjs:66-77 | the string ends on the delimiter, at or after the measured span |
| Cursor.StringAtText | src/util/parser.mjs:79-83 | the string is the text from after the length field to that delimiter |
| Cursor.StringAtFirstDelimiter | src/util/parser.mjs:70-76 | no delimiter lies between the measured span and the string's end |
| Cursor.StringAtSpan | src/util/parser.mjs:53-85 | the string always contains the whole measured span; it ends at the first delimiter from there on, and the cursor ends two past that delimiter |
| Cursor.StringAtFails | src/util/parser.mjs:53-85 | reading a string fails if and only if its length field has no `:` or no delimiter follows the measured span |
| PropertyNames.Split | src/util/parser.mjs:164 | splitting gives at least one piece and no piece contains the separator |
| PropertyNames.SplitJoin | src/util/parser.mjs:164 | joining the pieces with the separator gives the name back |
| PropertyNames.FixPropertyName | src/util/parser.mjs:158-178 | a fixed name never starts with NUL, so fixing it again keeps it; an error is the malformed-name error at the position where the key's text began, and only for a NUL-marked name |
| PropertyNames.PublicNameKept | src/util/parser.mjs:159-177 | a number key, or a name not starting with NUL, is kept as it is |
| PropertyNames.TwoMarkers | src/util/parser.mjs:163-174 | `\0C\0p…` gives `p` when `C` is `*` or the object's class, `C::p` for another non-empty `C`, and otherwise fails at the name's start |
| PropertyNames.OneMarker | src/util/parser.mjs:163-174 | `\0C` gives `undefined` when `C` is `*` or the object's class, `C::undefined` for another non-empty `C`, and otherwise fails |
| PropertyNames.MalformedExactly | src/util/parser.mjs:167-174 | the rule fails if and only if the class piece is empty and the object's class name is not |
| Samples.EmptyArray | src/util/parser.mjs:115-156 | `a:0:{}` decodes to the empty list |
| Samples.SingletonList | src/util/parser.mjs:125-132 | `a:1:{i:0;N;}` decodes to the list holding `null` |
| Samples.FailureKeepsPartialArray | src/util/parser.mjs:149-152 | `a:2:{i:0;N;i:1;x` fails on the unknown type `x`, with the list `[null]` of the one pair read as the error's state |
| Samples.QuoteInsideString | src/util/parser.mjs:53-85 | `s:3:"a"b";` decodes to `a"b`: the quote inside the measured span belongs to the string |
| Samples.ThreeByteUnit | src/util/parser.mjs:58-63 | `s:3:"“";` decodes to the single code unit U+201C, which weighs three bytes |

## Left out

- Floating point: `d:` values keep the text that `parseFloat` would read; the double itself is not computed.
- `Number` on a token in the model handles the empty token (0) and an optional sign followed by decimal
  digits. Every other token reads as `NaN`, so the model gives no value for surrounding
  whitespace, a fraction, an exponent, hexadecimal, `Infinity`, or a number beyond 2^53.
  `parseInt` likewise does not skip leading whitespace.
- Integers are unbounded. JavaScript numbers are doubles, so the loss of precision past 2^53
  is not modelled.
- `indexOf` returning -1: the model stops with the model-only error `MissingDelimiter`, where the
  source goes on from position -1. In `readInt` that sets the cursor to 0 (line 24). Truncated input
  such as `a:1:{i:0` then reads its key as `Number("") = 0` and decodes from the start again, so
  the source recurses without end until the stack overflows. Other readers compute slices from -1.
- Error messages are kept as data: tag, position and name, not the formatted text.
- The cursor and the table after an error are not specified by the parser's contracts, only the error and its state.
- Aliasing: JavaScript's table holds the live array or object. The model stores a value in the
  container's slot and replaces it after every element, so a back-reference to a container
  still being read sees its contents so far, not its later ones. Cyclic structures cannot be
  built as values.
- JavaScript objects are insertion-ordered property lists. Objects enumerate integer-like keys
  first and treat `__proto__` specially; neither is modelled.
- The custom record `{__PHP_Incomplete_Class_Name, serialized}` is the datatype case `VCustom`.
- `charCodeAt` weighs each UTF-16 code unit separately. A surrogate pair therefore weighs 3+3
  bytes, as the formula gives; it is not treated as one code point.
- `Parser.Unserialise` takes the input as a sequence of UTF-16 code units, not a Dafny `string`.
- Structure: the source has these inline; the model makes each its own method:
  - the loops of `parseAsArray` and `parseAsObject` (`ParseArrayElements`, `ParseObjectMembers`);
  - their loop bodies (`ParsePair`, `ParseMember`);
  - the byte-counting loop of `readString` (`CountUnits`);
  - the shared `indexOf`-and-slice step (`ReadToken`).
