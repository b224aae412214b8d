/** The rule that turns the mangled name of a non-public member into a property key: a name
    `\0*\0p` (protected) or `\0C\0p` (private to class C). */
module PropertyNames {
  import opened Units
  import opened Values

  /** `s.split(sep)`: the pieces between the occurrences of `sep`. */
  function Split(s: Text, sep: CodeUnit): (parts: seq<Text>)
    ensures |parts| >= 1
    ensures forall i :: 0 <= i < |parts| ==> sep !in parts[i]
    decreases |s|
  {
    if |s| == 0 then [[]]
    else
      var rest := Split(s[1..], sep);
      if s[0] == sep then [[]] + rest else [[s[0]] + rest[0]] + rest[1..]
  }

  /** `parts.join(sep)`. */
  function Join(parts: seq<Text>, sep: CodeUnit): Text
    requires |parts| >= 1
  {
    if |parts| == 1 then parts[0] else parts[0] + [sep] + Join(parts[1..], sep)
  }

  /** Splitting loses nothing: joining the pieces restores the text. */
  lemma {:induction false} SplitJoin(s: Text, sep: CodeUnit)
    ensures Join(Split(s, sep), sep) == s
    decreases |s|
  {
    if |s| > 0 {
      var rest := Split(s[1..], sep);
      SplitJoin(s[1..], sep);
      if s[0] != sep {
        if |rest| == 1 {
          assert Split(s, sep) == [[s[0]] + rest[0]];
        } else {
          assert Split(s, sep)[1..] == rest[1..];
        }
      }
    }
  }

  /** A piece without `sep`, followed by `sep` or by nothing, is the first piece. */
  lemma {:induction false} SplitFirstPiece(c: Text, rest: Text, sep: CodeUnit)
    requires sep !in c
    ensures rest == [] ==> Split(c + rest, sep) == [c]
    ensures |rest| > 0 && rest[0] == sep ==> Split(c + rest, sep) == [c] + Split(rest[1..], sep)
    decreases |c|
  {
    if |c| == 0 {
      assert c + rest == rest;
    } else {
      SplitFirstPiece(c[1..], rest, sep);
      assert (c + rest)[1..] == c[1..] + rest;
      assert (c + rest)[0] == c[0] && c[0] != sep;
      assert [c[0]] + c[1..] == c;
    }
  }

  const PROTECTED_MARK: Text := [STAR]
  const CLASS_SEPARATOR: Text := [COLON, COLON]

  predicate IsMangled(key: Key) {
    key.KStr? && |key.s| > 0 && key.s[0] == NUL
  }

  /** `fixPropertyName`: a string key that starts with NUL is split at every NUL; the piece after
      the first NUL names a class and the next piece (absent when there is no second NUL) the
      member. A protected member or one of the object's own class keeps its bare name; a member
      of another class becomes `C::p`; an empty class piece is an error, reported at the
      position where the key's text began. Every other key passes through. */
  function FixPropertyName(key: Key, baseClassName: Text, pos: int): (r: Result<Key, Error>)
    ensures r.Ok? ==> !IsMangled(r.value)
    ensures r.Err? ==> IsMangled(key) && r.error == MalformedPropertyName(key.s, pos - |key.s| - 2)
  {
    if IsMangled(key) then
      var segments := Split(key.s, NUL)[1..];
      var className := segments[0];
      var propertyName := if |segments| > 1 then KStr(segments[1]) else KUndefined;
      if className == PROTECTED_MARK || baseClassName == className then Ok(propertyName)
      else if |className| > 0 then Ok(KStr(className + CLASS_SEPARATOR + PropertyKey(propertyName)))
      else Err(MalformedPropertyName(key.s, pos - |key.s| - 2))
    else Ok(key)
  }

  /** A public name, or a key that is not a string, is kept as it is. */
  lemma {:induction false} PublicNameKept(key: Key, baseClassName: Text, pos: int)
    requires !IsMangled(key)
    ensures FixPropertyName(key, baseClassName, pos) == Ok(key)
  {
  }

  /** A name with two markers, `\0C\0p`, possibly followed by further NUL-separated pieces,
      which are dropped. */
  lemma {:induction false} TwoMarkers(c: Text, p: Text, rest: Text, baseClassName: Text, pos: int)
    requires NUL !in c && NUL !in p
    requires rest == [] || rest[0] == NUL
    ensures var name := [NUL] + c + [NUL] + p + rest;
      FixPropertyName(KStr(name), baseClassName, pos) ==
        if c == PROTECTED_MARK || c == baseClassName then Ok(KStr(p))
        else if c != [] then Ok(KStr(c + CLASS_SEPARATOR + p))
        else Err(MalformedPropertyName(name, pos - |name| - 2))
  {
    var name := [NUL] + c + [NUL] + p + rest;
    var tail := c + ([NUL] + p + rest);
    assert name[1..] == tail && name[0] == NUL;
    assert Split(name, NUL) == [[]] + Split(tail, NUL);
    SplitFirstPiece(c, [NUL] + p + rest, NUL);
    assert ([NUL] + p + rest)[1..] == p + rest;
    SplitFirstPiece(p, rest, NUL);
    var segments := Split(name, NUL)[1..];
    assert segments == [c] + Split(p + rest, NUL);
    assert segments[0] == c && |segments| > 1 && segments[1] == p;
  }

  /** A name with a single marker, `\0C`: the member name is JavaScript's `undefined`. */
  lemma {:induction false} OneMarker(c: Text, baseClassName: Text, pos: int)
    requires NUL !in c
    ensures var name := [NUL] + c;
      FixPropertyName(KStr(name), baseClassName, pos) ==
        if c == PROTECTED_MARK || c == baseClassName then Ok(KUndefined)
        else if c != [] then Ok(KStr(c + CLASS_SEPARATOR + Lit("undefined")))
        else Err(MalformedPropertyName(name, pos - |name| - 2))
  {
    var name := [NUL] + c;
    assert name[1..] == c + [];
    SplitFirstPiece(c, [], NUL);
  }

  /** The rule fails exactly when the class piece is empty (the name is `\0` or starts with
      `\0\0`) and the object's own class name is not empty as well. */
  lemma {:induction false} MalformedExactly(key: Key, baseClassName: Text, pos: int)
    ensures FixPropertyName(key, baseClassName, pos).Err? <==>
      IsMangled(key) && (|key.s| == 1 || key.s[1] == NUL) && baseClassName != []
  {
    if IsMangled(key) {
      var t := key.s[1..];
      assert Split(key.s, NUL) == [[]] + Split(t, NUL);
      if |t| > 0 && t[0] != NUL {
        assert Split(t, NUL)[0] == [t[0]] + Split(t[1..], NUL)[0];
      }
    }
  }
}
