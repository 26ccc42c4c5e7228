/** The pure helpers of the form module: the emptiness test used on field
    values and the step helpers that move through an array with wrap-around. */
module Helper {
  import opened Wrappers
  import opened JsValues

  /** ECMAScript WhiteSpace and LineTerminator code points, the set
      `String.prototype.trim` strips: tab, vertical tab, form feed, space,
      no-break space, byte order mark, the other Unicode space separators,
      line feed, carriage return, line and paragraph separators. */
  predicate IsWhitespace(c: char)
  {
    || c == '\t' || c == '\U{000B}' || c == '\U{000C}' || c == ' '
    || c == '\U{00A0}' || c == '\U{FEFF}' || c == '\U{1680}'
    || ('\U{2000}' <= c <= '\U{200A}') || c == '\U{202F}' || c == '\U{205F}' || c == '\U{3000}'
    || c == '\n' || c == '\r' || c == '\U{2028}' || c == '\U{2029}'
  }

  predicate AllWhitespace(s: string)
  {
    forall i :: 0 <= i < |s| ==> IsWhitespace(s[i])
  }

  /** `s` with its leading whitespace removed: a suffix of `s` that starts
      with a non-whitespace character, everything before it whitespace. */
  function TrimStart(s: string): (r: string)
    ensures |r| <= |s| && r == s[|s| - |r|..]
    ensures AllWhitespace(s[..|s| - |r|])
    ensures r == [] || !IsWhitespace(r[0])
  {
    if |s| > 0 && IsWhitespace(s[0]) then
      var r := TrimStart(s[1..]);
      assert s[..|s| - |r|] == [s[0]] + s[1..][..|s| - 1 - |r|];
      r
    else s
  }

  /** `s` with its trailing whitespace removed: a prefix of `s` that ends
      with a non-whitespace character, everything after it whitespace. */
  function TrimEnd(s: string): (r: string)
    ensures |r| <= |s| && r == s[..|r|]
    ensures AllWhitespace(s[|r|..])
    ensures r == [] || !IsWhitespace(r[|r| - 1])
  {
    if |s| > 0 && IsWhitespace(s[|s| - 1]) then
      var r := TrimEnd(s[..|s| - 1]);
      assert s[|r|..] == s[..|s| - 1][|r|..] + [s[|s| - 1]];
      r
    else s
  }

  /** `s.trim()`. */
  function Trim(s: string): string
  {
    TrimEnd(TrimStart(s))
  }

  /** A string trims to the empty string exactly when all of it is whitespace. */
  lemma TrimEmptyIff(s: string)
    ensures Trim(s) == [] <==> AllWhitespace(s)
  {
  }

  /** `isEmpty(obj)`: a string is empty when it is only whitespace; every
      other value is empty when it is `undefined`, `null` or has no own keys,
      which makes every number and boolean empty. */
  function IsEmpty(v: JsValue): (r: bool)
    ensures v.Undefined? || v.Null? ==> r
    ensures v.Bool? || v.Num? ==> r
    ensures v.Str? ==> (r <==> AllWhitespace(v.s))
    ensures v.Arr? ==> (r <==> |v.elems| == 0)
    ensures v.Obj? ==> (r <==> v.fields == map[])
  {
    match TypeOf(v)
    case "string" =>
      TrimEmptyIff(v.s);
      Trim(v.s) == ""
    case _ =>
      v.Undefined? || v.Null? || OwnKeyCount(v).value == 0
  }

  const NotAnArray := "First args should be an array"

  /** `nextItem(arr, current)`: the element after position `current`, wrapping
      from the last element to the first. The index is `(current + 1) % length`
      with JavaScript's `%`, so an empty array gives NaN and reads `undefined`,
      and a negative `current + 1` reads `undefined` unless it is a multiple
      of the length (then `-0`, which reads the first element). */
  function NextItem(arr: JsValue, current: int): (r: Result<JsValue>)
    ensures !arr.Arr? ==> r == Failure(NotAnArray)
    ensures arr.Arr? && |arr.elems| == 0 ==> r == Success(Undefined)
    ensures arr.Arr? && |arr.elems| > 0 && current + 1 >= 0 ==>
              r == Success(arr.elems[(current + 1) % |arr.elems|])
    ensures arr.Arr? && |arr.elems| > 0 && current + 1 < 0 ==>
              r == Success(if (current + 1) % |arr.elems| == 0 then arr.elems[0] else Undefined)
  {
    if !arr.Arr? then Failure(NotAnArray)
    else
      var i := JsRemainder(current + 1, |arr.elems|);
      NegatedDivisibility(-(current + 1), |arr.elems|);
      Success(ElementAt(arr.elems, i))
  }

  /** `previousItem(arr, current)`: `undefined` at position 0, otherwise the
      element at `current - 1`, which is `undefined` when out of range. */
  function PreviousItem(arr: JsValue, current: int): (r: Result<JsValue>)
    ensures !arr.Arr? ==> r == Failure(NotAnArray)
    ensures arr.Arr? && current == 0 ==> r == Success(Undefined)
    ensures arr.Arr? && 1 <= current <= |arr.elems| ==> r == Success(arr.elems[current - 1])
    ensures arr.Arr? && (current < 0 || current > |arr.elems|) ==> r == Success(Undefined)
  {
    if !arr.Arr? then Failure(NotAnArray)
    else if current == 0 then Success(Undefined)
    else Success(ElementAt(arr.elems, Some(current - 1)))
  }

  /** Inside an array, stepping forward from `c` and stepping back from
      `c + 2` land on the same neighbour, and the last element wraps to the
      first. */
  lemma StepNeighbours(arr: JsValue, c: int)
    requires arr.Arr? && 0 <= c && c + 1 < |arr.elems|
    ensures NextItem(arr, c) == Success(arr.elems[c + 1])
    ensures PreviousItem(arr, c + 1) == Success(arr.elems[c])
    ensures NextItem(arr, c) == PreviousItem(arr, c + 2)
    ensures NextItem(arr, |arr.elems| - 1) == Success(arr.elems[0])
  {
    var n := |arr.elems|;
    assert (c + 1) % n == c + 1;
    assert (c + 2) - 1 == c + 1;
    assert n % n == 0;
  }
}
