/** The nom combinators of the OWML grammar that work on characters (nom 5,
    `complete` input), each as a function from the input to a `Result`.
    `opt` takes the result its inner parser gives on the same input, and
    `many0` is written for its one character-level argument, `tag(" ")`.
    The combinators whose arguments are the grammar's own productions
    (`alt`, `many1`, `many0` over the array cycle, `delimited`) are written
    inline in the productions of OwmlParser. */
module Nom {
  import opened OwmlTypes

  /** `tag(t)`: the literal t at the start of the input. */
  function Tag(t: seq<char>, s: seq<char>): (r: Result<seq<char>>)
    ensures r.Ok? <==> |t| <= |s| && s[..|t|] == t
    ensures r.Ok? ==> r.value == t && s == t + r.rest
    ensures r.Err? ==> r.kind == ErrorKind.Tag && r.at == s
  {
    if t <= s then Ok(s[|t|..], t) else Err(ErrorKind.Tag, s)
  }

  /** A one-character tag. */
  lemma TagChar(c: char, s: seq<char>)
    ensures Tag([c], s) == if StartsWith(s, c) then Ok(s[1..], [c]) else Err(ErrorKind.Tag, s)
  {
  }

  /** `opt(p)` applied to s, given p's result on s: an error becomes success
      with `None`, consuming nothing. */
  function Opt<T>(p: Result<T>, s: seq<char>): (r: Result<Option<T>>)
    ensures r.Ok?
    ensures r.value.Some? <==> p.Ok?
    ensures r.rest == (if p.Ok? then p.rest else s)
    ensures p.Ok? ==> r.value.value == p.value
  {
    match p
    case Ok(rest, v) => Ok(rest, Some(v))
    case Err(_, _) => Ok(s, None)
  }

  /** `one_of(chars)`: one character from chars. */
  function OneOf(chars: seq<char>, s: seq<char>): (r: Result<char>)
    ensures r.Ok? <==> |s| > 0 && s[0] in chars
    ensures r.Ok? ==> s == [r.value] + r.rest
    ensures r.Err? ==> r.kind == ErrorKind.OneOf && r.at == s
  {
    if |s| > 0 && s[0] in chars then Ok(s[1..], s[0]) else Err(ErrorKind.OneOf, s)
  }

  /** Length of the longest prefix of s holding no character of chars. */
  function SpanNot(chars: seq<char>, s: seq<char>): (n: nat)
    ensures n <= |s|
    ensures forall i :: 0 <= i < n ==> s[i] !in chars
    ensures n < |s| ==> s[n] in chars
  {
    if |s| == 0 || s[0] in chars then 0 else 1 + SpanNot(chars, s[1..])
  }

  /** `is_not(chars)`: the longest non-empty prefix holding no character of chars
      (all of s when none occurs). */
  function IsNot(chars: seq<char>, s: seq<char>): (r: Result<seq<char>>)
    ensures r.Ok? <==> |s| > 0 && s[0] !in chars
    ensures r.Ok? ==> |r.value| > 0 && s == r.value + r.rest
    ensures r.Ok? ==> forall i :: 0 <= i < |r.value| ==> r.value[i] !in chars
    ensures r.Ok? ==> r.rest == [] || r.rest[0] in chars
    ensures r.Err? ==> r.kind == ErrorKind.IsNot && r.at == s
  {
    var n := SpanNot(chars, s);
    if n == 0 then Err(ErrorKind.IsNot, s) else Ok(s[n..], s[..n])
  }

  /** Length of the longest prefix of s made of ASCII digits. */
  function DigitSpan(s: seq<char>): (n: nat)
    ensures n <= |s|
    ensures AllDigits(s[..n])
    ensures n < |s| ==> !IsDigit(s[n])
  {
    if |s| == 0 || !IsDigit(s[0]) then 0
    else
      var n := 1 + DigitSpan(s[1..]);
      assert s[..n] == [s[0]] + s[1..][..n - 1];
      n
  }

  /** `digit1`: the longest non-empty run of ASCII digits. */
  function Digit1(s: seq<char>): (r: Result<seq<char>>)
    ensures r.Ok? <==> StartsWithDigit(s)
    ensures r.Ok? ==> |r.value| > 0 && AllDigits(r.value) && s == r.value + r.rest
    ensures r.Ok? ==> !StartsWithDigit(r.rest)
    ensures r.Err? ==> r.kind == ErrorKind.Digit && r.at == s
  {
    var n := DigitSpan(s);
    if n == 0 then Err(ErrorKind.Digit, s) else Ok(s[n..], s[..n])
  }

  /** `many0(tag(" "))`: every leading space, one output per space; it never
      fails, and the remainder does not start with a space. */
  function Many0Space(s: seq<char>): (r: Result<seq<seq<char>>>)
    ensures r.Ok? && IsSuffix(r.rest, s)
    ensures |r.value| == |s| - |r.rest|
    ensures forall i :: 0 <= i < |s| - |r.rest| ==> s[i] == ' '
    ensures !StartsWith(r.rest, ' ')
    decreases |s|
  {
    TagChar(' ', s);
    match Tag(" ", s)
    case Err(_, _) => Ok(s, [])
    case Ok(input, space) =>
      var m := Many0Space(input);
      SpaceStep(s, input, m.rest);
      Ok(m.rest, [space] + m.value)
  }

  /** One more leading space in front of a run of spaces. */
  lemma SpaceStep(s: seq<char>, input: seq<char>, rest: seq<char>)
    requires |s| > 0 && s[0] == ' ' && input == s[1..]
    requires IsSuffix(rest, input) && forall i :: 0 <= i < |input| - |rest| ==> input[i] == ' '
    ensures IsSuffix(rest, s) && forall i :: 0 <= i < |s| - |rest| ==> s[i] == ' '
  {
    assert s[|s| - |rest|..] == input[|input| - |rest|..];
    forall i | 0 <= i < |s| - |rest| ensures s[i] == ' ' {
      if i > 0 {
        assert s[i] == input[i - 1];
      }
    }
  }
}
