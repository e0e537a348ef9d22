/** The value tree an OWML document parses into, and the result type every
    production returns: the remaining input and a value, or an error kind
    with the input it refers to. */
module OwmlTypes {

  /** Bounds of a Rust `i32`. */
  const I32_MIN: int := -0x8000_0000
  const I32_MAX: int := 0x7FFF_FFFF

  newtype i32 = x: int | -0x8000_0000 <= x <= 0x7FFF_FFFF

  /** `OType`: the four variants the parser builds. Strings are the raw
      characters between the quotes. */
  datatype OType =
    | IntType(n: i32)
    | StringType(text: seq<char>)
    | ArrayType(items: seq<OType>)
    | ObjectType(pairs: seq<OKeyPair>)

  /** `OKeyPair`: a name and the data it is bound to. */
  datatype OKeyPair = OKeyPair(name: OType, data: OType)

  /** The top-level discriminant of an `OType` (Rust's `mem::discriminant`). */
  datatype Variant = IntVariant | StringVariant | ArrayVariant | ObjectVariant

  function VariantOf(v: OType): Variant {
    match v
    case IntType(_) => IntVariant
    case StringType(_) => StringVariant
    case ArrayType(_) => ArrayVariant
    case ObjectType(_) => ObjectVariant
  }

  /** A value allowed in name position. */
  predicate IsScalar(v: OType) {
    v.IntType? || v.StringType?
  }

  /** The `nom::error::ErrorKind`s this parser can produce. */
  datatype ErrorKind = Tag | OneOf | IsNot | Digit | NonEmpty | Permutation

  datatype Option<T> = None | Some(value: T)

  /** nom's `IResult<&str, T>` with the `(input, ErrorKind)` error type: on
      success the unconsumed input and the value, on error the kind and the
      input the failing parser reported. It supports `:-` as Rust's `?`. */
  datatype Result<T> = Ok(rest: seq<char>, value: T) | Err(kind: ErrorKind, at: seq<char>) {
    predicate IsFailure() {
      Err?
    }

    function PropagateFailure<U>(): Result<U>
      requires Err?
    {
      Err(kind, at)
    }

    function Extract(): (seq<char>, T)
      requires Ok?
    {
      (rest, value)
    }
  }

  predicate IsDigit(c: char) {
    '0' <= c <= '9'
  }

  predicate AllDigits(t: seq<char>) {
    forall i :: 0 <= i < |t| ==> IsDigit(t[i])
  }

  predicate StartsWith(s: seq<char>, c: char) {
    |s| > 0 && s[0] == c
  }

  predicate StartsWithDigit(s: seq<char>) {
    |s| > 0 && IsDigit(s[0])
  }

  /** r is what is left of s after a prefix of s was consumed. */
  predicate IsSuffix(r: seq<char>, s: seq<char>) {
    |r| <= |s| && s[|s| - |r|..] == r
  }

  /** As IsSuffix, and at least one character was consumed. */
  predicate IsProperSuffix(r: seq<char>, s: seq<char>) {
    |r| < |s| && IsSuffix(r, s)
  }

  lemma SuffixTransitive(a: seq<char>, b: seq<char>, c: seq<char>)
    requires IsSuffix(a, b) && IsSuffix(b, c)
    ensures IsSuffix(a, c)
  {
    assert c[|c| - |a|..] == c[|c| - |b|..][|b| - |a|..];
  }

  lemma SuffixOfTail(s: seq<char>, k: nat, r: seq<char>)
    requires k <= |s| && IsSuffix(r, s[k..])
    ensures IsSuffix(r, s)
  {
    assert s[|s| - |r|..] == s[k..][|s[k..]| - |r|..];
  }

  /** A non-empty sequence is its head followed by its tail. */
  lemma HeadTail<X>(all: seq<X>)
    requires |all| > 0
    ensures [all[0]] + all[1..] == all
  {
  }
}
