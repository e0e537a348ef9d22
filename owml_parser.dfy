/** The OWML grammar of src/parsers/owml_parser.rs: one function per
    production, mutually recursive through
    Value -> Object -> Document -> Keypair -> NameFilter -> Value.
    Every production that succeeds consumes at least one character, except
    StripWhitespace, ArrayItems and MoreItems, which may consume nothing (the
    two loops consume input whenever they return an item), and every value
    returned is well formed (WellFormed below). Termination is by the
    length of the input, with a rank to order the calls made on the same
    input. */
module OwmlParser {
  import opened OwmlTypes
  import Nom

  /** The two quote characters, `"\"'"` in the source. */
  const Quotes: seq<char> := ['"', '\'']

  predicate IsQuote(c: char) {
    c == '"' || c == '\''
  }

  /** The variant a value starting with c can have: the four alternatives of
      the dispatcher start with disjoint characters. */
  function LeadVariant(c: char): Option<Variant> {
    if c == '-' || IsDigit(c) then Some(IntVariant)
    else if IsQuote(c) then Some(StringVariant)
    else if c == '{' then Some(ObjectVariant)
    else if c == '[' then Some(ArrayVariant)
    else None
  }

  /** Every element has the variant of the first one (the loop at
      owml_parser.rs:106-110). */
  predicate Homogeneous(items: seq<OType>) {
    forall i :: 0 <= i < |items| ==> VariantOf(items[i]) == VariantOf(items[0])
  }

  /** The values the grammar can produce: integers in [-I32_MAX, I32_MAX],
      non-empty strings without quotes, non-empty homogeneous arrays and
      non-empty objects whose names are scalars. */
  predicate WellFormed(v: OType)
    decreases v
  {
    match v
    case IntType(n) => -I32_MAX <= n as int
    case StringType(t) => |t| > 0 && forall i :: 0 <= i < |t| ==> !IsQuote(t[i])
    case ArrayType(items) => |items| > 0 && Homogeneous(items) && AllWellFormed(items)
    case ObjectType(pairs) => |pairs| > 0 && AllWellFormedPairs(pairs)
  }

  predicate AllWellFormed(items: seq<OType>)
    decreases items
  {
    forall i :: 0 <= i < |items| ==> WellFormed(items[i])
  }

  predicate AllWellFormedPairs(pairs: seq<OKeyPair>)
    decreases pairs
  {
    forall i :: 0 <= i < |pairs| ==> WellFormedPair(pairs[i])
  }

  predicate WellFormedPair(p: OKeyPair)
    decreases p
  {
    IsScalar(p.name) && WellFormed(p.name) && WellFormed(p.data)
  }

  lemma AllWellFormedCons(item: OType, items: seq<OType>)
    requires WellFormed(item) && AllWellFormed(items)
    ensures AllWellFormed([item] + items)
  {
    var all := [item] + items;
    forall i | 0 <= i < |all| ensures WellFormed(all[i]) {
      if i > 0 { assert all[i] == items[i - 1]; }
    }
  }

  lemma AllWellFormedPairsCons(pair: OKeyPair, pairs: seq<OKeyPair>)
    requires WellFormedPair(pair) && AllWellFormedPairs(pairs)
    ensures AllWellFormedPairs([pair] + pairs)
  {
    var all := [pair] + pairs;
    forall i | 0 <= i < |all| ensures WellFormedPair(all[i]) {
      if i > 0 { assert all[i] == pairs[i - 1]; }
    }
  }

  /** `get_vec_parser`: `many1(build_get_vec_parser)`. The first item's error
      is returned unchanged; once one item is parsed the document ends at the
      first item that fails. */
  function Document(s: seq<char>): (r: Result<seq<OKeyPair>>)
    ensures r.Ok? ==> IsProperSuffix(r.rest, s) && |r.value| > 0
    ensures r.Ok? ==> AllWellFormedPairs(r.value)
    decreases |s|, 6
  {
    var (input, first) :- DocumentItem(s);
    var more := MoreItems(input);
    SuffixTransitive(more.rest, input, s);
    AllWellFormedPairsCons(first, more.value);
    Ok(more.rest, [first] + more.value)
  }

  /** The loop of `many1` after its first item: it collects items until one
      fails and never fails itself. */
  function MoreItems(s: seq<char>): (r: Result<seq<OKeyPair>>)
    ensures r.Ok? && IsSuffix(r.rest, s)
    ensures |r.value| > 0 ==> IsProperSuffix(r.rest, s)
    ensures AllWellFormedPairs(r.value)
    decreases |s|, 6
  {
    match DocumentItem(s)
    case Err(_, _) => Ok(s, [])
    case Ok(input, item) =>
      var more := MoreItems(input);
      SuffixTransitive(more.rest, input, s);
      AllWellFormedPairsCons(item, more.value);
      Ok(more.rest, [item] + more.value)
  }

  /** `build_get_vec_parser`: a keypair, then whitespace. */
  function DocumentItem(s: seq<char>): (r: Result<OKeyPair>)
    ensures r.Ok? ==> IsProperSuffix(r.rest, s) && WellFormedPair(r.value)
    decreases |s|, 5
  {
    var (input, found) :- Keypair(s);
    var input' := StripWhitespace(input).rest;
    SuffixTransitive(input', input, s);
    Ok(input', found)
  }

  /** `strip_whitespace`: spaces, at most one newline, spaces. It never fails;
      what it consumes is whitespace holding at most one newline, and it
      consumes as much as that shape allows. */
  function StripWhitespace(s: seq<char>): (r: Result<()>)
    ensures r.Ok? && IsSuffix(r.rest, s)
    ensures forall i :: 0 <= i < |s| - |r.rest| ==> s[i] == ' ' || s[i] == '\n'
    ensures multiset(s[..|s| - |r.rest|])['\n'] <= 1
    ensures !StartsWith(r.rest, ' ')
    ensures StartsWith(r.rest, '\n') ==> multiset(s[..|s| - |r.rest|])['\n'] == 1
  {
    // Neither `many0` nor `opt` can fail here, so `?` never propagates.
    var input1 := Nom.Many0Space(s).rest;
    Nom.TagChar('\n', input1);
    var input2 := Nom.Opt(Nom.Tag("\n", input1), input1).rest;
    var input3 := Nom.Many0Space(input2).rest;
    WhitespaceShape(s, input1, input2, input3);
    Ok(input3, ())
  }

  /** The text strip_whitespace consumes: spaces up to input1, an optional
      newline up to input2, spaces up to input3. */
  lemma WhitespaceShape(s: seq<char>, input1: seq<char>, input2: seq<char>, input3: seq<char>)
    requires IsSuffix(input1, s) && (forall i :: 0 <= i < |s| - |input1| ==> s[i] == ' ')
    requires !StartsWith(input1, ' ')
    requires input2 == if StartsWith(input1, '\n') then input1[1..] else input1
    requires IsSuffix(input3, input2) && (forall i :: 0 <= i < |input2| - |input3| ==> input2[i] == ' ')
    requires !StartsWith(input3, ' ')
    ensures IsSuffix(input3, s)
    ensures forall i :: 0 <= i < |s| - |input3| ==> s[i] == ' ' || s[i] == '\n'
    ensures multiset(s[..|s| - |input3|])['\n'] <= 1
    ensures StartsWith(input3, '\n') ==> multiset(s[..|s| - |input3|])['\n'] == 1
  {
    var a := |s| - |input1|;
    assert forall i :: 0 <= i < a ==> s[..a][i] == ' ';
    SpacesHaveNoNewline(s[..a]);
    if StartsWith(input1, '\n') {
      NewlineShape(s, input1, input2, input3);
    } else {
      assert |input2| > |input3| ==> StartsWith(input2, ' ');
      assert input3 == input1;
    }
  }

  /** WhitespaceShape when a newline follows the first spaces. */
  lemma NewlineShape(s: seq<char>, input1: seq<char>, input2: seq<char>, input3: seq<char>)
    requires IsSuffix(input1, s) && (forall i :: 0 <= i < |s| - |input1| ==> s[i] == ' ')
    requires multiset(s[..|s| - |input1|])['\n'] == 0
    requires StartsWith(input1, '\n') && input2 == input1[1..]
    requires IsSuffix(input3, input2) && (forall i :: 0 <= i < |input2| - |input3| ==> input2[i] == ' ')
    ensures IsSuffix(input3, s)
    ensures forall i :: 0 <= i < |s| - |input3| ==> s[i] == ' ' || s[i] == '\n'
    ensures multiset(s[..|s| - |input3|])['\n'] == 1
  {
    var a, c := |s| - |input1|, |input2| - |input3|;
    SuffixOfTail(input1, 1, input3);
    SuffixTransitive(input3, input1, s);
    SpacesHaveNoNewline(input2[..c]);
    assert s[..|s| - |input3|] == s[..a] + "\n" + input2[..c] by {
      assert s[a..] == input1;
    }
  }

  /** A run of spaces holds no newline. */
  lemma SpacesHaveNoNewline(t: seq<char>)
    requires forall i :: 0 <= i < |t| ==> t[i] == ' '
    ensures multiset(t)['\n'] == 0
  {
    assert '\n' !in t;
  }

  /** `keypair_parser`: name, the literal `": "`, data, the literal `;`. */
  function Keypair(s: seq<char>): (r: Result<OKeyPair>)
    ensures r.Ok? ==> IsProperSuffix(r.rest, s) && WellFormedPair(r.value)
    decreases |s|, 4
  {
    var (input1, name) :- NameFilter(s);
    var (input2, _) :- Nom.Tag(": ", input1);
    var (input3, data) :- Value(input2);
    var (input4, _) :- Nom.Tag(";", input3);
    SuffixOfTail(input1, 2, input3);
    SuffixTransitive(input3, input1, s);
    SuffixOfTail(input3, 1, input4);
    Ok(input4, OKeyPair(name, data))
  }

  /** `keypair_name_disallow_parser`: a value, rejected with `Permutation`
      (at the input after it) when it is an object or an array. */
  function NameFilter(s: seq<char>): (r: Result<OType>)
    ensures r.Ok? ==> IsProperSuffix(r.rest, s) && IsScalar(r.value) && WellFormed(r.value)
    decreases |s|, 3
  {
    var (input, name) :- Value(s);
    match name
    case ObjectType(_) => Err(Permutation, input)
    case ArrayType(_) => Err(Permutation, input)
    case _ => Ok(input, name)
  }

  /** `key_parser`: `alt` over int, string, object and array, in that order.
      When all fail, nom reports the last alternative's error. The result's
      variant is the one its first character announces. */
  function Value(s: seq<char>): (r: Result<OType>)
    ensures r.Ok? ==> IsProperSuffix(r.rest, s) && WellFormed(r.value)
    ensures r.Ok? ==> LeadVariant(s[0]) == Some(VariantOf(r.value))
    decreases |s|, 1
  {
    var integer := IntLexer(s);
    if integer.Ok? then
      assert LeadVariant(s[0]) == Some(IntVariant) && WellFormed(integer.value);
      integer
    else
      var str := StringLexer(s);
      if str.Ok? then
        assert LeadVariant(s[0]) == Some(StringVariant) && WellFormed(str.value);
        str
      else
        var obj := Object(s);
        if obj.Ok? then
          BracketLeads();
          obj
        else
          var arr := Array(s);
          BracketLeads();
          arr
  }

  lemma BracketLeads()
    ensures LeadVariant('{') == Some(ObjectVariant) && LeadVariant('[') == Some(ArrayVariant)
  {
  }

  /** `key_array_parser`: `[`, the elements, `]`. */
  function Array(s: seq<char>): (r: Result<OType>)
    ensures r.Ok? ==> IsProperSuffix(r.rest, s) && StartsWith(s, '[')
    ensures r.Ok? ==> r.value.ArrayType? && WellFormed(r.value)
    decreases |s|, 0
  {
    var (input1, _) :- Nom.Tag("[", s);
    var (input2, found) :- ArrayBody(input1);
    var (input3, _) :- Nom.Tag("]", input2);
    SuffixOfTail(s, 1, input2);
    SuffixOfTail(input2, 1, input3);
    SuffixTransitive(input3, input2, s);
    Ok(input3, found)
  }

  /** `build_key_array_parser`: the elements, then `NonEmpty` if there are
      none and `OneOf` if their variants differ, both at the input after the
      elements. */
  function ArrayBody(s: seq<char>): (r: Result<OType>)
    ensures r.Ok? ==> IsProperSuffix(r.rest, s) && r.value.ArrayType? && WellFormed(r.value)
    decreases |s|, 4
  {
    var items := ArrayItems(s);
    var (input, found) := (items.rest, items.value);
    if |found| == 0 then Err(NonEmpty, input)
    else if !Homogeneous(found) then Err(ErrorKind.OneOf, input)
    else Ok(input, ArrayType(found))
  }

  /** `many0(key_array_parser_cycle)`: elements until one fails; it never
      fails itself. */
  function ArrayItems(s: seq<char>): (r: Result<seq<OType>>)
    ensures r.Ok? && IsSuffix(r.rest, s)
    ensures |r.value| > 0 ==> IsProperSuffix(r.rest, s)
    ensures AllWellFormed(r.value)
    decreases |s|, 3
  {
    match ArrayCycle(s)
    case Err(_, _) => Ok(s, [])
    case Ok(input, item) =>
      var more := ArrayItems(input);
      SuffixTransitive(more.rest, input, s);
      AllWellFormedCons(item, more.value);
      Ok(more.rest, [item] + more.value)
  }

  /** `key_array_parser_cycle`: whitespace, a value, `;`, whitespace. */
  function ArrayCycle(s: seq<char>): (r: Result<OType>)
    ensures r.Ok? ==> IsProperSuffix(r.rest, s) && WellFormed(r.value)
    decreases |s|, 2
  {
    var input1 := StripWhitespace(s).rest;
    var (input2, found) :- Value(input1);
    var (input3, _) :- Nom.Tag(";", input2);
    var input4 := StripWhitespace(input3).rest;
    SuffixTransitive(input2, input1, s);
    SuffixOfTail(input2, 1, input3);
    SuffixTransitive(input3, input2, s);
    SuffixTransitive(input4, input3, s);
    Ok(input4, found)
  }

  /** `key_object_parser`: `{`, whitespace, a document, whitespace, `}`. */
  function Object(s: seq<char>): (r: Result<OType>)
    ensures r.Ok? ==> IsProperSuffix(r.rest, s) && StartsWith(s, '{')
    ensures r.Ok? ==> r.value.ObjectType? && WellFormed(r.value)
    decreases |s|, 0
  {
    var (input1, _) :- Nom.Tag("{", s);
    var input2 := StripWhitespace(input1).rest;
    var (input3, found) :- Document(input2);
    var input4 := StripWhitespace(input3).rest;
    var (input5, _) :- Nom.Tag("}", input4);
    SuffixOfTail(s, 1, input2);
    SuffixTransitive(input3, input2, s);
    SuffixTransitive(input4, input3, s);
    SuffixOfTail(input4, 1, input5);
    SuffixTransitive(input5, input4, s);
    Ok(input5, ObjectType(found))
  }

  /** Decimal value of a run of ASCII digits, most significant first. */
  function DecimalValue(digits: seq<char>): nat
    requires AllDigits(digits)
  {
    if |digits| == 0 then 0
    else 10 * DecimalValue(digits[..|digits| - 1]) + (digits[|digits| - 1] as int - '0' as int)
  }

  /** `str::parse::<i32>`: an optional `+` or `-`, then one or more ASCII
      digits whose signed value fits in an `i32`; `None` for anything else. */
  function ParseI32(t: seq<char>): (r: Option<i32>)
    ensures |t| > 0 && AllDigits(t) ==>
              (r.Some? <==> DecimalValue(t) <= I32_MAX) && (r.Some? ==> r.value as int == DecimalValue(t))
  {
    var negative := |t| > 0 && t[0] == '-';
    var digits := if |t| > 0 && (t[0] == '+' || t[0] == '-') then t[1..] else t;
    if |digits| == 0 || !AllDigits(digits) then None
    else if negative then
      if DecimalValue(digits) <= -I32_MIN then Some((-(DecimalValue(digits) as int)) as i32) else None
    else
      if DecimalValue(digits) <= I32_MAX then Some(DecimalValue(digits) as i32) else None
  }

  /** `build_key_int_parser`: the digit run as an `i32`, negated when the
      caller saw a `-`; a run above I32_MAX fails with `Digit`, reported at
      the run. Its one caller passes the output of `digit1`. */
  function BuildInt(digits: seq<char>, isNeg: bool): (r: Result<OType>)
    requires AllDigits(digits)
    ensures r.Ok? <==> |digits| > 0 && DecimalValue(digits) <= I32_MAX
    ensures r.Ok? ==> r.value.IntType? && r.value.n as int == (if isNeg then -(DecimalValue(digits) as int) else DecimalValue(digits))
    ensures r.Err? ==> r.kind == Digit && r.at == digits
  {
    match ParseI32(digits)
    case None => Err(Digit, digits)
    case Some(n) => Ok(digits, IntType(if isNeg then -n else n))
  }

  /** `key_int_parser`: an optional `-` and a digit run. */
  function IntLexer(s: seq<char>): (r: Result<OType>)
    ensures r.Ok? ==> IsProperSuffix(r.rest, s) && (s[0] == '-' || IsDigit(s[0]))
    ensures r.Ok? ==> r.value.IntType? && -I32_MAX <= r.value.n as int <= I32_MAX
    ensures r.Ok? ==> !StartsWithDigit(r.rest)
  {
    var sign := Nom.Opt(Nom.Tag("-", s), s);
    var (input1, foundNeg) := (sign.rest, sign.value);
    var (input2, foundDigits) :- Nom.Digit1(input1);
    var (_, found) :- BuildInt(foundDigits, foundNeg.Some?);
    assert IsSuffix(input1, s);
    SuffixOfTail(input1, |foundDigits|, input2);
    SuffixTransitive(input2, input1, s);
    Ok(input2, found)
  }

  /** `key_string_parser`: `delimited(one_of("\"'"), is_not("\"'"),
      one_of("\"'"))`. The quotes need not be the same character. */
  function StringLexer(s: seq<char>): (r: Result<OType>)
    ensures r.Ok? ==> r.value.StringType? && |s| > 0 && IsQuote(s[0])
    ensures r.Ok? ==>
              var t := r.value.text;
              && |t| > 0 && |s| == |t| + 2 + |r.rest|
              && s[1..1 + |t|] == t && IsQuote(s[1 + |t|]) && s[2 + |t|..] == r.rest
              && forall i :: 0 <= i < |t| ==> !IsQuote(t[i])
  {
    var (input1, _) :- Nom.OneOf(Quotes, s);
    var (input2, found) :- Nom.IsNot(Quotes, input1);
    var (input3, _) :- Nom.OneOf(Quotes, input2);
    assert s[1..] == input1 && input1[..|found|] == found;
    Ok(input3, StringType(found))
  }
}
