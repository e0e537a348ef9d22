/** What each production of the OWML grammar accepts and rejects. */
module OwmlProperties {
  import opened OwmlTypes
  import Nom
  import opened OwmlParser

  // ---------------------------------------------------------------------------
  // Integer lexer

  function DigitChar(d: nat): (c: char)
    requires d < 10
    ensures IsDigit(c) && c as int - '0' as int == d
  {
    ('0' as int + d) as char
  }

  /** The decimal digits of n, most significant first, without leading zeros. */
  function DecimalText(n: nat): (t: seq<char>)
    ensures |t| > 0 && AllDigits(t) && DecimalValue(t) == n
  {
    if n < 10 then [DigitChar(n)]
    else
      var t := DecimalText(n / 10) + [DigitChar(n % 10)];
      assert t[..|t| - 1] == DecimalText(n / 10);
      t
  }

  /** The text of an integer: an optional minus sign, then digits. */
  function IntText(negative: bool, digits: seq<char>): seq<char> {
    (if negative then "-" else "") + digits
  }

  lemma {:induction false} DigitSpanOf(digits: seq<char>, rest: seq<char>)
    requires AllDigits(digits) && !StartsWithDigit(rest)
    ensures Nom.DigitSpan(digits + rest) == |digits|
    decreases |digits|
  {
    if |digits| > 0 {
      assert (digits + rest)[1..] == digits[1..] + rest;
      DigitSpanOf(digits[1..], rest);
    }
  }

  /** On an optional `-`, a maximal digit run and anything else, the lexer
      yields the run's value, negated after a `-`, and leaves exactly what
      follows the run; a run above I32_MAX fails with `Digit` at the run. */
  lemma IntLexerAccepts(negative: bool, digits: seq<char>, rest: seq<char>)
    requires |digits| > 0 && AllDigits(digits) && !StartsWithDigit(rest)
    ensures DecimalValue(digits) <= I32_MAX ==>
              IntLexer(IntText(negative, digits) + rest)
              == Ok(rest, IntType((if negative then -(DecimalValue(digits) as int) else DecimalValue(digits)) as i32))
    ensures DecimalValue(digits) > I32_MAX ==>
              IntLexer(IntText(negative, digits) + rest) == Err(Digit, digits)
  {
    SignStep(negative, digits, rest);
    DigitsStep(digits, rest);
    IntLexerSteps(IntText(negative, digits) + rest, digits + rest, if negative then Some("-") else None, digits, rest);
    BuiltInt(digits, negative, rest);
  }

  /** The optional `-` of the lexer, on a text with or without one. */
  lemma SignStep(negative: bool, digits: seq<char>, rest: seq<char>)
    requires StartsWithDigit(digits)
    ensures var s := IntText(negative, digits) + rest;
            Nom.Opt(Nom.Tag("-", s), s) == Ok(digits + rest, if negative then Some("-") else None)
  {
    var s := IntText(negative, digits) + rest;
    Nom.TagChar('-', s);
    if negative {
      assert s == "-" + (digits + rest);
      assert s[1..] == digits + rest;
    } else {
      assert s == digits + rest && s[0] == digits[0];
    }
  }

  /** `digit1` on a maximal digit run. */
  lemma DigitsStep(digits: seq<char>, rest: seq<char>)
    requires |digits| > 0 && AllDigits(digits) && !StartsWithDigit(rest)
    ensures Nom.Digit1(digits + rest) == Ok(rest, digits)
  {
    DigitSpanOf(digits, rest);
    assert (digits + rest)[..|digits|] == digits && (digits + rest)[|digits|..] == rest;
  }

  /** BuildInt's outcome written as the lexer's result. */
  lemma BuiltInt(digits: seq<char>, negative: bool, rest: seq<char>)
    requires |digits| > 0 && AllDigits(digits)
    ensures var built := BuildInt(digits, negative);
            var r := if built.Ok? then Ok(rest, built.value) else Err(built.kind, built.at);
            (DecimalValue(digits) <= I32_MAX ==>
               r == Ok(rest, IntType((if negative then -(DecimalValue(digits) as int) else DecimalValue(digits)) as i32)))
            && (DecimalValue(digits) > I32_MAX ==> r == Err(Digit, digits))
  {
  }

  /** IntLexer composed from the results of its three steps. */
  lemma IntLexerSteps(s: seq<char>, afterSign: seq<char>, sign: Option<seq<char>>, digits: seq<char>, rest: seq<char>)
    requires Nom.Opt(Nom.Tag("-", s), s) == Ok(afterSign, sign)
    requires Nom.Digit1(afterSign) == Ok(rest, digits)
    ensures var built := BuildInt(digits, sign.Some?);
            IntLexer(s) == if built.Ok? then Ok(rest, built.value) else Err(built.kind, built.at)
  {
  }

  /** Without a digit, after an optional `-`, the lexer fails with `Digit`. */
  lemma IntLexerRejects(s: seq<char>)
    requires !StartsWithDigit(s) && !(StartsWith(s, '-') && StartsWithDigit(s[1..]))
    ensures IntLexer(s) == Err(Digit, if StartsWith(s, '-') then s[1..] else s)
  {
  }

  /** Appending a digit multiplies the value by ten and adds the digit. */
  lemma DecimalSnoc(t: seq<char>, c: char)
    requires AllDigits(t) && IsDigit(c)
    ensures AllDigits(t + [c]) && DecimalValue(t + [c]) == 10 * DecimalValue(t) + (c as int - '0' as int)
  {
    assert (t + [c])[..|t|] == t;
  }

  /** The digits of i32::MAX without its last digit. */
  lemma LimitPrefixDigits()
    ensures AllDigits("214748364") && DecimalValue("214748364") == 214748364
  {
    var t := ['2'];
    DecimalSnoc([], '2');
    assert [] + ['2'] == t;
    DecimalSnoc(t, '1'); t := t + ['1'];
    DecimalSnoc(t, '4'); t := t + ['4'];
    DecimalSnoc(t, '7'); t := t + ['7'];
    DecimalSnoc(t, '4'); t := t + ['4'];
    DecimalSnoc(t, '8'); t := t + ['8'];
    DecimalSnoc(t, '3'); t := t + ['3'];
    DecimalSnoc(t, '6'); t := t + ['6'];
    DecimalSnoc(t, '4'); t := t + ['4'];
    assert t == "214748364";
  }

  lemma MaxDigits()
    ensures AllDigits("2147483647") && DecimalValue("2147483647") == I32_MAX
  {
    LimitPrefixDigits();
    assert "214748364" + ['7'] == "2147483647";
    DecimalSnoc("214748364", '7');
  }

  lemma AboveMaxDigits()
    ensures AllDigits("2147483648") && DecimalValue("2147483648") == I32_MAX + 1
  {
    LimitPrefixDigits();
    assert "214748364" + ['8'] == "2147483648";
    DecimalSnoc("214748364", '8');
  }

  /** `-2147483648` (i32::MIN) is rejected: its digit run overflows before the
      sign is applied, and no other alternative accepts a leading `-`. */
  lemma MinimumIntRejected(rest: seq<char>)
    requires !StartsWithDigit(rest)
    ensures IntLexer(IntText(true, "2147483648") + rest) == Err(Digit, "2147483648")
    ensures Value(IntText(true, "2147483648") + rest).Err?
  {
    AboveMaxDigits();
    IntLexerAccepts(true, "2147483648", rest);
    DispatchByFirstCharacter(IntText(true, "2147483648") + rest);
  }

  /** The largest magnitudes are accepted: `2147483647` and `-2147483647`. */
  lemma ExtremeIntsAccepted(negative: bool, rest: seq<char>)
    requires !StartsWithDigit(rest)
    ensures IntLexer(IntText(negative, "2147483647") + rest)
            == Ok(rest, IntType(if negative then -2147483647 else 2147483647))
  {
    MaxDigits();
    IntLexerAccepts(negative, "2147483647", rest);
  }

  // ---------------------------------------------------------------------------
  // String lexer

  lemma {:induction false} SpanNotOf(text: seq<char>, q: char, rest: seq<char>)
    requires IsQuote(q) && forall i :: 0 <= i < |text| ==> !IsQuote(text[i])
    ensures Nom.SpanNot(Quotes, text + [q] + rest) == |text|
    decreases |text|
  {
    if |text| > 0 {
      assert (text + [q] + rest)[1..] == text[1..] + [q] + rest;
      SpanNotOf(text[1..], q, rest);
    }
  }

  /** Any quote, a non-empty quote-free run, any quote: the value is the run
      and the remainder is what follows the second quote. The two quotes may
      differ. */
  lemma StringLexerAccepts(open: char, text: seq<char>, close: char, rest: seq<char>)
    requires IsQuote(open) && IsQuote(close)
    requires |text| > 0 && forall i :: 0 <= i < |text| ==> !IsQuote(text[i])
    ensures StringLexer([open] + text + [close] + rest) == Ok(rest, StringType(text))
  {
    var s := [open] + text + [close] + rest;
    var input1 := text + [close] + rest;
    assert s == [open] + input1;
    QuoteStep(open, input1);
    QuoteStep(close, rest);
    StringBodyStep(text, close, rest);
    StringLexerSteps(s, input1, open, text, close, rest);
  }

  lemma QuoteStep(q: char, rest: seq<char>)
    requires IsQuote(q)
    ensures Nom.OneOf(Quotes, [q] + rest) == Ok(rest, q)
  {
    assert ([q] + rest)[1..] == rest;
  }

  lemma StringBodyStep(text: seq<char>, close: char, rest: seq<char>)
    requires IsQuote(close)
    requires |text| > 0 && forall i :: 0 <= i < |text| ==> !IsQuote(text[i])
    ensures Nom.IsNot(Quotes, text + [close] + rest) == Ok([close] + rest, text)
  {
    var input1 := text + [close] + rest;
    SpanNotOf(text, close, rest);
    assert input1[..|text|] == text && input1[|text|..] == [close] + rest;
  }

  /** StringLexer composed from the results of its three steps. */
  lemma StringLexerSteps(s: seq<char>, input1: seq<char>, open: char, text: seq<char>, close: char, rest: seq<char>)
    requires Nom.OneOf(Quotes, s) == Ok(input1, open)
    requires Nom.IsNot(Quotes, input1) == Ok([close] + rest, text)
    requires Nom.OneOf(Quotes, [close] + rest) == Ok(rest, close)
    ensures StringLexer(s) == Ok(rest, StringType(text))
  {
  }

  /** Input that does not start with a quote is not a string. */
  lemma StringLexerNeedsQuote(s: seq<char>)
    requires !(|s| > 0 && IsQuote(s[0]))
    ensures StringLexer(s) == Err(ErrorKind.OneOf, s)
  {
  }

  /** An empty body or a missing closing quote is rejected, after either
      quote: a quote straight after the opener fails with `IsNot` there, and
      quote-free text running to the end of the input fails with `OneOf` at
      the end. */
  lemma StringLexerRejectsEmptyAndUnterminated(q: char, q2: char, text: seq<char>, rest: seq<char>)
    requires IsQuote(q) && IsQuote(q2)
    requires forall i :: 0 <= i < |text| ==> !IsQuote(text[i])
    ensures StringLexer([q, q2] + rest) == Err(IsNot, [q2] + rest)
    ensures StringLexer([q] + text) == if |text| == 0 then Err(IsNot, []) else Err(ErrorKind.OneOf, [])
  {
    assert ([q, q2] + rest)[1..] == [q2] + rest;
    QuoteStep(q, [q2] + rest);
    QuoteStep(q, text);
    if |text| > 0 {
      SpanNotUpTo(text);
      assert text[..|text|] == text && text[|text|..] == [];
    }
  }

  lemma {:induction false} SpanNotUpTo(text: seq<char>)
    requires forall i :: 0 <= i < |text| ==> !IsQuote(text[i])
    ensures Nom.SpanNot(Quotes, text) == |text|
    decreases |text|
  {
    if |text| > 0 {
      SpanNotUpTo(text[1..]);
    }
  }

  // ---------------------------------------------------------------------------
  // Dispatcher

  function Succeeds(r: Result<OType>): nat {
    if r.Ok? then 1 else 0
  }

  /** The four alternatives accept disjoint inputs: at most one succeeds,
      and the one that does is the one the first character announces. */
  lemma AlternativesDisjoint(s: seq<char>)
    ensures Succeeds(IntLexer(s)) + Succeeds(StringLexer(s)) + Succeeds(Object(s)) + Succeeds(Array(s)) <= 1
    ensures IntLexer(s).Ok? ==> LeadVariant(s[0]) == Some(IntVariant)
    ensures StringLexer(s).Ok? ==> LeadVariant(s[0]) == Some(StringVariant)
    ensures Object(s).Ok? ==> LeadVariant(s[0]) == Some(ObjectVariant)
    ensures Array(s).Ok? ==> LeadVariant(s[0]) == Some(ArrayVariant)
  {
    IntLead(s);
    StringLead(s);
    ObjectLead(s);
    ArrayLead(s);
  }

  lemma IntLead(s: seq<char>)
    ensures IntLexer(s).Ok? ==> LeadVariant(s[0]) == Some(IntVariant)
  {
  }

  lemma StringLead(s: seq<char>)
    ensures StringLexer(s).Ok? ==> LeadVariant(s[0]) == Some(StringVariant)
  {
  }

  lemma ObjectLead(s: seq<char>)
    ensures Object(s).Ok? ==> LeadVariant(s[0]) == Some(ObjectVariant)
  {
    BracketLeads();
    OpenerLead(s, Object(s).Ok?, '{', ObjectVariant);
  }

  lemma ArrayLead(s: seq<char>)
    ensures Array(s).Ok? ==> LeadVariant(s[0]) == Some(ArrayVariant)
  {
    BracketLeads();
    OpenerLead(s, Array(s).Ok?, '[', ArrayVariant);
  }

  /** A production that only succeeds on input opening with c selects c's
      alternative. */
  lemma OpenerLead(s: seq<char>, parsed: bool, c: char, v: Variant)
    requires parsed ==> StartsWith(s, c)
    requires LeadVariant(c) == Some(v)
    ensures parsed ==> LeadVariant(s[0]) == Some(v)
  {
  }

  /** Trying the alternatives in order is the same as choosing one by the
      first character: Value succeeds exactly when the selected alternative
      does, with its result, and fails on any other first character. */
  lemma DispatchByFirstCharacter(s: seq<char>)
    ensures |s| > 0 && LeadVariant(s[0]) == Some(IntVariant) ==>
              (Value(s).Ok? <==> IntLexer(s).Ok?) && (IntLexer(s).Ok? ==> Value(s) == IntLexer(s))
    ensures |s| > 0 && LeadVariant(s[0]) == Some(StringVariant) ==>
              (Value(s).Ok? <==> StringLexer(s).Ok?) && (StringLexer(s).Ok? ==> Value(s) == StringLexer(s))
    ensures |s| > 0 && LeadVariant(s[0]) == Some(ObjectVariant) ==>
              (Value(s).Ok? <==> Object(s).Ok?) && (Object(s).Ok? ==> Value(s) == Object(s))
    ensures |s| > 0 && LeadVariant(s[0]) == Some(ArrayVariant) ==>
              (Value(s).Ok? <==> Array(s).Ok?) && (Array(s).Ok? ==> Value(s) == Array(s))
    ensures (|s| == 0 || LeadVariant(s[0]) == None) ==> Value(s).Err?
  {
    ValueTriesInOrder(s);
    AlternativesDisjoint(s);
  }

  lemma ValueTriesInOrder(s: seq<char>)
    ensures Value(s) == (var i, t, o := IntLexer(s), StringLexer(s), Object(s);
                         if i.Ok? then i else if t.Ok? then t else if o.Ok? then o else Array(s))
  {
  }

  // ---------------------------------------------------------------------------
  // Name filter

  /** A name that parses as an object or array is rejected with
      `Permutation` at the input just after it; an int or string name is
      passed through with the same remainder; a failure is passed through. */
  lemma NameFilterSpec(s: seq<char>)
    ensures Value(s).Ok? && IsScalar(Value(s).value) ==> NameFilter(s) == Value(s)
    ensures Value(s).Ok? && !IsScalar(Value(s).value) ==> NameFilter(s) == Err(Permutation, Value(s).rest)
    ensures Value(s).Err? ==> NameFilter(s) == Value(s)
  {
  }

  // ---------------------------------------------------------------------------
  // Keypair

  /** When the input after the name does not start with `": "`, the keypair
      fails with `Tag` there; when the data is not followed by `;`, it fails
      with `Tag` after the data. (A name followed by `":"` plus two spaces
      passes the separator and fails in the data instead.) */
  lemma KeypairNeedsSeparators(s: seq<char>)
    ensures NameFilter(s).Ok? && !(": " <= NameFilter(s).rest) ==>
              Keypair(s) == Err(ErrorKind.Tag, NameFilter(s).rest)
    ensures NameFilter(s).Ok? && ": " <= NameFilter(s).rest ==>
              var data := Value(NameFilter(s).rest[2..]);
              data.Ok? && !(";" <= data.rest) ==> Keypair(s) == Err(ErrorKind.Tag, data.rest)
  {
  }

  // ---------------------------------------------------------------------------
  // Whitespace

  /** Input that starts with neither a space nor a newline is left alone. */
  lemma StripNothing(s: seq<char>)
    requires !StartsWith(s, ' ') && !StartsWith(s, '\n')
    ensures StripWhitespace(s) == Ok(s, ())
  {
  }

  /** strip_whitespace composed from its three steps. */
  lemma StripSteps(s: seq<char>, input1: seq<char>, input3: seq<char>)
    requires Nom.Many0Space(s).rest == input1
    requires Nom.Many0Space(if StartsWith(input1, '\n') then input1[1..] else input1).rest == input3
    ensures StripWhitespace(s) == Ok(input3, ())
  {
    Nom.TagChar('\n', input1);
    assert "\n" == ['\n'];
  }

  /** One space, then something else. */
  lemma OneSpace(s: seq<char>)
    requires !StartsWith(s, ' ')
    ensures Nom.Many0Space(" " + s).rest == s
  {
    assert (" " + s)[1..] == s;
  }

  /** A second newline stops the stripper: `" \n \n"` loses only `" \n "`. */
  lemma StripStopsAtSecondNewline(rest: seq<char>)
    ensures StripWhitespace(" \n \n" + rest) == Ok("\n" + rest, ())
  {
    var s := " \n \n" + rest;
    var input1 := "\n \n" + rest;
    assert s == " " + input1;
    OneSpace(input1);
    assert input1[1..] == " " + ("\n" + rest);
    OneSpace("\n" + rest);
    StripSteps(s, input1, "\n" + rest);
  }

  // ---------------------------------------------------------------------------
  // Document and object

  /** The document reports the first keypair's error unchanged. */
  lemma DocumentFirstError(s: seq<char>)
    requires Keypair(s).Err?
    ensures Document(s) == Err(Keypair(s).kind, Keypair(s).at)
  {
  }

  /** A document is its first item followed by the items MoreItems collects. */
  lemma DocumentSteps(s: seq<char>)
    requires DocumentItem(s).Ok?
    ensures var first := DocumentItem(s);
            var more := MoreItems(first.rest);
            Document(s) == Ok(more.rest, [first.value] + more.value)
  {
  }

  /** MoreItems stops, consuming nothing, at an item that fails. */
  lemma MoreItemsStops(s: seq<char>)
    requires DocumentItem(s).Err?
    ensures MoreItems(s) == Ok(s, [])
  {
  }

  /** After the first keypair, a keypair that fails ends the document
      without an error, leaving it unconsumed. */
  lemma DocumentStopsAtFailingItem(s: seq<char>)
    requires DocumentItem(s).Ok? && DocumentItem(DocumentItem(s).rest).Err?
    ensures Document(s) == Ok(DocumentItem(s).rest, [DocumentItem(s).value])
  {
    var first := DocumentItem(s);
    DocumentSteps(s);
    MoreItemsStops(first.rest);
    assert [first.value] + [] == [first.value];
  }

  /** Without a value at its start there is no document: the value's error
      passes unchanged through the name filter, the keypair and `many1`. */
  lemma NoValueNoDocument(s: seq<char>)
    requires Value(s).Err?
    ensures Document(s) == Err(Value(s).kind, Value(s).at)
  {
    NameFilterSpec(s);
    DocumentFirstError(s);
  }

  /** An object fails when no document follows `{` and whitespace, with the
      document's error. */
  lemma ObjectNeedsDocument(s: seq<char>)
    requires StartsWith(s, '{') && Document(StripWhitespace(s[1..]).rest).Err?
    ensures var d := Document(StripWhitespace(s[1..]).rest);
            Object(s) == Err(d.kind, d.at)
  {
  }

  /** An object whose `{` is followed, after whitespace, by text at which
      no value starts, fails with that value's error. */
  lemma ObjectWithoutValue(s: seq<char>, close: seq<char>)
    requires StartsWith(s, '{') && StripWhitespace(s[1..]).rest == close && Value(close).Err?
    ensures Object(s) == Err(Value(close).kind, Value(close).at)
  {
    NoValueNoDocument(close);
    ObjectNeedsDocument(s);
  }

  /** An object whose document is not followed, after whitespace, by `}`
      fails with `Tag` where the `}` was expected. */
  lemma ObjectNeedsClose(s: seq<char>)
    requires StartsWith(s, '{') && Document(StripWhitespace(s[1..]).rest).Ok?
    requires !StartsWith(StripWhitespace(Document(StripWhitespace(s[1..]).rest).rest).rest, '}')
    ensures Object(s) == Err(ErrorKind.Tag, StripWhitespace(Document(StripWhitespace(s[1..]).rest).rest).rest)
  {
    var input2 := StripWhitespace(s[1..]).rest;
    var doc := Document(input2);
    ObjectCloseStep(s, input2, doc.rest, doc.value, StripWhitespace(doc.rest).rest);
  }

  /** Object's steps when the `}` is missing, on named intermediate inputs. */
  lemma ObjectCloseStep(s: seq<char>, input2: seq<char>, input3: seq<char>, found: seq<OKeyPair>, input4: seq<char>)
    requires StartsWith(s, '{') && StripWhitespace(s[1..]).rest == input2
    requires Document(input2) == Ok(input3, found)
    requires StripWhitespace(input3).rest == input4 && !StartsWith(input4, '}')
    ensures Object(s) == Err(ErrorKind.Tag, input4)
  {
    assert Nom.Tag("{", s) == Ok(s[1..], "{");
    assert Nom.Tag("}", input4) == Err(ErrorKind.Tag, input4);
  }

  /** An object needs at least one keypair: `{}` and `{ }` fail with `Tag`
      at the `}`, the error of the array alternative tried last there. */
  lemma EmptyObjectRejected(rest: seq<char>)
    ensures Object("{}" + rest) == Err(ErrorKind.Tag, "}" + rest)
    ensures Object("{ }" + rest) == Err(ErrorKind.Tag, "}" + rest)
  {
    BracesRejected(rest);
    SpacedBracesRejected(rest);
  }

  lemma BracesRejected(rest: seq<char>)
    ensures Object("{}" + rest) == Err(ErrorKind.Tag, "}" + rest)
  {
    var close := "}" + rest;
    NoValueAtClose(close);
    assert ("{}" + rest)[1..] == close;
    StripNothing(close);
    ObjectWithoutValue("{}" + rest, close);
  }

  lemma SpacedBracesRejected(rest: seq<char>)
    ensures Object("{ }" + rest) == Err(ErrorKind.Tag, "}" + rest)
  {
    var close := "}" + rest;
    NoValueAtClose(close);
    assert ("{ }" + rest)[1..] == " " + close;
    SpaceBeforeClose(close);
    ObjectWithoutValue("{ }" + rest, close);
  }

  /** No value starts at `}`: every alternative fails, and the array
      alternative, tried last, reports `Tag` at the `}`. */
  lemma NoValueAtClose(close: seq<char>)
    requires StartsWith(close, '}')
    ensures Value(close) == Err(ErrorKind.Tag, close)
  {
    DispatchByFirstCharacter(close);
    ValueTriesInOrder(close);
  }

  /** One space before a `}` is stripped. */
  lemma SpaceBeforeClose(close: seq<char>)
    requires StartsWith(close, '}')
    ensures StripWhitespace(" " + close).rest == close
  {
    OneSpace(close);
    Nom.TagChar(' ', close);
    assert Nom.Many0Space(close).rest == close;
    StripSteps(" " + close, close, close);
  }
}
