/** A printer for the values the grammar produces, and the proof that the
    grammar reads every printed well-formed value back, so that every value
    the parser can return (see WellFormed) is returned for some input. The
    printer puts one whitespace gap (spaces, an optional newline, spaces) at
    each position, the same layout at every level of nesting. Where two
    strips meet (between array elements, and between the last keypair and
    `}`) the grammar also takes two gaps in a row; the printer does not
    write those.

    The printer writes integers in decimal, strings between single quotes,
    array elements each followed by `;` and keypairs as `name: data;`. A
    Layout says what whitespace goes after `[` and `{`, between elements or
    keypairs, and before `]` and `}`. Each printing function takes the text
    that follows, so that printed text is only ever prepended to. */
module OwmlRoundTrip {
  import opened OwmlTypes
  import Nom
  import opened OwmlParser
  import opened OwmlProperties

  // ---------------------------------------------------------------------------
  // Whitespace

  /** What one strip_whitespace consumes: spaces, an optional newline,
      spaces. */
  datatype Gap = Gap(before: nat, newline: bool, after: nat)

  /** The gap of no whitespace. */
  const Tight := Gap(0, false, 0)

  /** The whitespace of each position in arrays and objects, at every
      level of nesting. `sep` also separates the keypairs of a document. */
  datatype Layout = Layout(open: Gap, sep: Gap, close: Gap)

  /** n spaces followed by rest. */
  function Spaces(n: nat, rest: seq<char>): seq<char> {
    if n == 0 then rest else [' '] + Spaces(n - 1, rest)
  }

  /** The text of g followed by rest. */
  function Pad(g: Gap, rest: seq<char>): seq<char> {
    Spaces(g.before, if g.newline then ['\n'] + Spaces(g.after, rest) else Spaces(g.after, rest))
  }

  // ---------------------------------------------------------------------------
  // The printer

  /** The text of v followed by rest. */
  function Render(v: OType, lay: Layout, rest: seq<char>): seq<char>
    decreases v, 1
  {
    match v
    case IntType(n) => IntText(n < 0, DecimalText(if n < 0 then -(n as int) else n as int)) + rest
    case StringType(t) => ['\''] + t + ['\''] + rest
    case ArrayType(items) => ['['] + Pad(lay.open, RenderItems(items, lay, Pad(lay.close, [']'] + rest)))
    case ObjectType(pairs) => ['{'] + Pad(lay.open, RenderPairs(pairs, lay, Pad(lay.close, ['}'] + rest)))
  }

  /** Each element followed by `;`, the elements separated by `lay.sep`,
      then rest. */
  function RenderItems(items: seq<OType>, lay: Layout, rest: seq<char>): seq<char>
    decreases items, 0
  {
    if |items| == 0 then rest
    else if |items| == 1 then Render(items[0], lay, [';'] + rest)
    else Render(items[0], lay, [';'] + Pad(lay.sep, RenderItems(items[1..], lay, rest)))
  }

  /** Each keypair as `name: data;`, the keypairs separated by `lay.sep`,
      then rest. */
  function RenderPairs(pairs: seq<OKeyPair>, lay: Layout, rest: seq<char>): seq<char>
    decreases pairs, 0
  {
    if |pairs| == 0 then rest
    else if |pairs| == 1 then RenderPair(pairs[0], lay, rest)
    else RenderPair(pairs[0], lay, Pad(lay.sep, RenderPairs(pairs[1..], lay, rest)))
  }

  function RenderPair(p: OKeyPair, lay: Layout, rest: seq<char>): seq<char>
    decreases p, 2
  {
    Render(p.name, lay, ": " + Render(p.data, lay, [';'] + rest))
  }

  /** Text at which the element loop and the keypair loop stop: nothing a
      value can start with, and no whitespace. */
  predicate Stops(tail: seq<char>) {
    tail == [] || (LeadVariant(tail[0]) == None && tail[0] != ' ' && tail[0] != '\n')
  }

  /** Neither a space nor a newline at the start. */
  predicate NoWhitespace(s: seq<char>) {
    !StartsWith(s, ' ') && !StartsWith(s, '\n')
  }

  // ---------------------------------------------------------------------------
  // Small facts about printed text

  /** many0(tag(" ")) takes exactly the spaces. */
  lemma {:induction false} SpacesConsumed(n: nat, rest: seq<char>)
    requires !StartsWith(rest, ' ')
    ensures Nom.Many0Space(Spaces(n, rest)).rest == rest
    decreases n
  {
    if n > 0 {
      SpacesConsumed(n - 1, rest);
      TagPrefix([' '], Spaces(n - 1, rest));
    }
  }

  /** strip_whitespace takes exactly a gap. */
  lemma PadStripped(g: Gap, rest: seq<char>)
    requires NoWhitespace(rest)
    ensures StripWhitespace(Pad(g, rest)) == Ok(rest, ())
  {
    if g.newline {
      NewlineGapStripped(g.before, g.after, rest);
    } else {
      SpaceGapStripped(g.before, g.after, rest);
    }
  }

  lemma SpaceGapStripped(before: nat, after: nat, rest: seq<char>)
    requires NoWhitespace(rest)
    ensures StripWhitespace(Spaces(before, Spaces(after, rest))) == Ok(rest, ())
  {
    SpacesConsumedTwice(before, after, rest);
    SpacesConsumed(0, rest);
    StripSteps(Spaces(before, Spaces(after, rest)), rest, rest);
  }

  /** many0(tag(" ")) takes two runs of spaces at once. */
  lemma {:induction false} SpacesConsumedTwice(a: nat, b: nat, rest: seq<char>)
    requires !StartsWith(rest, ' ')
    ensures Nom.Many0Space(Spaces(a, Spaces(b, rest))).rest == rest
    decreases a
  {
    if a == 0 {
      SpacesConsumed(b, rest);
    } else {
      SpacesConsumedTwice(a - 1, b, rest);
      TagPrefix([' '], Spaces(a - 1, Spaces(b, rest)));
    }
  }

  lemma NewlineGapStripped(before: nat, after: nat, rest: seq<char>)
    requires NoWhitespace(rest)
    ensures StripWhitespace(Spaces(before, ['\n'] + Spaces(after, rest))) == Ok(rest, ())
  {
    var input1 := ['\n'] + Spaces(after, rest);
    SpacesConsumed(before, input1);
    SpacesConsumed(after, rest);
    assert input1[1..] == Spaces(after, rest);
    StripSteps(Spaces(before, input1), input1, rest);
  }

  /** A printed value starts with the character its variant is announced by. */
  lemma RenderLead(v: OType, lay: Layout, rest: seq<char>)
    ensures |Render(v, lay, rest)| > 0 && LeadVariant(Render(v, lay, rest)[0]) == Some(VariantOf(v))
  {
    match v
    case IntType(n) =>
      var digits := DecimalText(if n < 0 then -(n as int) else n as int);
      assert IsDigit(digits[0]);
      if n < 0 {
        assert Render(v, lay, rest)[0] == '-';
      } else {
        assert Render(v, lay, rest)[0] == digits[0];
      }
    case StringType(t) =>
    case ArrayType(items) =>
    case ObjectType(pairs) =>
  }

  lemma RenderNoWhitespace(v: OType, lay: Layout, rest: seq<char>)
    ensures NoWhitespace(Render(v, lay, rest))
  {
    RenderLead(v, lay, rest);
  }

  /** Printed elements start with a value. */
  lemma ItemsNoWhitespace(items: seq<OType>, lay: Layout, rest: seq<char>)
    requires |items| > 0
    ensures NoWhitespace(RenderItems(items, lay, rest))
  {
    if |items| == 1 {
      RenderNoWhitespace(items[0], lay, [';'] + rest);
    } else {
      RenderNoWhitespace(items[0], lay, [';'] + Pad(lay.sep, RenderItems(items[1..], lay, rest)));
    }
  }

  /** Printed keypairs start with a value. */
  lemma PairsNoWhitespace(pairs: seq<OKeyPair>, lay: Layout, rest: seq<char>)
    requires |pairs| > 0
    ensures NoWhitespace(RenderPairs(pairs, lay, rest))
  {
    var p := pairs[0];
    var more := if |pairs| == 1 then rest else Pad(lay.sep, RenderPairs(pairs[1..], lay, rest));
    RenderNoWhitespace(p.name, lay, ": " + Render(p.data, lay, [';'] + more));
  }

  /** The literal t at the start of t + x. */
  lemma TagPrefix(t: seq<char>, x: seq<char>)
    ensures Nom.Tag(t, t + x) == Ok(x, t)
  {
    assert (t + x)[..|t|] == t && (t + x)[|t|..] == x;
  }

  // ---------------------------------------------------------------------------
  // Where the loops stop

  /** Nothing is a value at the stop. */
  lemma NoValueAtStop(tail: seq<char>)
    requires Stops(tail)
    ensures Value(tail).Err?
  {
    DispatchByFirstCharacter(tail);
  }

  /** The element loop stops at the stop, consuming nothing. */
  lemma ArrayItemsAtStop(tail: seq<char>)
    requires Stops(tail)
    ensures ArrayItems(tail) == Ok(tail, [])
  {
    StripNothing(tail);
    NoValueAtStop(tail);
    CycleFails(tail);
  }

  /** An element fails when no value follows the whitespace. */
  lemma CycleFails(s: seq<char>)
    requires Value(StripWhitespace(s).rest).Err?
    ensures ArrayCycle(s).Err?
  {
  }

  /** The keypair loop stops at the stop, consuming nothing. */
  lemma MoreItemsAtStop(tail: seq<char>)
    requires Stops(tail)
    ensures MoreItems(tail) == Ok(tail, [])
  {
    NoValueAtStop(tail);
    NoNameNoItem(tail);
    MoreItemsStops(tail);
  }

  lemma NoNameNoItem(s: seq<char>)
    requires Value(s).Err?
    ensures DocumentItem(s).Err?
  {
    NameFilterSpec(s);
  }

  // ---------------------------------------------------------------------------
  // One step of each production

  /** A printed integer is read back by the integer lexer. */
  lemma IntRoundTrip(n: i32, lay: Layout, rest: seq<char>)
    requires -I32_MAX <= n as int && !StartsWithDigit(rest)
    ensures IntLexer(Render(IntType(n), lay, rest)) == Ok(rest, IntType(n))
  {
    var digits := DecimalText(if n < 0 then -(n as int) else n as int);
    assert Render(IntType(n), lay, rest) == IntText(n < 0, digits) + rest;
    IntTextRoundTrip(n, digits, rest);
  }

  lemma IntTextRoundTrip(n: i32, digits: seq<char>, rest: seq<char>)
    requires -I32_MAX <= n as int && !StartsWithDigit(rest)
    requires digits == DecimalText(if n < 0 then -(n as int) else n as int)
    ensures IntLexer(IntText(n < 0, digits) + rest) == Ok(rest, IntType(n))
  {
    var m := DecimalValue(digits);
    assert m <= I32_MAX && (if n < 0 then -(m as int) else m) == n as int;
    IntLexerAccepts(n < 0, digits, rest);
  }

  /** A printed string is read back by the string lexer. */
  lemma StringRoundTrip(t: seq<char>, lay: Layout, rest: seq<char>)
    requires WellFormed(StringType(t))
    ensures StringLexer(Render(StringType(t), lay, rest)) == Ok(rest, StringType(t))
  {
    StringLexerAccepts('\'', t, '\'', rest);
  }

  /** The element loop, one element further. */
  lemma ArrayItemsStep(s: seq<char>)
    requires ArrayCycle(s).Ok?
    ensures var more := ArrayItems(ArrayCycle(s).rest);
            ArrayItems(s) == Ok(more.rest, [ArrayCycle(s).value] + more.value)
  {
  }

  /** One element: a gap, a value, `;`, a gap. */
  lemma ArrayCycleStep(g1: Gap, x: seq<char>, item: OType, g2: Gap, more: seq<char>)
    requires NoWhitespace(x) && NoWhitespace(more)
    requires Value(x) == Ok([';'] + Pad(g2, more), item)
    ensures ArrayCycle(Pad(g1, x)) == Ok(more, item)
  {
    PadStripped(g1, x);
    TagPrefix([';'], Pad(g2, more));
    PadStripped(g2, more);
  }

  /** The element loop over a first element and the rest. */
  lemma ItemsConsStep(g1: Gap, x: seq<char>, g2: Gap, more: seq<char>, tail: seq<char>, items: seq<OType>)
    requires |items| > 0 && NoWhitespace(x) && NoWhitespace(more)
    requires Value(x) == Ok([';'] + Pad(g2, more), items[0])
    requires ArrayItems(more) == Ok(tail, items[1..])
    ensures ArrayItems(Pad(g1, x)) == Ok(tail, items)
  {
    ArrayCycleStep(g1, x, items[0], g2, more);
    ArrayItemsStep(Pad(g1, x));
    HeadTail(items);
  }

  /** `[`, then elements ending at `]`. */
  lemma ArrayStep(body: seq<char>, items: seq<OType>, rest: seq<char>)
    requires ArrayItems(body) == Ok([']'] + rest, items)
    ensures |items| > 0 && Homogeneous(items) ==> Array(['['] + body) == Ok(rest, ArrayType(items))
    ensures |items| == 0 ==> Array(['['] + body) == Err(NonEmpty, [']'] + rest)
    ensures |items| > 0 && !Homogeneous(items) ==> Array(['['] + body) == Err(ErrorKind.OneOf, [']'] + rest)
  {
    TagPrefix(['['], body);
    TagPrefix([']'], rest);
  }

  /** A keypair from its parts. */
  lemma KeypairStep(s: seq<char>, name: OType, afterName: seq<char>, data: OType, more: seq<char>)
    requires NameFilter(s) == Ok(": " + afterName, name)
    requires Value(afterName) == Ok([';'] + more, data)
    ensures Keypair(s) == Ok(more, OKeyPair(name, data))
  {
    TagPrefix(": ", afterName);
    TagPrefix([';'], more);
  }

  /** A keypair followed by a gap is a document item. */
  lemma DocumentItemStep(s: seq<char>, g: Gap, more: seq<char>, p: OKeyPair)
    requires Keypair(s) == Ok(Pad(g, more), p) && NoWhitespace(more)
    ensures DocumentItem(s) == Ok(more, p)
  {
    PadStripped(g, more);
  }

  /** The keypair loop, one keypair further. */
  lemma MoreItemsStep(s: seq<char>)
    requires DocumentItem(s).Ok?
    ensures var more := MoreItems(DocumentItem(s).rest);
            MoreItems(s) == Ok(more.rest, [DocumentItem(s).value] + more.value)
  {
  }

  /** The keypair loop over a first keypair and the rest. */
  lemma PairsConsStep(s: seq<char>, p: OKeyPair, more: seq<char>, tail: seq<char>, pairs: seq<OKeyPair>)
    requires DocumentItem(s) == Ok(more, p)
    requires MoreItems(more) == Ok(tail, pairs)
    ensures MoreItems(s) == Ok(tail, [p] + pairs)
  {
    MoreItemsStep(s);
  }

  /** A document over a first keypair and the rest. */
  lemma DocumentConsStep(s: seq<char>, p: OKeyPair, more: seq<char>, tail: seq<char>, pairs: seq<OKeyPair>)
    requires DocumentItem(s) == Ok(more, p)
    requires MoreItems(more) == Ok(tail, pairs)
    ensures Document(s) == Ok(tail, [p] + pairs)
  {
    DocumentSteps(s);
  }

  /** `{`, a gap, a document ending at `}`. */
  lemma ObjectStep(g: Gap, body: seq<char>, pairs: seq<OKeyPair>, rest: seq<char>)
    requires NoWhitespace(body)
    requires Document(body) == Ok(['}'] + rest, pairs)
    ensures Object(['{'] + Pad(g, body)) == Ok(rest, ObjectType(pairs))
  {
    TagPrefix(['{'], Pad(g, body));
    PadStripped(g, body);
    StripNothing(['}'] + rest);
    TagPrefix(['}'], rest);
  }

  /** Value picks the alternative the first character announces. */
  lemma ValueStep(s: seq<char>, r: Result<OType>)
    requires |s| > 0 && r.Ok? && LeadVariant(s[0]).Some?
    requires LeadVariant(s[0]) == Some(IntVariant) ==> r == IntLexer(s)
    requires LeadVariant(s[0]) == Some(StringVariant) ==> r == StringLexer(s)
    requires LeadVariant(s[0]) == Some(ObjectVariant) ==> r == Object(s)
    requires LeadVariant(s[0]) == Some(ArrayVariant) ==> r == Array(s)
    ensures Value(s) == r
  {
    DispatchByFirstCharacter(s);
  }

  lemma AllWellFormedSplit(items: seq<OType>)
    requires |items| > 0 && AllWellFormed(items)
    ensures WellFormed(items[0]) && AllWellFormed(items[1..])
  {
    forall i | 0 <= i < |items[1..]| ensures WellFormed(items[1..][i]) {
      assert items[1..][i] == items[i + 1];
    }
  }

  lemma AllWellFormedPairsSplit(pairs: seq<OKeyPair>)
    requires |pairs| > 0 && AllWellFormedPairs(pairs)
    ensures WellFormedPair(pairs[0]) && AllWellFormedPairs(pairs[1..])
  {
    forall i | 0 <= i < |pairs[1..]| ensures WellFormedPair(pairs[1..][i]) {
      assert pairs[1..][i] == pairs[i + 1];
    }
  }

  // ---------------------------------------------------------------------------
  // The round trip

  /** Every well-formed value is read back from its printed text, in any
      layout, leaving what follows it; an integer must not be followed by a
      digit. */
  lemma {:induction false} ValueRoundTrip(v: OType, lay: Layout, rest: seq<char>)
    requires WellFormed(v)
    requires v.IntType? ==> !StartsWithDigit(rest)
    ensures Value(Render(v, lay, rest)) == Ok(rest, v)
    decreases v, 1
  {
    var s := Render(v, lay, rest);
    RenderLead(v, lay, rest);
    match v
    case IntType(n) =>
      IntRoundTrip(n, lay, rest);
      ValueStep(s, Ok(rest, v));
    case StringType(t) =>
      StringRoundTrip(t, lay, rest);
      ValueStep(s, Ok(rest, v));
    case ArrayType(items) =>
      ItemsRoundTrip(items, lay, lay.open, lay.close, [']'] + rest);
      ArrayStep(Pad(lay.open, RenderItems(items, lay, Pad(lay.close, [']'] + rest))), items, rest);
      ValueStep(s, Ok(rest, v));
    case ObjectType(pairs) =>
      DocumentRoundTrip(pairs, lay, lay.close, ['}'] + rest);
      PairsNoWhitespace(pairs, lay, Pad(lay.close, ['}'] + rest));
      ObjectStep(lay.open, RenderPairs(pairs, lay, Pad(lay.close, ['}'] + rest)), pairs, rest);
      ValueStep(s, Ok(rest, v));
  }

  /** The element loop reads back one or more printed elements, after a
      first gap and up to a last one, whether or not they are homogeneous. */
  lemma {:induction false} ItemsRoundTrip(items: seq<OType>, lay: Layout, first: Gap, last: Gap, tail: seq<char>)
    requires |items| > 0 && AllWellFormed(items) && Stops(tail)
    ensures ArrayItems(Pad(first, RenderItems(items, lay, Pad(last, tail)))) == Ok(tail, items)
    decreases items, 0
  {
    AllWellFormedSplit(items);
    if |items| == 1 {
      var after := [';'] + Pad(last, tail);
      ValueRoundTrip(items[0], lay, after);
      RenderNoWhitespace(items[0], lay, after);
      ItemsLast(first, Render(items[0], lay, after), items, last, tail);
    } else {
      var more := RenderItems(items[1..], lay, Pad(last, tail));
      var after := [';'] + Pad(lay.sep, more);
      ValueRoundTrip(items[0], lay, after);
      RenderNoWhitespace(items[0], lay, after);
      ItemsNoWhitespace(items[1..], lay, Pad(last, tail));
      ItemsRoundTrip(items[1..], lay, Tight, last, tail);
      PadTight(more);
      ItemsCons(first, Render(items[0], lay, after), items, lay.sep, more, tail);
    }
  }

  lemma PadTight(s: seq<char>)
    ensures Pad(Tight, s) == s
  {
  }

  /** The element loop over a last element. */
  lemma ItemsLast(first: Gap, x: seq<char>, items: seq<OType>, last: Gap, tail: seq<char>)
    requires |items| == 1 && NoWhitespace(x) && Stops(tail)
    requires Value(x) == Ok([';'] + Pad(last, tail), items[0])
    ensures ArrayItems(Pad(first, x)) == Ok(tail, items)
  {
    ArrayItemsAtStop(tail);
    assert items[1..] == [];
    ItemsConsStep(first, x, last, tail, tail, items);
  }

  /** The element loop over a first element and the others. */
  lemma ItemsCons(first: Gap, x: seq<char>, items: seq<OType>, sep: Gap, more: seq<char>, tail: seq<char>)
    requires |items| > 1 && NoWhitespace(x) && NoWhitespace(more)
    requires Value(x) == Ok([';'] + Pad(sep, more), items[0])
    requires ArrayItems(more) == Ok(tail, items[1..])
    ensures ArrayItems(Pad(first, x)) == Ok(tail, items)
  {
    ItemsConsStep(first, x, sep, more, tail, items);
  }

  /** A printed keypair is read back, up to the text after its `;`. */
  lemma {:induction false} KeypairRoundTrip(p: OKeyPair, lay: Layout, rest: seq<char>)
    requires WellFormedPair(p)
    ensures Keypair(RenderPair(p, lay, rest)) == Ok(rest, p)
    decreases p, 1
  {
    var afterName := Render(p.data, lay, [';'] + rest);
    ValueRoundTrip(p.name, lay, ": " + afterName);
    NameFilterSpec(RenderPair(p, lay, rest));
    ValueRoundTrip(p.data, lay, [';'] + rest);
    KeypairStep(RenderPair(p, lay, rest), p.name, afterName, p.data, rest);
  }

  /** The first printed keypair as a document item. */
  lemma {:induction false} FirstItemRoundTrip(pairs: seq<OKeyPair>, lay: Layout, last: Gap, tail: seq<char>)
    requires |pairs| > 0 && WellFormedPair(pairs[0]) && Stops(tail)
    ensures var more := if |pairs| == 1 then tail else RenderPairs(pairs[1..], lay, Pad(last, tail));
            DocumentItem(RenderPairs(pairs, lay, Pad(last, tail))) == Ok(more, pairs[0])
    decreases pairs, 0
  {
    if |pairs| == 1 {
      KeypairRoundTrip(pairs[0], lay, Pad(last, tail));
      DocumentItemStep(RenderPairs(pairs, lay, Pad(last, tail)), last, tail, pairs[0]);
    } else {
      var more := RenderPairs(pairs[1..], lay, Pad(last, tail));
      KeypairRoundTrip(pairs[0], lay, Pad(lay.sep, more));
      PairsNoWhitespace(pairs[1..], lay, Pad(last, tail));
      DocumentItemStep(RenderPairs(pairs, lay, Pad(last, tail)), lay.sep, more, pairs[0]);
    }
  }

  /** The keypair loop reads back one or more printed keypairs up to a
      last gap. */
  lemma {:induction false} MoreItemsRoundTrip(pairs: seq<OKeyPair>, lay: Layout, last: Gap, tail: seq<char>)
    requires |pairs| > 0 && AllWellFormedPairs(pairs) && Stops(tail)
    ensures MoreItems(RenderPairs(pairs, lay, Pad(last, tail))) == Ok(tail, pairs)
    decreases pairs, 1
  {
    AllWellFormedPairsSplit(pairs);
    FirstItemRoundTrip(pairs, lay, last, tail);
    var s := RenderPairs(pairs, lay, Pad(last, tail));
    var more := if |pairs| == 1 then tail else RenderPairs(pairs[1..], lay, Pad(last, tail));
    if |pairs| == 1 {
      MoreItemsAtStop(tail);
      assert pairs[1..] == [];
    } else {
      MoreItemsRoundTrip(pairs[1..], lay, last, tail);
    }
    PairsConsStep(s, pairs[0], more, tail, pairs[1..]);
    HeadTail(pairs);
  }

  /** A document reads back one or more printed keypairs up to a last gap. */
  lemma {:induction false} DocumentRoundTrip(pairs: seq<OKeyPair>, lay: Layout, last: Gap, tail: seq<char>)
    requires |pairs| > 0 && AllWellFormedPairs(pairs) && Stops(tail)
    ensures Document(RenderPairs(pairs, lay, Pad(last, tail))) == Ok(tail, pairs)
    decreases pairs, 2
  {
    AllWellFormedPairsSplit(pairs);
    FirstItemRoundTrip(pairs, lay, last, tail);
    var s := RenderPairs(pairs, lay, Pad(last, tail));
    var more := if |pairs| == 1 then tail else RenderPairs(pairs[1..], lay, Pad(last, tail));
    if |pairs| == 1 {
      MoreItemsAtStop(tail);
      assert pairs[1..] == [];
    } else {
      MoreItemsRoundTrip(pairs[1..], lay, last, tail);
    }
    DocumentConsStep(s, pairs[0], more, tail, pairs[1..]);
    HeadTail(pairs);
  }

  /** key_object_parser reads back a printed object of one or more
      well-formed keypairs, whatever follows it. */
  lemma ObjectRoundTrip(pairs: seq<OKeyPair>, lay: Layout, rest: seq<char>)
    requires |pairs| > 0 && AllWellFormedPairs(pairs)
    ensures Object(Render(ObjectType(pairs), lay, rest)) == Ok(rest, ObjectType(pairs))
  {
    var body := RenderPairs(pairs, lay, Pad(lay.close, ['}'] + rest));
    assert Render(ObjectType(pairs), lay, rest) == ['{'] + Pad(lay.open, body);
    assert Stops(['}'] + rest) by {
      assert (['}'] + rest)[0] == '}' && LeadVariant('}') == None;
    }
    DocumentRoundTrip(pairs, lay, lay.close, ['}'] + rest);
    PairsNoWhitespace(pairs, lay, Pad(lay.close, ['}'] + rest));
    ObjectStep(lay.open, body, pairs, rest);
  }

  // ---------------------------------------------------------------------------
  // What the grammar rejects in printed text

  /** At `[` only the array alternative can succeed, so the dispatcher
      returns its result, error included. */
  lemma ArrayValueIsArray(s: seq<char>)
    requires StartsWith(s, '[')
    ensures Value(s) == Array(s)
  {
    ValueTriesInOrder(s);
    IntLead(s);
    StringLead(s);
    ObjectLead(s);
  }

  /** A printed array of one or more well-formed elements is accepted
      exactly when its elements share one variant; otherwise it fails with
      `OneOf` at the closing `]`. */
  lemma ArrayHomogeneity(items: seq<OType>, lay: Layout, rest: seq<char>)
    requires |items| > 0 && AllWellFormed(items)
    ensures Array(Render(ArrayType(items), lay, rest))
            == if Homogeneous(items) then Ok(rest, ArrayType(items)) else Err(ErrorKind.OneOf, [']'] + rest)
  {
    var body := Pad(lay.open, RenderItems(items, lay, Pad(lay.close, [']'] + rest)));
    assert Render(ArrayType(items), lay, rest) == ['['] + body;
    assert Stops([']'] + rest) by {
      assert ([']'] + rest)[0] == ']' && LeadVariant(']') == None;
    }
    ItemsRoundTrip(items, lay, lay.open, lay.close, [']'] + rest);
    ArrayStep(body, items, rest);
  }

  /** An array without elements fails with `NonEmpty`, reported at the
      whitespace after `[`, which the element loop gives back. */
  lemma EmptyArrayRejected(g: Gap, rest: seq<char>)
    ensures Value(['['] + Pad(g, [']'] + rest)) == Err(NonEmpty, Pad(g, [']'] + rest))
  {
    var body := Pad(g, [']'] + rest);
    NoItems(g, rest);
    NoItemsNoArray(body);
    ArrayValueIsArray(['['] + body);
  }

  /** The element loop takes nothing from whitespace and `]`. */
  lemma NoItems(g: Gap, rest: seq<char>)
    ensures ArrayItems(Pad(g, [']'] + rest)) == Ok(Pad(g, [']'] + rest), [])
  {
    var close := [']'] + rest;
    var s := Pad(g, close);
    assert close[0] == ']' && LeadVariant(']') == None;
    PadStripped(g, close);
    NoValueAtStop(close);
    CycleFails(s);
    NoCycleNoItems(s);
  }

  lemma NoCycleNoItems(s: seq<char>)
    requires ArrayCycle(s).Err?
    ensures ArrayItems(s) == Ok(s, [])
  {
  }

  /** `[` and no elements: `NonEmpty` where the elements should have been. */
  lemma NoItemsNoArray(body: seq<char>)
    requires ArrayItems(body) == Ok(body, [])
    ensures Array(['['] + body) == Err(NonEmpty, body)
  {
    TagPrefix(['['], body);
  }

  /** A printed name is passed through when it is an integer or a string,
      and rejected with `Permutation` just after it otherwise. */
  lemma NameRestriction(v: OType, lay: Layout, rest: seq<char>)
    requires WellFormed(v)
    requires v.IntType? ==> !StartsWithDigit(rest)
    ensures NameFilter(Render(v, lay, rest)) == if IsScalar(v) then Ok(rest, v) else Err(Permutation, rest)
  {
    ValueRoundTrip(v, lay, rest);
    NameFilterSpec(Render(v, lay, rest));
  }

  /** A document whose first name is an object or an array fails with
      `Permutation` at the `": "` after that name. */
  lemma NonScalarNameRejected(p: OKeyPair, lay: Layout, rest: seq<char>)
    requires WellFormed(p.name) && !IsScalar(p.name)
    ensures Document(RenderPair(p, lay, rest)) == Err(Permutation, ": " + Render(p.data, lay, [';'] + rest))
  {
    var s := RenderPair(p, lay, rest);
    NameRestriction(p.name, lay, ": " + Render(p.data, lay, [';'] + rest));
    DocumentFirstError(s);
  }
}
