/** Text typed on a virtual keyboard, and the keyboard that reads the events back. */
module TypeText {
  import opened Wrappers

  const LEFT_SHIFT: int := 42
  const RIGHT_SHIFT: int := 54

  datatype KeyEvent = Key(code: int, down: bool) | Sync

  predicate IsUpper(c: char) { 'A' <= c <= 'Z' }

  /** The key of a character and whether shift goes with it. */
  function Mapping(c: char): Option<(int, bool)> {
    match c
    case 'a' | 'A' => Some((30, IsUpper(c)))
    case 'b' | 'B' => Some((48, IsUpper(c)))
    case 'c' | 'C' => Some((46, IsUpper(c)))
    case 'd' | 'D' => Some((32, IsUpper(c)))
    case 'e' | 'E' => Some((18, IsUpper(c)))
    case 'f' | 'F' => Some((33, IsUpper(c)))
    case 'g' | 'G' => Some((34, IsUpper(c)))
    case 'h' | 'H' => Some((35, IsUpper(c)))
    case 'i' | 'I' => Some((23, IsUpper(c)))
    case 'j' | 'J' => Some((36, IsUpper(c)))
    case 'k' | 'K' => Some((37, IsUpper(c)))
    case 'l' | 'L' => Some((38, IsUpper(c)))
    case 'm' | 'M' => Some((50, IsUpper(c)))
    case 'n' | 'N' => Some((49, IsUpper(c)))
    case 'o' | 'O' => Some((24, IsUpper(c)))
    case 'p' | 'P' => Some((25, IsUpper(c)))
    case 'q' | 'Q' => Some((16, IsUpper(c)))
    case 'r' | 'R' => Some((19, IsUpper(c)))
    case 's' | 'S' => Some((31, IsUpper(c)))
    case 't' | 'T' => Some((20, IsUpper(c)))
    case 'u' | 'U' => Some((22, IsUpper(c)))
    case 'v' | 'V' => Some((47, IsUpper(c)))
    case 'w' | 'W' => Some((17, IsUpper(c)))
    case 'x' | 'X' => Some((45, IsUpper(c)))
    case 'y' | 'Y' => Some((21, IsUpper(c)))
    case 'z' | 'Z' => Some((44, IsUpper(c)))
    case '1' | '!' => Some((2, c == '!'))
    case '2' | '@' => Some((3, c == '@'))
    case '3' | '#' => Some((4, c == '#'))
    case '4' | '$' => Some((5, c == '$'))
    case '5' | '%' => Some((6, c == '%'))
    case '6' | '^' => Some((7, c == '^'))
    case '7' | '&' => Some((8, c == '&'))
    case '8' | '*' => Some((9, c == '*'))
    case '9' | '(' => Some((10, c == '('))
    case '0' | ')' => Some((11, c == ')'))
    case '-' | '_' => Some((12, c == '_'))
    case '=' | '+' => Some((13, c == '+'))
    case '[' | '{' => Some((26, c == '{'))
    case ']' | '}' => Some((27, c == '}'))
    case ';' | ':' => Some((39, c == ':'))
    case '\'' | '"' => Some((40, c == '"'))
    case '`' | '~' => Some((41, c == '~'))
    case '\\' | '|' => Some((43, c == '|'))
    case ',' | '<' => Some((51, c == '<'))
    case '.' | '>' => Some((52, c == '>'))
    case '/' | '?' => Some((53, c == '?'))
    case ' ' => Some((57, false))
    case '\n' => Some((28, false))
    case '\t' => Some((15, false))
    case _ => None
  }

  /** The virtual device, as the stream of events written to it. */
  class Keyboard {
    var written: seq<KeyEvent>

    constructor ()
      ensures written == []
    {
      written := [];
    }

    method Write(code: int, down: bool)
      modifies this
      ensures written == old(written) + [Key(code, down)]
    {
      written := written + [Key(code, down)];
    }

    method TypeChar(c: char)
      modifies this
      ensures written == old(written) + Strokes(c)
    {
      match Mapping(c)
      case None =>
      case Some((code, shift)) =>
        if shift { Write(LEFT_SHIFT, true); }
        Write(code, true);
        Write(code, false);
        if shift { Write(LEFT_SHIFT, false); }
        written := written + [Sync];
    }

    /** Whatever is typed, a keyboard with no key of the text and no shift held reads back its supported characters. */
    method Type(text: string)
      modifies this
      ensures written == old(written) + AllStrokes(text)
      ensures forall k: Reader :: Free(k, text) ==>
                Replay(k, written[|old(written)|..]) == k.(typed := k.typed + Supported(text))
    {
      hide Mapping, Strokes, Replay, Free;
      for i := 0 to |text|
        invariant written == old(written) + AllStrokes(text[..i])
      {
        assert text[..i + 1][..i] == text[..i];
        TypeChar(text[i]);
      }
      assert text[..|text|] == text;
      forall k: Reader | Free(k, text)
        ensures Replay(k, written[|old(written)|..]) == k.(typed := k.typed + Supported(text))
      {
        TypedTextReadsBack(k, text);
      }
    }
  }

  function Strokes(c: char): seq<KeyEvent> {
    match Mapping(c)
    case None => []
    case Some((code, shift)) =>
      (if shift then [Key(LEFT_SHIFT, true)] else [])
      + [Key(code, true)] + [Key(code, false)]
      + (if shift then [Key(LEFT_SHIFT, false)] else [])
      + [Sync]
  }

  function AllStrokes(text: string): seq<KeyEvent> {
    if text == [] then [] else AllStrokes(text[..|text| - 1]) + Strokes(text[|text| - 1])
  }

  // ----- The keyboard at the other end -----

  /** A row of keys with consecutive codes, as printed on them: below, and above with shift. */
  datatype Row = Row(first: int, below: string, above: string)

  /** The US layout, row by row. */
  const ROWS: seq<Row> := [
    Row(2, "1234567890-=", "!@#$%^&*()_+"),
    Row(15, "\tqwertyuiop[]\n", "\tQWERTYUIOP{}\n"),
    Row(30, "asdfghjkl;'`", "ASDFGHJKL:\"~"),
    Row(43, "\\zxcvbnm,./", "|ZXCVBNM<>?"),
    Row(57, " ", " ")]

  function Legend(code: int, shift: bool): Option<char> {
    LegendIn(if code < 15 then ROWS[0] else if code < 30 then ROWS[1] else if code < 43 then ROWS[2]
             else if code < 57 then ROWS[3] else ROWS[4], code, shift)
  }

  function LegendIn(r: Row, code: int, shift: bool): Option<char> {
    var k, keys := code - r.first, if shift then r.above else r.below;
    if 0 <= k < |keys| then Some(keys[k]) else None
  }

  /** A keyboard as it is read: the keys held down and the characters that have come of it. */
  datatype Reader = Reader(held: set<int>, typed: string)

  /** Pressing a held key or releasing a free one does nothing. */
  function Read(k: Reader, e: KeyEvent): Reader {
    match e
    case Sync => k
    case Key(code, false) => k.(held := k.held - {code})
    case Key(code, true) =>
      if code in k.held then k
      else
        var legend := Legend(code, LEFT_SHIFT in k.held || RIGHT_SHIFT in k.held);
        Reader(k.held + {code}, k.typed + if legend.Some? then [legend.value] else [])
  }

  function Replay(k: Reader, es: seq<KeyEvent>): Reader {
    if es == [] then k else Read(Replay(k, es[..|es| - 1]), es[|es| - 1])
  }

  function Supported(text: string): string {
    if text == [] then []
    else
      Supported(text[..|text| - 1])
      + if Mapping(text[|text| - 1]).Some? then [text[|text| - 1]] else []
  }

  /** Neither shift nor any key of the text is held. */
  predicate Free(k: Reader, text: string) {
    && LEFT_SHIFT !in k.held && RIGHT_SHIFT !in k.held
    && forall i :: 0 <= i < |text| && Mapping(text[i]).Some? ==> Mapping(text[i]).value.0 !in k.held
  }

  /** The table sends each character to the key and level that print it. */
  lemma MappingPrints(c: char)
    requires Mapping(c).Some?
    ensures Legend(Mapping(c).value.0, Mapping(c).value.1) == Some(c)
    ensures Mapping(c).value.0 != LEFT_SHIFT && Mapping(c).value.0 != RIGHT_SHIFT
  {
    var code := Mapping(c).value.0;
    if code < 15 { TopRowPrints(c); }
    else if code < 22 { UpperRowPrints(c); }
    else if code < 30 { UpperRowEndPrints(c); }
    else if code < 36 { HomeRowPrints(c); }
    else if code < 43 { HomeRowEndPrints(c); }
    else if code < 49 { LowerRowPrints(c); }
    else { LowerRowEndPrints(c); }
  }

  predicate Prints(c: char) {
    && Mapping(c).Some?
    && Legend(Mapping(c).value.0, Mapping(c).value.1) == Some(c)
    && Mapping(c).value.0 != LEFT_SHIFT && Mapping(c).value.0 != RIGHT_SHIFT
  }

  lemma TopRowPrints(c: char)
    requires Mapping(c).Some? && Mapping(c).value.0 < 15
    ensures Prints(c)
  {}

  lemma UpperRowPrints(c: char)
    requires Mapping(c).Some? && 15 <= Mapping(c).value.0 < 22
    ensures Prints(c)
  {}

  lemma UpperRowEndPrints(c: char)
    requires Mapping(c).Some? && 22 <= Mapping(c).value.0 < 30
    ensures Prints(c)
  {}

  lemma HomeRowPrints(c: char)
    requires Mapping(c).Some? && 30 <= Mapping(c).value.0 < 36
    ensures Prints(c)
  {}

  lemma HomeRowEndPrints(c: char)
    requires Mapping(c).Some? && 36 <= Mapping(c).value.0 < 43
    ensures Prints(c)
  {}

  lemma LowerRowPrints(c: char)
    requires Mapping(c).Some? && 43 <= Mapping(c).value.0 < 49
    ensures Prints(c)
  {}

  lemma LowerRowEndPrints(c: char)
    requires Mapping(c).Some? && 49 <= Mapping(c).value.0
    ensures Prints(c)
  {}

  /** No two characters share a key and level. */
  lemma MappingInjective(c: char, d: char)
    requires Mapping(c).Some? && Mapping(c) == Mapping(d)
    ensures c == d
  {
    MappingPrints(c);
    MappingPrints(d);
  }

  /** Exactly the printable ASCII characters, newline and tab can be typed. */
  lemma SupportedExactly(c: char)
    ensures Mapping(c).Some? <==> ' ' <= c <= '~' || c == '\n' || c == '\t'
  {
    if c < '0' { LowSupported(c); } else if c < '@' { DigitSupported(c); } else if c < 'a' { UpperSupported(c); }
    else if c < 'n' { LowerSupported(c); } else { LastSupported(c); }
  }

  lemma LowSupported(c: char)
    requires c < '0'
    ensures Mapping(c).Some? <==> ' ' <= c || c == '\n' || c == '\t'
  {}

  lemma DigitSupported(c: char)
    requires '0' <= c < '@'
    ensures Mapping(c).Some?
  {}

  lemma UpperSupported(c: char)
    requires '@' <= c < 'a'
    ensures Mapping(c).Some?
  {}

  lemma LowerSupported(c: char)
    requires 'a' <= c < 'n'
    ensures Mapping(c).Some?
  {}

  lemma LastSupported(c: char)
    requires 'n' <= c
    ensures Mapping(c).Some? <==> c <= '~'
  {}

  lemma ReplayOn(k: Reader, es: seq<KeyEvent>, e: KeyEvent)
    ensures Replay(k, es + [e]) == Read(Replay(k, es), e)
  {
    assert (es + [e])[..|es|] == es;
  }

  lemma {:induction false} ReplayBoth(k: Reader, a: seq<KeyEvent>, b: seq<KeyEvent>)
    ensures Replay(k, a + b) == Replay(Replay(k, a), b)
  {
    if b == [] {
      assert a + b == a;
    } else {
      ReplayBoth(k, a, b[..|b| - 1]);
      assert (a + b)[..|a + b| - 1] == a + b[..|b| - 1];
    }
  }

  lemma StrokesReadBack(k: Reader, c: char)
    requires LEFT_SHIFT !in k.held && RIGHT_SHIFT !in k.held && (Mapping(c).Some? ==> Mapping(c).value.0 !in k.held)
    ensures Replay(k, Strokes(c)) == k.(typed := k.typed + if Mapping(c).Some? then [c] else [])
  {
    if Mapping(c).Some? {
      MappingPrints(c);
      ShiftPrintsNothing();
      KeyReadsBack(k, Mapping(c).value.0, Mapping(c).value.1, c);
    }
  }

  lemma ShiftPrintsNothing()
    ensures Legend(LEFT_SHIFT, false) == None && Legend(LEFT_SHIFT, true) == None
  {}

  lemma KeyReadsBack(k: Reader, code: int, shift: bool, c: char)
    requires Mapping(c) == Some((code, shift)) && Legend(code, shift) == Some(c)
    requires code != LEFT_SHIFT && code != RIGHT_SHIFT
    requires LEFT_SHIFT !in k.held && RIGHT_SHIFT !in k.held && code !in k.held && Legend(LEFT_SHIFT, false) == None
    ensures Replay(k, Strokes(c)) == k.(typed := k.typed + [c])
  {
    hide Mapping, Legend;
    var down := if shift then k.held + {LEFT_SHIFT} else k.held;
    var k1 := k.(held := down);
    var k2 := Reader(down + {code}, k.typed + [c]);
    var k3 := Reader(down, k.typed + [c]);
    var e1 := if shift then [Key(LEFT_SHIFT, true)] else [];
    var e4 := if shift then [Key(LEFT_SHIFT, false)] else [];
    assert k.typed + [] == k.typed;
    assert down + {code} - {code} == down && k.held + {LEFT_SHIFT} - {LEFT_SHIFT} == k.held;
    if shift { ReplayOn(k, [], Key(LEFT_SHIFT, true)); }
    assert Replay(k, e1) == k1;
    ReplayOn(k, e1, Key(code, true));
    assert Replay(k, e1 + [Key(code, true)]) == k2;
    ReplayOn(k, e1 + [Key(code, true)], Key(code, false));
    var es := e1 + [Key(code, true)] + [Key(code, false)];
    assert Replay(k, es) == k3;
    if shift { ReplayOn(k, es, Key(LEFT_SHIFT, false)); } else { assert es + e4 == es; }
    assert Replay(k, es + e4) == k.(typed := k.typed + [c]);
    ReplayOn(k, es + e4, Sync);
  }

  /**
   Replaying what is typed gives exactly the supported characters, in order, and leaves held what was held before:
   from a released keyboard every key, shift included, is released at the end.
   */
  lemma {:induction false} TypedTextReadsBack(k: Reader, text: string)
    requires Free(k, text)
    ensures Replay(k, AllStrokes(text)) == k.(typed := k.typed + Supported(text))
  {
    if text != [] {
      var front, c := text[..|text| - 1], text[|text| - 1];
      TypedTextReadsBack(k, front);
      ReplayBoth(k, AllStrokes(front), Strokes(c));
      StrokesReadBack(k.(typed := k.typed + Supported(front)), c);
    }
  }

  /** A text of printable ASCII, newlines and tabs comes back whole. */
  lemma {:induction false} PlainTextSurvives(text: string)
    requires forall i :: 0 <= i < |text| ==> ' ' <= text[i] <= '~' || text[i] == '\n' || text[i] == '\t'
    ensures Supported(text) == text
    ensures Replay(Reader({}, []), AllStrokes(text)) == Reader({}, text)
  {
    hide Mapping, AllStrokes, Replay;
    if text != [] {
      PlainTextSurvives(text[..|text| - 1]);
      SupportedExactly(text[|text| - 1]);
      assert text == text[..|text| - 1] + [text[|text| - 1]];
    }
    TypedTextReadsBack(Reader({}, []), text);
    assert [] + text == text;
  }
}
