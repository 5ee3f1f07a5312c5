/** How the host finds a tool call in what the language model wrote. */
module ToolCall {
  import opened Wrappers

  const OPEN: string := "<call:"

  /** `Panics` is a slice whose end precedes its beginning. */
  datatype Outcome = NoCall | Call(name: string, args: string) | Panics

  /** The Unicode White_Space property. */
  predicate IsSpace(c: char) {
    var n := c as int;
    9 <= n <= 13 || n == 0x20 || n == 0x85 || n == 0xA0 || n == 0x1680 || 0x2000 <= n <= 0x200A
    || n == 0x2028 || n == 0x2029 || n == 0x202F || n == 0x205F || n == 0x3000
  }

  function TrimStart(s: string): string { if s != [] && IsSpace(s[0]) then TrimStart(s[1..]) else s }

  function TrimEnd(s: string): string { if s != [] && IsSpace(s[|s| - 1]) then TrimEnd(s[..|s| - 1]) else s }

  function Trim(s: string): string { TrimEnd(TrimStart(s)) }

  predicate OccursAt(s: string, p: string, i: int) { 0 <= i <= |s| - |p| && s[i..i + |p|] == p }

  predicate Occurs(s: string, p: string) { exists i :: 0 <= i <= |s| && OccursAt(s, p, i) }

  function FindFrom(s: string, p: string, i: nat): (r: Option<nat>)
    requires i <= |s|
    ensures r.Some? ==> i <= r.value && OccursAt(s, p, r.value) && forall j :: i <= j < r.value ==> !OccursAt(s, p, j)
    ensures r.None? ==> forall j :: i <= j ==> !OccursAt(s, p, j)
    decreases |s| - i
  {
    if OccursAt(s, p, i) then Some(i) else if i == |s| then None else FindFrom(s, p, i + 1)
  }

  /** The first occurrence. */
  function Find(s: string, p: string): Option<nat> { FindFrom(s, p, 0) }

  function CloseTag(name: string): string { "</call:" + name + ">" }

  function ParseToolCall(content: string): Outcome {
    match Find(content, OPEN)
    case None => NoCall
    case Some(start) =>
      var nameStart := start + |OPEN|;
      match Find(content[nameStart..], ">")
      case None => NoCall
      case Some(nameEnd) =>
        var name := Trim(content[nameStart..nameStart + nameEnd]);
        match Find(content, CloseTag(name))
        case None => NoCall
        case Some(close) =>
          if close < nameStart + nameEnd + 1 then Panics
          else Call(name, Trim(content[nameStart + nameEnd + 1..close]))
  }

  // ----- Searching and trimming -----

  lemma FoundFirst(s: string, p: string, k: nat)
    requires OccursAt(s, p, k) && forall j :: 0 <= j < k ==> !OccursAt(s, p, j)
    ensures Find(s, p) == Some(k)
  {}

  predicate AllSpace(s: string) { forall i :: 0 <= i < |s| ==> IsSpace(s[i]) }

  lemma TrimStartParts(s: string) returns (l: string)
    ensures s == l + TrimStart(s) && AllSpace(l) && (TrimStart(s) != [] ==> !IsSpace(TrimStart(s)[0]))
  {
    if s != [] && IsSpace(s[0]) {
      l := TrimStartParts(s[1..]);
      l := [s[0]] + l;
    } else {
      l := [];
    }
  }

  lemma TrimEndParts(s: string) returns (r: string)
    ensures s == TrimEnd(s) + r && AllSpace(r)
    ensures TrimEnd(s) != [] ==> !IsSpace(TrimEnd(s)[|TrimEnd(s)| - 1]) && TrimEnd(s)[0] == s[0]
  {
    if s != [] && IsSpace(s[|s| - 1]) {
      r := TrimEndParts(s[..|s| - 1]);
      r := r + [s[|s| - 1]];
    } else {
      r := [];
    }
  }

  predicate Trimmed(s: string) { s != [] ==> !IsSpace(s[0]) && !IsSpace(s[|s| - 1]) }

  lemma TrimParts(s: string) returns (l: string, r: string)
    ensures s == l + Trim(s) + r && AllSpace(l) && AllSpace(r) && Trimmed(Trim(s))
    ensures Trim(s) == [] ==> r == []
  {
    l := TrimStartParts(s);
    r := TrimEndParts(TrimStart(s));
    if Trim(s) == [] {
      assert TrimStart(s) == r;
      assert r == [];
    }
  }

  /** Trimming is what stands between the outermost characters that are not blank. */
  lemma TrimMeaning(l: string, s: string, r: string)
    requires AllSpace(l) && AllSpace(r) && Trimmed(s)
    ensures Trim(l + s + r) == s
  {
    TrimStartSpaces(l, s + r);
    assert l + s + r == l + (s + r);
    if s == [] {
      TrimStartSpaces(r, []);
      assert r + [] == r && s + r == r;
    } else {
      assert TrimStart(s + r) == s + r;
      TrimEndSpaces(s, r);
      assert TrimEnd(s) == s;
    }
  }

  lemma TrimStartSpaces(l: string, s: string)
    requires AllSpace(l)
    ensures TrimStart(l + s) == TrimStart(s)
  {
    if l == [] {
      assert l + s == s;
    } else {
      assert (l + s)[1..] == l[1..] + s;
      TrimStartSpaces(l[1..], s);
    }
  }

  lemma TrimEndSpaces(s: string, r: string)
    requires AllSpace(r)
    ensures TrimEnd(s + r) == TrimEnd(s)
  {
    if r == [] {
      assert s + r == s;
    } else {
      assert (s + r)[..|s + r| - 1] == s + r[..|r| - 1];
      TrimEndSpaces(s, r[..|r| - 1]);
    }
  }

  /** Of ASCII, the space and the controls 9 to 13 are blank, and nothing else is. */
  lemma AsciiBlanks(c: char)
    requires c as int < 128
    ensures IsSpace(c) <==> c == ' ' || c == '\t' || c == '\n' || c == '\r' || c as int == 11 || c as int == 12
  {}

  lemma TrimTrimmed(s: string)
    requires Trimmed(s)
    ensures Trim(s) == s
  {}

  // ----- Where a closing tag can be -----

  /** The first opening tag is at `start`, and the first `>` after it ends it at `gt`. */
  predicate Opened(content: string, start: int, gt: int) {
    && OccursAt(content, OPEN, start) && (forall j :: 0 <= j < start ==> !OccursAt(content, OPEN, j))
    && start + |OPEN| <= gt < |content| && content[gt] == '>'
    && forall j :: start + |OPEN| <= j < gt ==> content[j] != '>'
  }

  function RawName(content: string, start: int, gt: int): string
    requires Opened(content, start, gt)
  {
    content[start + |OPEN|..gt]
  }

  function Closing(content: string, start: int, gt: int): string
    requires Opened(content, start, gt)
  {
    CloseTag(Trim(RawName(content, start, gt)))
  }

  lemma AtIndex(s: string, p: string, i: int, k: int)
    requires OccursAt(s, p, i) && 0 <= k < |p|
    ensures s[i + k] == p[k]
  {
    assert s[i..i + |p|][k] == s[i + k];
  }

  lemma OneGt(name: string, k: int)
    requires '>' !in name && 0 <= k < |CloseTag(name)|
    ensures CloseTag(name)[k] == '>' <==> k == |CloseTag(name)| - 1
  {
    if 7 <= k < 7 + |name| { assert CloseTag(name)[k] == name[k - 7]; }
  }

  lemma CloseTagsApart(s: string, name: string, i: int, j: int)
    requires '>' !in name && OccursAt(s, CloseTag(name), i) && OccursAt(s, CloseTag(name), j)
    ensures i == j || i + |CloseTag(name)| <= j || j + |CloseTag(name)| <= i
  {
    var n := |CloseTag(name)| - 1;
    AtIndex(s, CloseTag(name), i, n);
    AtIndex(s, CloseTag(name), j, n);
    OneGt(name, n);
    if i < j <= i + n { OneGt(name, i + n - j); AtIndex(s, CloseTag(name), j, i + n - j); }
    if j < i <= j + n { OneGt(name, j + n - i); AtIndex(s, CloseTag(name), i, j + n - i); }
  }

  lemma CloseTagAt(s: string, name: string, i: int)
    requires OccursAt(s, CloseTag(name), i)
    ensures s[i] == '<' && s[i + 1] == '/' && s[i + 6] == ':' && s[i + 7 + |name|] == '>'
    ensures s[i + 7..i + 7 + |name|] == name
  {
    var t := CloseTag(name);
    assert forall k :: 0 <= k < |t| ==> s[i + k] == t[k];
    assert t[7..7 + |name|] == name;
    assert s[i..i + |t|][7..7 + |name|] == s[i + 7..i + 7 + |name|];
  }

  lemma OpenAt(s: string, i: int)
    requires OccursAt(s, OPEN, i)
    ensures s[i] == '<' && forall k :: i <= k < i + |OPEN| ==> s[k] != '>'
  {
    assert forall k :: 0 <= k < |OPEN| ==> s[i + k] == OPEN[k] && OPEN[k] != '>';
    forall k | i <= k < i + |OPEN| ensures s[k] != '>' { assert s[i + (k - i)] == OPEN[k - i]; }
  }

  lemma NameHasNoGt(content: string, start: int, gt: int)
    requires Opened(content, start, gt)
    ensures '>' !in Trim(RawName(content, start, gt))
  {
    var raw := RawName(content, start, gt);
    var l, r := TrimParts(raw);
    forall k | 0 <= k < |Trim(raw)| ensures Trim(raw)[k] != '>' {
      assert raw[|l| + k] == Trim(raw)[k];
      assert raw[|l| + k] == content[start + |OPEN| + |l| + k];
    }
  }

  predicate BlankAt(s: string, i: int) { 0 <= i < |s| && IsSpace(s[i]) }

  predicate SameLast(a: string, b: string) { a != [] && b != [] && a[|a| - 1] == b[|b| - 1] }

  /** Where a name trimmed on the left ends the raw one, a blank stands before it. */
  lemma BlankBefore(raw: string, l: string, name: string, r: string)
    ensures raw == l + name + r && AllSpace(l) && AllSpace(r) && Trimmed(name) && (name == [] ==> r == [])
            && (name != [] ==> SameLast(raw, name)) && |raw| > |name|
            ==> BlankAt(raw, |raw| - |name| - 1)
  {
    LastOfBoth(l + name, r);
  }

  lemma LastOfBoth(a: string, b: string)
    ensures b != [] ==> (a + b)[|a| + |b| - 1] == b[|b| - 1]
  {}

  lemma SlicesEndAlike(s: string, a: int, b: int, g: int)
    ensures 0 <= a < g <= |s| && 0 <= b < g ==> SameLast(s[a..g], s[b..g])
  {}

  /** A slice that trims to what stands right before its end, after no blank, is that. */
  lemma NothingTrimmed(s: string, a: int, b: int, g: int, l: string, r: string)
    ensures 0 <= a <= g <= |s| && 0 < b <= g && !BlankAt(s, b - 1)
            && s[a..g] == l + s[b..g] + r && AllSpace(l) && AllSpace(r)
            && Trimmed(s[b..g]) && (s[b..g] == [] ==> r == [])
            ==> a == b
  {
    SlicesEndAlike(s, a, b, g);
    if 0 <= a <= g <= |s| && 0 < b <= g {
      BlankBefore(s[a..g], l, s[b..g], r);
    }
  }

  /** A closing tag does not share its `>` with the opening tag. */
  lemma NotSameGt(content: string, start: int, gt: int, i: int)
    requires Opened(content, start, gt) && OccursAt(content, Closing(content, start, gt), i)
    ensures i + |Closing(content, start, gt)| - 1 != gt
  {
    var name := Trim(RawName(content, start, gt));
    var l, r := TrimParts(RawName(content, start, gt));
    CloseTagAt(content, name, i);
    OpenAt(content, start);
    hide Trim, OccursAt;
    NothingTrimmed(content, start + |OPEN|, i + 7, gt, l, r);
  }

  /** A closing tag lies wholly before the opening one, or wholly after it. */
  lemma ClosingApart(content: string, start: int, gt: int, i: int)
    requires Opened(content, start, gt) && OccursAt(content, Closing(content, start, gt), i)
    ensures i + |Closing(content, start, gt)| <= start || gt < i
  {
    var name := Trim(RawName(content, start, gt));
    var e := i + 7 + |name|;
    CloseTagAt(content, name, i);
    OpenAt(content, start);
    NotSameGt(content, start, gt, i);
    NameHasNoGt(content, start, gt);
    if i <= gt < e {
      OneGt(name, gt - i);
      AtIndex(content, CloseTag(name), i, gt - i);
    }
  }

  // ----- What parsing does -----

  lemma GtFound(content: string, nameStart: nat, k: nat)
    requires nameStart <= |content|
    ensures OccursAt(content[nameStart..], ">", k) <==> nameStart + k < |content| && content[nameStart + k] == '>'
  {
    var rest := content[nameStart..];
    if k < |rest| { assert rest[k..k + 1] == [rest[k]]; }
  }

  lemma ParseOpened(content: string, start: int, gt: int)
    requires Opened(content, start, gt)
    ensures var close := Find(content, Closing(content, start, gt));
            ParseToolCall(content)
            == if close.None? then NoCall
               else if close.value <= gt then Panics
               else Call(Trim(RawName(content, start, gt)), Trim(content[gt + 1..close.value]))
  {
    hide Trim, CloseTag;
    FoundFirst(content, OPEN, start);
    var nameStart := start + |OPEN|;
    forall k: nat | k <= gt - nameStart ensures OccursAt(content[nameStart..], ">", k) <==> k == gt - nameStart {
      GtFound(content, nameStart, k);
    }
    FoundFirst(content[nameStart..], ">", gt - nameStart);
  }

  lemma ParseOpens(content: string) returns (start: int, gt: int)
    requires !ParseToolCall(content).NoCall?
    ensures Opened(content, start, gt)
  {
    start := Find(content, OPEN).value;
    var nameStart := start + |OPEN|;
    var nameEnd := Find(content[nameStart..], ">").value;
    gt := nameStart + nameEnd;
    forall j | nameStart <= j <= gt ensures content[j] == '>' <==> j == gt {
      GtFound(content, nameStart, j - nameStart);
    }
  }

  // ----- Texts taken apart -----

  /** The text up to its first opening tag, the name in the tag as written, and the rest. */
  predicate Begins(content: string, prefix: string, raw: string, rest: string) {
    content == prefix + OPEN + raw + ">" + rest && !Occurs(prefix, OPEN) && '>' !in raw
  }

  /** The rest holds the arguments as written, then the first closing tag of the whole text. */
  predicate Rendered(content: string, prefix: string, raw: string, args: string, suffix: string) {
    var close := CloseTag(Trim(raw));
    Begins(content, prefix, raw, args + close + suffix) && !Occurs(prefix, close) && !Occurs(args, close)
  }

  lemma OccursInside(s: string, p: string, a: int, b: int, i: int)
    requires 0 <= a <= b <= |s| && 0 <= i <= b - a - |p|
    ensures OccursAt(s[a..b], p, i) <==> OccursAt(s, p, a + i)
  {
    var inner, outer := s[a..b][i..i + |p|], s[a + i..a + i + |p|];
    assert forall k :: 0 <= k < |p| ==> inner[k] == outer[k];
    assert inner == outer;
  }

  lemma BeginsOpened(content: string, prefix: string, raw: string, rest: string)
    requires Begins(content, prefix, raw, rest)
    ensures var start, gt := |prefix|, |prefix| + |OPEN| + |raw|;
            && Opened(content, start, gt) && RawName(content, start, gt) == raw
            && content[..start] == prefix && content[gt + 1..] == rest
  {
    var start, gt := |prefix|, |prefix| + |OPEN| + |raw|;
    assert content[..start] == prefix && content[start..start + |OPEN|] == OPEN && content[start + |OPEN|..gt] == raw;
    assert content[gt] == '>' && content[gt + 1..] == rest;
    forall j | 0 <= j < start ensures !OccursAt(content, OPEN, j) {
      if OccursAt(content, OPEN, j) {
        AtIndex(content, OPEN, start, 0);
        if j + |OPEN| <= start {
          OccursInside(content, OPEN, 0, start, j);
        } else {
          AtIndex(content, OPEN, j, start - j);
        }
      }
    }
    forall j | start + |OPEN| <= j < gt ensures content[j] != '>' {
      assert content[j] == raw[j - start - |OPEN|];
    }
  }

  lemma OpenedBegins(content: string, start: int, gt: int)
    requires Opened(content, start, gt)
    ensures Begins(content, content[..start], RawName(content, start, gt), content[gt + 1..])
  {
    var prefix := content[..start];
    assert content == prefix + content[start..start + |OPEN|] + content[start + |OPEN|..gt] + [content[gt]]
                      + content[gt + 1..];
    forall j | 0 <= j <= |prefix| ensures !OccursAt(prefix, OPEN, j) {
      if OccursAt(prefix, OPEN, j) { OccursInside(content, OPEN, 0, start, j); }
    }
  }

  /** The closing tag after the arguments is the first of the whole text. */
  lemma RenderedCloses(content: string, prefix: string, raw: string, args: string, suffix: string)
    requires Rendered(content, prefix, raw, args, suffix)
    ensures var start, gt := |prefix|, |prefix| + |OPEN| + |raw|;
            && Opened(content, start, gt) && RawName(content, start, gt) == raw
            && Find(content, CloseTag(Trim(raw))) == Some(gt + 1 + |args|) && content[gt + 1..gt + 1 + |args|] == args
  {
    var start, gt := |prefix|, |prefix| + |OPEN| + |raw|;
    var close := CloseTag(Trim(raw));
    BeginsOpened(content, prefix, raw, args + close + suffix);
    var c := gt + 1 + |args|;
    assert content[gt + 1..c] == args && content[c..c + |close|] == close;
    forall j | 0 <= j < c ensures !OccursAt(content, close, j) {
      if OccursAt(content, close, j) { NoneBefore(content, start, gt, c, j); }
    }
    FoundFirst(content, close, c);
  }

  lemma NoneBefore(content: string, start: int, gt: int, c: int, j: int)
    requires Opened(content, start, gt) && gt < c <= |content| && OccursAt(content, Closing(content, start, gt), c)
    requires !Occurs(content[..start], Closing(content, start, gt))
    requires !Occurs(content[gt + 1..c], Closing(content, start, gt))
    requires OccursAt(content, Closing(content, start, gt), j)
    ensures c <= j
  {
    var close := Closing(content, start, gt);
    ClosingApart(content, start, gt, j);
    NameHasNoGt(content, start, gt);
    CloseTagsApart(content, Trim(RawName(content, start, gt)), c, j);
    if j + |close| <= start {
      OccursInside(content, close, 0, start, j);
    } else if j + |close| <= c {
      OccursInside(content, close, gt + 1, c, j - gt - 1);
    }
  }

  /**
   Parsing finds a call exactly when the text has that shape: any text before the first opening tag, the name with
   any blanks around it, the arguments with any blanks around them, the closing tag of the name, which occurs
   neither before nor in the arguments, and any text after it.
   */
  lemma ParsesExactly(content: string, name: string, args: string)
    ensures ParseToolCall(content) == Call(name, args) <==>
              exists prefix, raw, rawArgs, suffix ::
                Rendered(content, prefix, raw, rawArgs, suffix) && name == Trim(raw) && args == Trim(rawArgs)
  {
    hide Rendered, ParseToolCall, Trim;
    if prefix, raw, rawArgs, suffix :|
      Rendered(content, prefix, raw, rawArgs, suffix) && name == Trim(raw) && args == Trim(rawArgs)
    {
      RenderedParses(content, prefix, raw, rawArgs, suffix);
    }
    if ParseToolCall(content) == Call(name, args) {
      var prefix, raw, rawArgs, suffix := CallTakenApart(content);
    }
  }

  lemma RenderedParses(content: string, prefix: string, raw: string, args: string, suffix: string)
    requires Rendered(content, prefix, raw, args, suffix)
    ensures ParseToolCall(content) == Call(Trim(raw), Trim(args))
  {
    hide Rendered, ParseToolCall, Trim, Find, OccursAt;
    RenderedCloses(content, prefix, raw, args, suffix);
    ParseOpened(content, |prefix|, |prefix| + |OPEN| + |raw|);
  }

  lemma CallTakenApart(content: string) returns (prefix: string, raw: string, args: string, suffix: string)
    requires ParseToolCall(content).Call?
    ensures Rendered(content, prefix, raw, args, suffix) && ParseToolCall(content) == Call(Trim(raw), Trim(args))
  {
    hide Rendered, ParseToolCall, Trim;
    var start, gt := ParseOpens(content);
    ParseOpened(content, start, gt);
    var close := Closing(content, start, gt);
    var c := Find(content, close).value;
    CallIsRendered(content, start, gt, c);
    prefix, raw := content[..start], RawName(content, start, gt);
    args, suffix := content[gt + 1..c], content[c + |close|..];
  }

  lemma CallIsRendered(content: string, start: int, gt: int, c: nat)
    requires Opened(content, start, gt) && Find(content, Closing(content, start, gt)) == Some(c) && gt < c
    ensures Rendered(content, content[..start], RawName(content, start, gt), content[gt + 1..c],
                     content[c + |Closing(content, start, gt)|..])
  {
    var close := Closing(content, start, gt);
    OpenedBegins(content, start, gt);
    assert content[gt + 1..] == content[gt + 1..c] + content[c..c + |close|] + content[c + |close|..];
    forall j | 0 <= j <= start ensures !OccursAt(content[..start], close, j) {
      if OccursAt(content[..start], close, j) { OccursInside(content, close, 0, start, j); }
    }
    var args := content[gt + 1..c];
    forall j | 0 <= j <= |args| ensures !OccursAt(args, close, j) {
      if OccursAt(args, close, j) { OccursInside(content, close, gt + 1, c, j); }
    }
  }

  /** Parsing panics exactly when the closing tag of the first name already stands before its opening tag. */
  lemma PanicsExactly(content: string)
    ensures ParseToolCall(content).Panics? <==>
              exists prefix, raw, rest :: Begins(content, prefix, raw, rest) && Occurs(prefix, CloseTag(Trim(raw)))
  {
    hide Begins, ParseToolCall, Trim, Occurs;
    if prefix, raw, rest :| Begins(content, prefix, raw, rest) && Occurs(prefix, CloseTag(Trim(raw))) {
      ClosedTooSoon(content, prefix, raw, rest);
    }
    if ParseToolCall(content).Panics? {
      var prefix, raw, rest := PanicTakenApart(content);
    }
  }

  lemma ClosedTooSoon(content: string, prefix: string, raw: string, rest: string)
    requires Begins(content, prefix, raw, rest) && Occurs(prefix, CloseTag(Trim(raw)))
    ensures ParseToolCall(content).Panics?
  {
    hide Begins, ParseToolCall, Trim;
    var close := CloseTag(Trim(raw));
    BeginsOpened(content, prefix, raw, rest);
    ParseOpened(content, |prefix|, |prefix| + |OPEN| + |raw|);
    var i :| 0 <= i <= |prefix| && OccursAt(prefix, close, i);
    OccursInside(content, close, 0, |prefix|, i);
  }

  lemma PanicTakenApart(content: string) returns (prefix: string, raw: string, rest: string)
    requires ParseToolCall(content).Panics?
    ensures Begins(content, prefix, raw, rest) && Occurs(prefix, CloseTag(Trim(raw)))
  {
    hide Begins, ParseToolCall, Trim;
    var start, gt := ParseOpens(content);
    ParseOpened(content, start, gt);
    var close := Closing(content, start, gt);
    var c := Find(content, close).value;
    ClosingApart(content, start, gt, c);
    OccursInside(content, close, 0, start, c);
    OpenedBegins(content, start, gt);
    prefix, raw, rest := content[..start], RawName(content, start, gt), content[gt + 1..];
  }

  /** A text that parsing panics on. */
  lemma ClosingFirstPanics()
    ensures ParseToolCall("</call:a>" + OPEN + "a" + ">" + "x").Panics?
  {
    var prefix, raw := "</call:a>", "a";
    TrimTrimmed(raw);
    assert prefix == CloseTag(raw);
    assert OccursAt(prefix, CloseTag(raw), 0);
    forall j | 0 <= j <= |prefix| ensures !OccursAt(prefix, OPEN, j) {
      if OccursAt(prefix, OPEN, j) {
        AtIndex(prefix, OPEN, j, 0);
        AtIndex(prefix, OPEN, j, 1);
      }
    }
    assert Begins(prefix + OPEN + raw + ">" + "x", prefix, raw, "x");
    ClosedTooSoon(prefix + OPEN + raw + ">" + "x", prefix, raw, "x");
  }

  /** Parsing undoes rendering. */
  lemma ParsingUndoesRendering(prefix: string, name: string, args: string, suffix: string)
    requires !Occurs(prefix, OPEN) && '>' !in name && Trimmed(name) && Trimmed(args)
    requires !Occurs(prefix, CloseTag(name)) && !Occurs(args, CloseTag(name))
    ensures ParseToolCall(prefix + OPEN + name + ">" + args + CloseTag(name) + suffix) == Call(name, args)
  {
    var content := prefix + OPEN + name + ">" + args + CloseTag(name) + suffix;
    TrimTrimmed(name);
    TrimTrimmed(args);
    assert content == prefix + OPEN + name + ">" + (args + CloseTag(name) + suffix);
    assert Rendered(content, prefix, name, args, suffix);
    ParsesExactly(content, name, args);
  }
}
