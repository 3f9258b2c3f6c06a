/** The command-line splitter of the SFTP shell, and the quoting it inverts. */
module SplitArgs {
  import opened Common
  import opened Utf8

  const DQ: byte := 34
  const SQ: byte := 39
  const SPACE: byte := 32
  const TAB: byte := 9

  /** Text as characters; a byte pushed `as char` is the character with that code. */
  type text = seq<scalar>

  // ---- The scanner as a fold --------------------------------------------------------------

  datatype Scanner = Scanner(args: seq<text>, current: text, quote: Option<byte>)

  const FRESH: Scanner := Scanner([], [], None)

  function Flush(s: Scanner): Scanner {
    if s.current == [] then s else s.(args := s.args + [s.current], current := [])
  }

  function Step(s: Scanner, c: byte): Scanner {
    if s.quote.Some? then
      if c == s.quote.value then s.(quote := None) else s.(current := s.current + [c])
    else if c == DQ || c == SQ then s.(quote := Some(c))
    else if c == SPACE || c == TAB then Flush(s)
    else s.(current := s.current + [c])
  }

  function Scan(s: Scanner, line: seq<byte>): Scanner
    decreases |line|
  {
    if line == [] then s else Step(Scan(s, line[..|line| - 1]), line[|line| - 1])
  }

  function Split(line: seq<byte>): seq<text> { Flush(Scan(FRESH, line)).args }

  /** `split_args`. */
  method SplitLine(line: seq<byte>) returns (args: seq<text>)
    ensures args == Split(line)
  {
    args := [];
    var current: text := [];
    var inQuote, quoteChar := false, 0 as byte;
    for i := 0 to |line|
      invariant Scan(FRESH, line[..i]) == Scanner(args, current, if inQuote then Some(quoteChar) else None)
    {
      assert line[..i + 1][..i] == line[..i];
      var c := line[i];
      if inQuote {
        if c == quoteChar {
          inQuote := false;
        } else {
          current := current + [c];
        }
      } else if c == DQ || c == SQ {
        inQuote := true;
        quoteChar := c;
      } else if c == SPACE || c == TAB {
        if current != [] {
          args, current := args + [current], [];
        }
      } else {
        current := current + [c];
      }
    }
    assert line[..|line|] == line;
    if current != [] {
      args := args + [current];
    }
  }

  // ---- The language it reads --------------------------------------------------------------

  /** A space or a tab. */
  predicate IsBlank(c: byte) { c == 32 || c == 9 }

  /** A word is a run of segments: bare characters, or anything but the mark between two marks. */
  datatype Segment = Bare(text: seq<byte>) | Quoted(mark: byte, text: seq<byte>)

  /** A double or a single quotation mark. */
  predicate IsMark(c: byte) { c == 34 || c == 39 }

  predicate SegmentOk(g: Segment) {
    match g
    case Bare(t) => forall i :: 0 <= i < |t| ==> !IsMark(t[i]) && !IsBlank(t[i])
    case Quoted(mark, t) => IsMark(mark) && mark !in t
  }

  predicate WordOk(word: seq<Segment>) { forall i :: 0 <= i < |word| ==> SegmentOk(word[i]) }

  function PrintSegment(g: Segment): seq<byte> {
    if g.Bare? then g.text else [g.mark] + g.text + [g.mark]
  }

  function PrintWord(word: seq<Segment>): seq<byte>
    decreases |word|
  {
    if word == [] then [] else PrintWord(word[..|word| - 1]) + PrintSegment(word[|word| - 1])
  }

  function WordValue(word: seq<Segment>): seq<byte>
    decreases |word|
  {
    if word == [] then [] else WordValue(word[..|word| - 1]) + word[|word| - 1].text
  }

  /** Words, each followed by blanks; the blanks after the last word may be missing. */
  datatype Item = Item(word: seq<Segment>, gap: seq<byte>)

  predicate Blanks(gap: seq<byte>) { forall i :: 0 <= i < |gap| ==> IsBlank(gap[i]) }

  predicate ItemsOk(items: seq<Item>) {
    forall i :: 0 <= i < |items| ==> WordOk(items[i].word) && Blanks(items[i].gap) && (i < |items| - 1 ==> items[i].gap != [])
  }

  function PrintItems(items: seq<Item>): seq<byte>
    decreases |items|
  {
    if items == [] then []
    else PrintItems(items[..|items| - 1]) + PrintWord(items[|items| - 1].word) + items[|items| - 1].gap
  }

  /** The values of the words, without the empty ones. */
  function Values(items: seq<Item>): seq<text>
    decreases |items|
  {
    if items == [] then []
    else
      var v := WordValue(items[|items| - 1].word);
      Values(items[..|items| - 1]) + if v == [] then [] else [Latin1(v)]
  }

  function Latin1(b: seq<byte>): (t: text)
    ensures |t| == |b| && forall i :: 0 <= i < |b| ==> t[i] == b[i]
  {
    seq(|b|, i requires 0 <= i < |b| => b[i])
  }

  // ---- Scanning what was printed ----------------------------------------------------------

  lemma {:induction false} ScanAppend(s: Scanner, a: seq<byte>, b: seq<byte>)
    ensures Scan(s, a + b) == Scan(Scan(s, a), b)
    decreases |b|
  {
    if b == [] {
      assert a + b == a;
    } else {
      assert (a + b)[..|a + b| - 1] == a + b[..|b| - 1];
      ScanAppend(s, a, b[..|b| - 1]);
    }
  }

  lemma ScanOne(s: Scanner, c: byte)
    ensures Scan(s, [c]) == Step(s, c)
  {
    assert [c][..0] == [];
  }

  /** Characters that are neither marks nor blanks here are collected. */
  lemma {:induction false} ScanPlain(s: Scanner, t: seq<byte>)
    requires forall i :: 0 <= i < |t| ==>
      if s.quote.Some? then t[i] != s.quote.value else t[i] != DQ && t[i] != SQ && !IsBlank(t[i])
    ensures Scan(s, t) == s.(current := s.current + Latin1(t))
    decreases |t|
  {
    if t != [] {
      ScanPlain(s, t[..|t| - 1]);
      assert Latin1(t) == Latin1(t[..|t| - 1]) + [t[|t| - 1]];
    }
  }

  lemma ScanSegment(s: Scanner, g: Segment)
    requires s.quote.None? && SegmentOk(g)
    ensures Scan(s, PrintSegment(g)) == s.(current := s.current + Latin1(g.text))
  {
    if g.Bare? {
      ScanPlain(s, g.text);
    } else {
      ScanAppend(s, [g.mark] + g.text, [g.mark]);
      ScanAppend(s, [g.mark], g.text);
      ScanOne(s, g.mark);
      var t := s.(quote := Some(g.mark));
      ScanPlain(t, g.text);
      ScanOne(t.(current := t.current + Latin1(g.text)), g.mark);
    }
  }

  lemma Latin1Append(t: text, a: seq<byte>, b: seq<byte>)
    ensures t + Latin1(a) + Latin1(b) == t + Latin1(a + b)
  {
  }

  lemma {:induction false} ScanWord(s: Scanner, word: seq<Segment>)
    requires s.quote.None? && WordOk(word)
    ensures Scan(s, PrintWord(word)) == s.(current := s.current + Latin1(WordValue(word)))
    decreases |word|
  {
    if word != [] {
      var before, g := word[..|word| - 1], word[|word| - 1];
      ScanWord(s, before);
      ScanAppend(s, PrintWord(before), PrintSegment(g));
      ScanSegment(s.(current := s.current + Latin1(WordValue(before))), g);
      Latin1Append(s.current, WordValue(before), g.text);
    }
  }

  lemma {:induction false} ScanBlanks(s: Scanner, gap: seq<byte>)
    requires s.quote.None? && Blanks(gap)
    ensures Scan(s, gap) == if gap == [] then s else Flush(s)
    decreases |gap|
  {
    if gap != [] {
      ScanBlanks(s, gap[..|gap| - 1]);
    }
  }

  /** The scanner between items: all complete words are out. */
  lemma {:induction false} ScanItems(items: seq<Item>)
    requires ItemsOk(items)
    ensures var s := Scan(FRESH, PrintItems(items));
      s.quote.None? && Flush(s) == Scanner(Values(items), [], None)
      && (items != [] && items[|items| - 1].gap != [] ==> s.current == []) && (items == [] ==> s.current == [])
    decreases |items|
  {
    if items != [] {
      var before, item := items[..|items| - 1], items[|items| - 1];
      ScanItems(before);
      assert before != [] ==> before[|before| - 1] == items[|items| - 2];
      ScanItem(Scan(FRESH, PrintItems(before)), PrintItems(before), item);
    }
  }

  lemma ScanPrinted(s: Scanner, printed: seq<byte>, word: seq<Segment>)
    requires s == Scan(FRESH, printed) && s.quote.None? && s.current == [] && WordOk(word)
    ensures Scan(FRESH, printed + PrintWord(word)) == s.(current := Latin1(WordValue(word)))
  {
    ScanAppend(FRESH, printed, PrintWord(word));
    ScanWord(s, word);
    assert [] + Latin1(WordValue(word)) == Latin1(WordValue(word));
  }

  lemma FlushValue(s: Scanner, v: seq<byte>)
    requires s.quote.None? && s.current == []
    ensures Flush(s.(current := Latin1(v))) == Scanner(s.args + (if v == [] then [] else [Latin1(v)]), [], None)
    ensures Flush(Flush(s.(current := Latin1(v)))) == Flush(s.(current := Latin1(v)))
  {
  }

  lemma ScanItem(s: Scanner, printed: seq<byte>, item: Item)
    requires s == Scan(FRESH, printed) && s.quote.None? && s.current == []
    requires WordOk(item.word) && Blanks(item.gap)
    ensures var t, v := Scan(FRESH, printed + PrintWord(item.word) + item.gap), WordValue(item.word);
      && t.quote.None? && (item.gap != [] ==> t.current == [])
      && Flush(t) == Scanner(s.args + (if v == [] then [] else [Latin1(v)]), [], None)
  {
    var v := WordValue(item.word);
    ScanPrinted(s, printed, item.word);
    ScanAppend(FRESH, printed + PrintWord(item.word), item.gap);
    ScanBlanks(s.(current := Latin1(v)), item.gap);
    FlushValue(s, v);
  }

  /** Every way of writing words, with any mix of quoting and blanks, is read back; only empty
      words are lost. */
  lemma SplitInvertsPrinting(items: seq<Item>)
    requires ItemsOk(items)
    ensures Split(PrintItems(items)) == Values(items)
  {
    ScanItems(items);
  }

  // ---- A printer for any list of arguments ------------------------------------------------

  /** Each character between marks: a double quote between single ones, anything else between
      double ones. */
  function Quoting(arg: text): seq<Segment>
    decreases |arg|
  {
    if arg == [] then []
    else
      var c := arg[|arg| - 1];
      Quoting(arg[..|arg| - 1]) + [Quoted(if c == DQ as int then SQ else DQ, Encode(c))]
  }

  lemma {:induction false} QuotingOk(arg: text)
    ensures WordOk(Quoting(arg)) && WordValue(Quoting(arg)) == EncodeAll(arg)
    decreases |arg|
  {
    if arg != [] {
      var before, c := arg[..|arg| - 1], arg[|arg| - 1];
      QuotingOk(before);
      MarkIsAbsent(c);
      var g := Quoted(if c == DQ as int then SQ else DQ, Encode(c));
      assert (Quoting(before) + [g])[..|Quoting(before)|] == Quoting(before);
    }
  }

  lemma MarkIsAbsent(c: scalar)
    ensures (if c == DQ as int then SQ else DQ) !in Encode(c)
  {
  }

  function Items(args: seq<text>): seq<Item>
    decreases |args|
  {
    if args == [] then [] else Items(args[..|args| - 1]) + [Item(Quoting(args[|args| - 1]), [SPACE])]
  }

  lemma {:induction false} ItemsAreOk(args: seq<text>)
    ensures ItemsOk(Items(args)) && |Items(args)| == |args|
    decreases |args|
  {
    if args != [] {
      ItemsAreOk(args[..|args| - 1]);
      QuotingOk(args[|args| - 1]);
    }
  }

  lemma ValuesStep(args: seq<text>)
    requires args != []
    ensures var last := args[|args| - 1];
      Values(Items(args)) == Values(Items(args[..|args| - 1])) + if EncodeAll(last) == [] then [] else [Latin1(EncodeAll(last))]
  {
    QuotingOk(args[|args| - 1]);
    var items := Items(args);
    assert items[..|items| - 1] == Items(args[..|args| - 1]);
  }

  // ---- Which arguments survive ------------------------------------------------------------

  lemma {:induction false} AsciiIff(t: text)
    ensures |EncodeAll(t)| >= |t|
    ensures Ascii(t) <==> |EncodeAll(t)| == |t|
    ensures Ascii(t) <==> Latin1(EncodeAll(t)) == t
    decreases |t|
  {
    if t != [] {
      var before, c := t[..|t| - 1], t[|t| - 1];
      AsciiIff(before);
      EncodeShape(c);
      assert t == before + [c];
      assert Ascii(t) <==> Ascii(before) && c < 128;
    }
  }

  predicate AllPlain(args: seq<text>) { forall i :: 0 <= i < |args| ==> args[i] != [] && Ascii(args[i]) }

  lemma AllPlainStep(args: seq<text>)
    requires args != []
    ensures AllPlain(args) <==> AllPlain(args[..|args| - 1]) && args[|args| - 1] != [] && Ascii(args[|args| - 1])
  {
  }

  lemma EmptyEncoding(t: text)
    ensures EncodeAll(t) == [] <==> t == []
  {
    AsciiIff(t);
  }

  lemma {:induction false} ValuesIff(args: seq<text>)
    ensures |Values(Items(args))| <= |args|
    ensures Values(Items(args)) == args <==> AllPlain(args)
    decreases |args|
  {
    if args != [] {
      ValuesIff(args[..|args| - 1]);
      ValuesStep(args);
      AllPlainStep(args);
      LastArgument(args, Values(Items(args[..|args| - 1])), Values(Items(args)));
    }
  }

  lemma LastArgument(args: seq<text>, v: seq<text>, w: seq<text>)
    requires args != [] && |v| <= |args| - 1
    requires var last := args[|args| - 1]; w == v + if EncodeAll(last) == [] then [] else [Latin1(EncodeAll(last))]
    ensures var last := args[|args| - 1];
      |w| <= |args| && (w == args <==> v == args[..|args| - 1] && last != [] && Ascii(last))
  {
    var before, last := args[..|args| - 1], args[|args| - 1];
    AsciiIff(last);
    EmptyEncoding(last);
    assert args == before + [last];
    LastValue(v, w, before, last, Latin1(EncodeAll(last)), EncodeAll(last) == []);
  }

  lemma LastValue(v: seq<text>, w: seq<text>, before: seq<text>, last: text, out: text, dropped: bool)
    requires |v| <= |before| && w == v + if dropped then [] else [out]
    ensures w == before + [last] <==> !dropped && v == before && out == last
  {
    if w == before + [last] {
      assert |w| == |before| + 1;
      assert w[..|v|] == v && (before + [last])[..|before|] == before;
      assert w[|v|] == out;
    }
  }

  /** Quoting then splitting returns the arguments exactly when none is empty and all are ASCII. */
  lemma RoundTripIff(args: seq<text>)
    ensures Split(PrintItems(Items(args))) == args <==> AllPlain(args)
  {
    ItemsAreOk(args);
    SplitInvertsPrinting(Items(args));
    ValuesIff(args);
  }

  /** An empty argument is lost. */
  lemma EmptyIsLost(args: seq<text>)
    requires args == [[]]
    ensures Split(PrintItems(Items(args))) == []
  {
    ItemsAreOk(args);
    SplitInvertsPrinting(Items(args));
    ValuesStep(args);
    assert args[..0] == [];
  }

  /** `é` comes back as the two characters of its two bytes. */
  lemma AccentIsMangled(args: seq<text>)
    requires args == [[0xE9]]
    ensures Split(PrintItems(Items(args))) == [[0xC3, 0xA9]]
  {
    ItemsAreOk(args);
    SplitInvertsPrinting(Items(args));
    ValuesStep(args);
    assert args[..0] == [];
    AccentBytes();
  }

  lemma AccentBytes()
    ensures EncodeAll([0xE9]) == [0xC3, 0xA9] && Latin1(EncodeAll([0xE9])) == [0xC3, 0xA9]
  {
    EncodeOne(0xE9);
  }

  /** What splitting yields is stable under quoting it again, for every ASCII line. */
  lemma SplitIsStable(line: seq<byte>)
    requires forall i :: 0 <= i < |line| ==> line[i] < 128
    ensures Split(PrintItems(Items(Split(line)))) == Split(line)
  {
    ScanKeepsAscii(line);
    RoundTripIff(Split(line));
  }

  lemma {:induction false} ScanKeepsAscii(line: seq<byte>)
    requires forall i :: 0 <= i < |line| ==> line[i] < 128
    ensures AllPlain(Scan(FRESH, line).args) && Ascii(Scan(FRESH, line).current)
    ensures AllPlain(Split(line))
    decreases |line|
  {
    if line != [] {
      ScanKeepsAscii(line[..|line| - 1]);
    }
  }
}
