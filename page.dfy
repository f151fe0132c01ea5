/** A page of a KBP file: line headers, syllable records and the
    transition line of a PAGEV2 block, grouped into lines; and the record
    of an IMAGE block. */
module Page {
  import opened Wrappers
  import opened Text

  /** The header of a lyric line: alignment, style letter, start and end
      in centiseconds, horizontal and vertical offsets, rotation. */
  datatype LineHeader = LineHeader(
    align: char, style: char, start: int, end: int, right: int, down: int, rotation: int)
  {
    /** isfixed(): a lower-case style letter names a fixed style. */
    predicate IsFixed() {
      IsLower(style)
    }
  }

  /** A syllable: its text and its start, end and wipe values. */
  datatype Syllable = Syllable(syllable: string, start: int, end: int, wipe: int)
  {
    predicate IsEmpty() {
      syllable == ""
    }
  }

  datatype Line = Line(header: LineHeader, syllables: seq<Syllable>)
  {
    /** isempty(): no syllables, or a single syllable with no text. */
    predicate IsEmpty() {
      |syllables| == 0 || (|syllables| == 1 && syllables[0].IsEmpty())
    }
  }

  /** A page: its removal and display transitions and its lines. */
  datatype Page = Page(remove: string, display: string, lines: seq<Line>)

  datatype Image = Image(start: int, end: int, filename: string, leaveonscreen: int)

  predicate IsAlign(f: string) {
    f == "L" || f == "C" || f == "R"
  }

  /** The line-header pattern [LCR]/[a-zA-Z](/\d+){2}(/-?\d+){3}, anchored
      at both ends, stated on the "/"-separated fields: no part of the
      pattern can hold a "/", so a match has exactly seven fields. */
  predicate IsHeaderLine(x: string) {
    var f := Split(x, '/');
    && |f| == 7
    && IsAlign(f[0])
    && |f[1]| == 1 && IsLetter(f[1][0])
    && IsDigits(f[2]) && IsDigits(f[3])
    && IsSignedDigits(f[4]) && IsSignedDigits(f[5]) && IsSignedDigits(f[6])
  }

  /** KBPLineHeader built from a matching line: the fields after the
      second as integers. */
  function ParseHeader(x: string): LineHeader
    requires IsHeaderLine(x)
  {
    var f := Split(x, '/');
    LineHeader(f[0][0], f[1][0], DigitsValue(f[2]), DigitsValue(f[3]),
               SignedValue(f[4]), SignedValue(f[5]), SignedValue(f[6]))
  }

  /** The numbers of a header are what int() makes of its fields. */
  lemma ParseHeaderInts(x: string)
    requires IsHeaderLine(x)
    ensures var f := Split(x, '/'); var h := ParseHeader(x);
      && ParseInt(f[2]) == Some(h.start) && ParseInt(f[3]) == Some(h.end)
      && ParseInt(f[4]) == Some(h.right) && ParseInt(f[5]) == Some(h.down)
      && ParseInt(f[6]) == Some(h.rotation)
  {
    var f := Split(x, '/');
    ParseIntSigned(f[2]);
    ParseIntSigned(f[3]);
    ParseIntSigned(f[4]);
    ParseIntSigned(f[5]);
    ParseIntSigned(f[6]);
  }

  /** A header a KBP writer can produce. */
  predicate ValidHeader(h: LineHeader) {
    (h.align == 'L' || h.align == 'C' || h.align == 'R') && IsLetter(h.style) && h.start >= 0 && h.end >= 0
  }

  /** The line a KBP writer produces for a header. */
  function HeaderText(h: LineHeader): string {
    Join([[h.align], [h.style], IntToString(h.start), IntToString(h.end),
          IntToString(h.right), IntToString(h.down), IntToString(h.rotation)], "/")
  }

  /** Every header a writer can produce is recognised, and read back as
      itself. */
  lemma HeaderRoundTrip(h: LineHeader)
    requires ValidHeader(h)
    ensures IsHeaderLine(HeaderText(h))
    ensures ParseHeader(HeaderText(h)) == h
  {
    var parts := [[h.align], [h.style], IntToString(h.start), IntToString(h.end),
                  IntToString(h.right), IntToString(h.down), IntToString(h.rotation)];
    forall i | 0 <= i < |parts| ensures '/' !in parts[i] {
      if i >= 2 {
        IntToStringChars([h.start, h.end, h.right, h.down, h.rotation][i - 2], '/');
      }
    }
    JoinSplit(parts, '/');
    NatToStringValue(h.start);
    NatToStringValue(h.end);
    IntToStringSigned(h.right);
    IntToStringSigned(h.down);
    IntToStringSigned(h.rotation);
  }

  /** The fields the syllable record has read, or the error it raised. */
  function ParseSyllable(x: string, defaultWipe: Option<int>): (r: Result<Syllable>)
  {
    var f := Split(x, '/');
    var text := Unescape(f[0]);
    var _ :- if |f| >= 2 then Ok(()) else Err(TooFewFields(|f|));
    var nums :- ParseInts([LStrip(f[1])] + f[2..]);
    var replace := defaultWipe.Some? && defaultWipe.value != 0;
    var _ :- if replace && |f| < 4 then Err(TooFewFields(|f|)) else Ok(());
    var _ :- if |f| >= 4 then Ok(()) else Err(MissingArgument);
    Ok(Syllable(text, nums[0], nums[1], if replace && nums[2] == 0 then defaultWipe.value else nums[2]))
  }

  /** A syllable record "text/start/end/wipe": "{-}" in the text stands for
      "/", the numbers are what int() reads, fields after the fourth are
      read but dropped, and a wipe of 0 becomes the default wipe when that
      is given and not 0. */
  lemma ParseSyllableSpec(x: string, defaultWipe: Option<int>)
    requires ParseSyllable(x, defaultWipe).Ok?
    ensures var f := Split(x, '/'); var s := ParseSyllable(x, defaultWipe).value;
      && |f| >= 4
      && s.syllable == Unescape(f[0])
      && ParseInt(f[1]) == Some(s.start) && ParseInt(f[2]) == Some(s.end)
      && (ParseInt(f[3]) == Some(0) && defaultWipe.Some? && defaultWipe.value != 0 ==> s.wipe == defaultWipe.value)
      && (ParseInt(f[3]) != Some(0) || defaultWipe.None? || defaultWipe.value == 0 ==> ParseInt(f[3]) == Some(s.wipe))
      && (defaultWipe.Some? && defaultWipe.value != 0 ==> s.wipe != 0)
  {
    var f := Split(x, '/');
    var fields := [LStrip(f[1])] + f[2..];
    ParseIntsSpec(fields);
    assert fields[0] == LStrip(f[1]) && fields[1] == f[2] && fields[2] == f[3];
    LStripIdempotent(f[1]);
  }

  /** The record a KBP writer produces for a syllable. */
  function SyllableText(s: Syllable): string {
    Join([Escape(s.syllable), IntToString(s.start), IntToString(s.end), IntToString(s.wipe)], "/")
  }

  /** A written syllable is read back as itself when its text does not
      hold the mark "{-}" and its wipe is kept. */
  lemma SyllableRoundTrip(s: Syllable, defaultWipe: Option<int>)
    requires !ContainsMark(s.syllable)
    requires s.wipe != 0 || defaultWipe.None? || defaultWipe.value == 0
    ensures ParseSyllable(SyllableText(s), defaultWipe) == Ok(s)
  {
    var parts := [Escape(s.syllable), IntToString(s.start), IntToString(s.end), IntToString(s.wipe)];
    EscapeNoSlash(s.syllable);
    IntToStringChars(s.start, '/');
    IntToStringChars(s.end, '/');
    IntToStringChars(s.wipe, '/');
    JoinSplit(parts, '/');
    UnescapeEscape(s.syllable);
    assert LStrip(parts[1]) == parts[1] by {
      IntToStringSigned(s.start);
    }
    assert IntsToStrings([s.wipe]) == [parts[3]];
    assert IntsToStrings([s.end, s.wipe]) == [parts[2], parts[3]];
    assert [LStrip(parts[1])] + parts[2..] == IntsToStrings([s.start, s.end, s.wipe]);
    ParseIntsWritten([s.start, s.end, s.wipe]);
  }

  /** Some character of s is not a space. */
  predicate NonSpaceIn(s: string) {
    exists j :: 0 <= j < |s| && s[j] != ' '
  }

  /** The text of a syllable when spaces separate syllables: every run of
      spaces that a non-space follows becomes as many underscores, so that
      only trailing spaces remain. */
  function Underscored(s: string): (r: string)
    ensures |r| == |s|
  {
    if |s| == 0 then ""
    else [if s[0] == ' ' && NonSpaceIn(s[1..]) then '_' else s[0]] + Underscored(s[1..])
  }

  /** Each space with a non-space somewhere after it becomes '_'; every
      other character is kept. */
  lemma {:induction false} UnderscoredSpec(s: string)
    ensures forall i :: 0 <= i < |s| ==>
      Underscored(s)[i] == if s[i] == ' ' && NonSpaceIn(s[i + 1..]) then '_' else s[i]
  {
    if |s| > 0 {
      UnderscoredSpec(s[1..]);
      forall i | 1 <= i < |s|
        ensures Underscored(s)[i] == if s[i] == ' ' && NonSpaceIn(s[i + 1..]) then '_' else s[i]
      {
        assert s[1..][i - 1..] == s[i..];
        assert s[1..][i..] == s[i + 1..];
      }
    }
  }

  /** In the result no space is followed by a non-space: the spaces left
      are a trailing run. */
  lemma UnderscoredTrailing(s: string)
    ensures forall i, j :: 0 <= i < j < |s| && Underscored(s)[i] == ' ' ==> Underscored(s)[j] == ' '
  {
    UnderscoredSpec(s);
    var r := Underscored(s);
    forall i, j | 0 <= i < j < |s| && r[i] == ' '
      ensures r[j] == ' '
    {
      assert s[i] == ' ' && !NonSpaceIn(s[i + 1..]);
      assert s[i + 1..][j - i - 1] == s[j];
    }
  }

  /** A string without spaces is left as it is. */
  lemma {:induction false} UnderscoredNoSpace(s: string)
    requires ' ' !in s
    ensures Underscored(s) == s
  {
    if |s| > 0 {
      UnderscoredNoSpace(s[1..]);
      assert [s[0]] + s[1..] == s;
    }
  }

  /** The texts of the syllables, in order. */
  function Texts(syls: seq<Syllable>): (r: seq<string>)
    ensures |r| == |syls|
    ensures forall i :: 0 <= i < |syls| ==> r[i] == syls[i].syllable
  {
    seq(|syls|, i requires 0 <= i < |syls| => syls[i].syllable)
  }

  /** The text of the first n syllables when spaces separate syllables:
      each syllable underscored, followed by the separator unless it ends
      in a space. */
  function SpacedUpTo(syls: seq<Syllable>, n: nat, sep: string): string
    requires n <= |syls|
  {
    if n == 0 then ""
    else
      var u := Underscored(syls[n - 1].syllable);
      SpacedUpTo(syls, n - 1, sep) + u + (if EndsWith(u, " ") then "" else sep)
  }

  /** s[:-k] for k > 0: all but the last k characters, or nothing. */
  function DropLast(s: string, k: nat): (r: string)
    ensures |r| == if k <= |s| then |s| - k else 0
    ensures r <= s
  {
    if k <= |s| then s[..|s| - k] else ""
  }

  /** KBPLine.text(syllable_separator, space_is_separator), as a value. */
  function LineText(l: Line, sep: string, spaceIsSep: bool): string {
    if l.IsEmpty() then sep
    else if spaceIsSep && sep != "" then DropLast(SpacedUpTo(l.syllables, |l.syllables|, sep), |sep|)
    else Join(Texts(l.syllables), sep)
  }

  /** KBPLine.text: the lyric text of a line. An empty line is the
      separator alone, which is how lyrics mark an empty line. */
  method WriteText(l: Line, sep: string, spaceIsSep: bool) returns (r: string)
    ensures r == LineText(l, sep, spaceIsSep)
  {
    if l.IsEmpty() {
      return sep;
    } else if spaceIsSep && sep != "" {
      var result := "";
      var n := 0;
      while n < |l.syllables|
        invariant 0 <= n <= |l.syllables|
        invariant result == SpacedUpTo(l.syllables, n, sep)
      {
        var syltext := Underscored(l.syllables[n].syllable);
        result := result + syltext;
        if !EndsWith(syltext, " ") {
          result := result + sep;
        }
        n := n + 1;
      }
      if |sep| <= |result| {
        return result[..|result| - |sep|];
      }
      return "";
    } else {
      return Join(Texts(l.syllables), sep);
    }
  }

  /** A syllable without spaces is written as it is, then the separator. */
  lemma SpacedStepNoSpace(syls: seq<Syllable>, n: nat, sep: string)
    requires 1 <= n <= |syls| && ' ' !in syls[n - 1].syllable
    ensures SpacedUpTo(syls, n, sep) == SpacedUpTo(syls, n - 1, sep) + syls[n - 1].syllable + sep
  {
    var s := syls[n - 1].syllable;
    UnderscoredNoSpace(s);
    assert !EndsWith(s, " ") by {
      assert |s| >= 1 ==> s[|s| - 1] in s;
    }
  }

  /** Without spaces in the syllables, the spaced text after n syllables
      is their plain join followed by one separator. */
  lemma {:induction false} SpacedUpToJoin(syls: seq<Syllable>, n: nat, sep: string)
    requires 1 <= n <= |syls|
    requires forall i :: 0 <= i < |syls| ==> ' ' !in syls[i].syllable
    ensures SpacedUpTo(syls, n, sep) == Join(Texts(syls[..n]), sep) + sep
  {
    var s := syls[n - 1].syllable;
    SpacedStepNoSpace(syls, n, sep);
    if n > 1 {
      SpacedUpToJoin(syls, n - 1, sep);
      JoinSnoc(Texts(syls[..n - 1]), s, sep);
      assert Texts(syls[..n]) == Texts(syls[..n - 1]) + [s];
    } else {
      assert Texts(syls[..1]) == [s];
    }
  }

  /** Joining one more part adds the separator and that part. */
  lemma {:induction false} JoinSnoc(parts: seq<string>, last: string, sep: string)
    requires |parts| >= 1
    ensures Join(parts + [last], sep) == Join(parts, sep) + sep + last
  {
    if |parts| > 1 {
      JoinSnoc(parts[1..], last, sep);
      assert (parts + [last])[1..] == parts[1..] + [last];
    } else {
      assert (parts + [last])[1..] == [last];
    }
  }

  /** When no syllable holds a space, treating spaces as separators makes
      no difference to the text. */
  lemma SpacedTextAgrees(l: Line, sep: string)
    requires sep != ""
    requires forall i :: 0 <= i < |l.syllables| ==> ' ' !in l.syllables[i].syllable
    ensures LineText(l, sep, true) == LineText(l, sep, false)
  {
    if !l.IsEmpty() {
      var syls := l.syllables;
      SpacedUpToJoin(syls, |syls|, sep);
      assert syls[..|syls|] == syls;
      var t := Join(Texts(syls), sep);
      assert (t + sep)[..|t + sep| - |sep|] == t;
    }
  }

  /** Splitting the text of a non-empty line at a one-character separator
      that no syllable holds gives back the syllable texts. */
  lemma TextSplit(l: Line, c: char)
    requires !l.IsEmpty()
    requires forall i :: 0 <= i < |l.syllables| ==> c !in l.syllables[i].syllable
    ensures Split(LineText(l, [c], false), c) == Texts(l.syllables)
  {
    JoinSplit(Texts(l.syllables), c);
  }

  /** The state of the page scan: the closed lines, the syllables of the
      open line, the header of the open line if any, and the transitions. */
  datatype PageScan = PageScan(lines: seq<Line>, syllables: seq<Syllable>, header: Option<LineHeader>,
                               transitions: seq<string>)

  /** Before the first line: no lines, none open, and the line-by-line
      transitions. */
  const PageStart := PageScan([], [], None, ["", ""])

  /** One line of a page block. */
  function PageStep(x: string, st: PageScan, defaultWipe: Option<int>): (r: Result<PageScan>)
  {
    if st.header.None? && IsHeaderLine(x) then Ok(st.(header := Some(ParseHeader(x))))
    else if x == "" && st.header.Some? then
      Ok(PageScan(st.lines + [Line(st.header.value, st.syllables)], [], None, st.transitions))
    else if st.header.None? && StartsWith(x, "FX/") then Ok(st.(transitions := Split(x, '/')[1..]))
    else if x != "" then
      var syl :- ParseSyllable(x, defaultWipe);
      Ok(st.(syllables := st.syllables + [syl]))
    else Ok(st)
  }

  /** A header line opens a line only while none is open; while one is
      open, the same line is read as a syllable record and fails on its
      style letter. */
  lemma HeaderOnlyWhenClosed(x: string, st: PageScan, defaultWipe: Option<int>)
    requires IsHeaderLine(x)
    ensures st.header.None? ==> PageStep(x, st, defaultWipe) == Ok(st.(header := Some(ParseHeader(x))))
    ensures st.header.Some? ==> PageStep(x, st, defaultWipe) == Err(BadInt(Split(x, '/')[1]))
  {
    var f := Split(x, '/');
    if st.header.Some? {
      assert x != "" by {
        assert |x| == 0 ==> |f| == 1;
      }
      assert LStrip(f[1]) == f[1];
      assert Strip(f[1]) == f[1];
      var fields := [LStrip(f[1])] + f[2..];
      assert ParseInt(fields[0]).None?;
    }
  }

  /** A blank line closes the open line with the syllables read since its
      header, in input order. */
  lemma BlankClosesLine(st: PageScan, defaultWipe: Option<int>)
    requires st.header.Some?
    ensures PageStep("", st, defaultWipe) ==
      Ok(PageScan(st.lines + [Line(st.header.value, st.syllables)], [], None, st.transitions))
  {
    assert !IsHeaderLine("");
  }

  /** The transitions change only on an "FX/" line while no line is open,
      to the fields after "FX". */
  lemma TransitionsOnlyWhenClosed(x: string, st: PageScan, defaultWipe: Option<int>)
    requires PageStep(x, st, defaultWipe).Ok?
    ensures var r := PageStep(x, st, defaultWipe).value;
      r.transitions != st.transitions ==>
        st.header.None? && StartsWith(x, "FX/") && r.transitions == Split(x, '/')[1..]
  {
  }

  /** Any other non-blank line adds its syllable to the open line (or to
      the syllables waiting for the next header) and changes nothing else. */
  lemma SyllableAppended(x: string, st: PageScan, defaultWipe: Option<int>)
    requires x != "" && !(st.header.None? && (IsHeaderLine(x) || StartsWith(x, "FX/")))
    ensures PageStep(x, st, defaultWipe).Ok? <==> ParseSyllable(x, defaultWipe).Ok?
    ensures PageStep(x, st, defaultWipe).Ok? ==>
      PageStep(x, st, defaultWipe).value ==
        st.(syllables := st.syllables + [ParseSyllable(x, defaultWipe).value])
  {
  }

  /** The scan of the first n lines of a page block. */
  function PageUpTo(xs: seq<string>, n: nat, defaultWipe: Option<int>): Result<PageScan>
    requires n <= |xs|
  {
    if n == 0 then Ok(PageStart)
    else
      var prev := PageUpTo(xs, n - 1, defaultWipe);
      if prev.Err? then prev else PageStep(xs[n - 1], prev.value, defaultWipe)
  }

  /** Once a line has failed the scan, the scan fails with that error. */
  lemma {:induction false} PageUpToErr(xs: seq<string>, n: nat, m: nat, defaultWipe: Option<int>)
    requires n <= m <= |xs| && PageUpTo(xs, n, defaultWipe).Err?
    ensures PageUpTo(xs, m, defaultWipe) == PageUpTo(xs, n, defaultWipe)
    decreases m - n
  {
    if n < m {
      PageUpToErr(xs, n + 1, m, defaultWipe);
    }
  }

  /** A step never changes or removes a closed line, and closes at most one. */
  lemma PageStepLinesGrow(x: string, st: PageScan, defaultWipe: Option<int>)
    requires PageStep(x, st, defaultWipe).Ok?
    ensures st.lines <= PageStep(x, st, defaultWipe).value.lines
    ensures |PageStep(x, st, defaultWipe).value.lines| <= |st.lines| + 1
  {
  }

  /** Closed lines are never changed or removed: the lines after n input
      lines begin the lines after any later point of a successful scan. */
  lemma {:induction false} PageLinesGrow(xs: seq<string>, n: nat, m: nat, defaultWipe: Option<int>)
    requires n <= m <= |xs| && PageUpTo(xs, m, defaultWipe).Ok?
    ensures PageUpTo(xs, n, defaultWipe).Ok?
    ensures PageUpTo(xs, n, defaultWipe).value.lines <= PageUpTo(xs, m, defaultWipe).value.lines
  {
    if n < m {
      var prev := PageUpTo(xs, m - 1, defaultWipe);
      assert prev.Ok?;
      PageLinesGrow(xs, n, m - 1, defaultWipe);
      PageStepLinesGrow(xs[m - 1], prev.value, defaultWipe);
    }
  }

  /** KBPPage(*transitions, lines): exactly two transitions are needed. */
  function PageOf(st: PageScan): (r: Result<Page>)
    ensures r.Ok? <==> |st.transitions| == 2
    ensures r.Ok? ==> r.value.lines == st.lines && [r.value.remove, r.value.display] == st.transitions
    ensures r.Err? ==> r.error == WrongArgCount(|st.transitions|)
  {
    if |st.transitions| == 2 then Ok(Page(st.transitions[0], st.transitions[1], st.lines))
    else Err(WrongArgCount(|st.transitions|))
  }

  /** KBPPage.from_textlines, as a value. A line still open at the end of
      the block is not part of the page. */
  function PageSpec(xs: seq<string>, defaultWipe: Option<int>): Result<Page> {
    var st :- PageUpTo(xs, |xs|, defaultWipe);
    PageOf(st)
  }

  /** The loop of KBPPage.from_textlines: the page state after every line
      of the block, or the first error. */
  method ScanPage(xs: seq<string>, defaultWipe: Option<int>) returns (r: Result<PageScan>)
    ensures r == PageUpTo(xs, |xs|, defaultWipe)
  {
    var lines: seq<Line> := [];
    var syllables: seq<Syllable> := [];
    var header: Option<LineHeader> := None;
    var transitions := ["", ""];
    var n := 0;
    while n < |xs|
      invariant 0 <= n <= |xs|
      invariant PageUpTo(xs, n, defaultWipe) == Ok(PageScan(lines, syllables, header, transitions))
    {
      var x := xs[n];
      ghost var st := PageScan(lines, syllables, header, transitions);
      assert PageUpTo(xs, n + 1, defaultWipe) == PageStep(x, st, defaultWipe);
      if header.None? && IsHeaderLine(x) {
        header := Some(ParseHeader(x));
      } else if x == "" && header.Some? {
        BlankClosesLine(st, defaultWipe);
        lines := lines + [Line(header.value, syllables)];
        syllables := [];
        header := None;
      } else if header.None? && StartsWith(x, "FX/") {
        transitions := Split(x, '/')[1..];
      } else if x != "" {
        SyllableAppended(x, st, defaultWipe);
        var syl := ParseSyllable(x, defaultWipe);
        if syl.Err? {
          PageUpToErr(xs, n + 1, |xs|, defaultWipe);
          return Err(syl.error);
        }
        syllables := syllables + [syl.value];
      }
      n := n + 1;
    }
    return Ok(PageScan(lines, syllables, header, transitions));
  }

  /** KBPPage.from_textlines: reads the lines of a PAGEV2 block; the page
      is built from the transitions and the closed lines. */
  method FromTextlines(xs: seq<string>, defaultWipe: Option<int>) returns (r: Result<Page>)
    ensures r == PageSpec(xs, defaultWipe)
  {
    var st :- ScanPage(xs, defaultWipe);
    if |st.transitions| != 2 {
      return Err(WrongArgCount(|st.transitions|));
    }
    return Ok(Page(st.transitions[0], st.transitions[1], st.lines));
  }

  /** The earliest start among the lines that are not empty, if any. */
  function MinStart(lines: seq<Line>): (r: Option<int>)
    ensures r.None? <==> forall i :: 0 <= i < |lines| ==> lines[i].IsEmpty()
    ensures r.Some? ==> exists i :: 0 <= i < |lines| && !lines[i].IsEmpty() && lines[i].header.start == r.value
    ensures r.Some? ==> forall i :: 0 <= i < |lines| && !lines[i].IsEmpty() ==> r.value <= lines[i].header.start
  {
    if |lines| == 0 then None
    else
      var rest := MinStart(lines[1..]);
      if lines[0].IsEmpty() then rest
      else if rest.Some? && rest.value < lines[0].header.start then rest
      else Some(lines[0].header.start)
  }

  /** get_start(): the earliest start of a non-empty line; min() of nothing
      raises. */
  function GetStart(p: Page): (r: Result<int>)
    ensures r.Err? <==> forall i :: 0 <= i < |p.lines| ==> p.lines[i].IsEmpty()
    ensures r.Err? ==> r.error == EmptySequence
    ensures r.Ok? ==> exists i :: 0 <= i < |p.lines| && !p.lines[i].IsEmpty() && p.lines[i].header.start == r.value
    ensures r.Ok? ==> forall i :: 0 <= i < |p.lines| && !p.lines[i].IsEmpty() ==> r.value <= p.lines[i].header.start
  {
    match MinStart(p.lines)
    case None => Err(EmptySequence)
    case Some(v) => Ok(v)
  }

  /** The latest end among the lines, if any. */
  function MaxEnd(lines: seq<Line>): (r: Option<int>)
    ensures r.None? <==> |lines| == 0
    ensures r.Some? ==> exists i :: 0 <= i < |lines| && lines[i].header.end == r.value
    ensures r.Some? ==> forall i :: 0 <= i < |lines| ==> lines[i].header.end <= r.value
  {
    if |lines| == 0 then None
    else
      var rest := MaxEnd(lines[1..]);
      if rest.Some? && rest.value > lines[0].header.end then rest
      else Some(lines[0].header.end)
  }

  /** get_end(): the latest end of any line, empty or not; max() of
      nothing raises. */
  function GetEnd(p: Page): (r: Result<int>)
    ensures r.Err? <==> |p.lines| == 0
    ensures r.Err? ==> r.error == EmptySequence
    ensures r.Ok? ==> exists i :: 0 <= i < |p.lines| && p.lines[i].header.end == r.value
    ensures r.Ok? ==> forall i :: 0 <= i < |p.lines| ==> p.lines[i].header.end <= r.value
  {
    match MaxEnd(p.lines)
    case None => Err(EmptySequence)
    case Some(v) => Ok(v)
  }

  /** KBPImage.from_string: "start/end/filename/leaveonscreen", the first,
      second and fourth fields read as integers in that order; fields past
      the fourth are ignored. */
  function ImageFromString(line: string): (r: Result<Image>)
    ensures var f := Split(line, '/');
      r.Ok? <==> |f| >= 4 && ParseInt(f[0]).Some? && ParseInt(f[1]).Some? && ParseInt(f[3]).Some?
    ensures var f := Split(line, '/');
      r.Ok? ==> && ParseInt(f[0]) == Some(r.value.start) && ParseInt(f[1]) == Some(r.value.end)
                && r.value.filename == f[2] && ParseInt(f[3]) == Some(r.value.leaveonscreen)
    ensures var f := Split(line, '/');
      ParseInt(f[0]).None? ==> r == Err(BadInt(f[0]))
    ensures var f := Split(line, '/');
      ParseInt(f[0]).Some? && |f| >= 2 && ParseInt(f[1]).None? ==> r == Err(BadInt(f[1]))
    ensures var f := Split(line, '/');
      ParseInt(f[0]).Some? && (|f| < 2 || (|f| < 4 && ParseInt(f[1]).Some?)) ==> r == Err(TooFewFields(|f|))
    ensures var f := Split(line, '/');
      r.Err? && |f| >= 4 && ParseInt(f[0]).Some? && ParseInt(f[1]).Some? ==> r == Err(BadInt(f[3]))
  {
    var f := Split(line, '/');
    var start :- IntField(f[0]);
    var _ :- if |f| >= 2 then Ok(()) else Err(TooFewFields(|f|));
    var end :- IntField(f[1]);
    var _ :- if |f| >= 4 then Ok(()) else Err(TooFewFields(|f|));
    var leave :- IntField(f[3]);
    Ok(Image(start, end, f[2], leave))
  }

  /** The line a KBP writer produces for an image. */
  function ImageText(img: Image): string {
    Join([IntToString(img.start), IntToString(img.end), img.filename, IntToString(img.leaveonscreen)], "/")
  }

  /** A written image record is read back as itself when its file name
      holds no "/". */
  lemma ImageRoundTrip(img: Image)
    requires '/' !in img.filename
    ensures ImageFromString(ImageText(img)) == Ok(img)
  {
    var parts := [IntToString(img.start), IntToString(img.end), img.filename, IntToString(img.leaveonscreen)];
    IntToStringChars(img.start, '/');
    IntToStringChars(img.end, '/');
    IntToStringChars(img.leaveonscreen, '/');
    JoinSplit(parts, '/');
    IntToStringRoundTrip(img.start);
    IntToStringRoundTrip(img.end);
    IntToStringRoundTrip(img.leaveonscreen);
  }
}
