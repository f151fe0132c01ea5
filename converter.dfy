/** The conversion of a KBP file to an Advanced SubStation Alpha (ASS)
    script: the karaoke markup of each lyric line, its placement on the
    300x216 screen, the list of events and the list of styles. */
module Converter {
  import opened Wrappers
  import opened Text
  import opened Pages = Page
  import opened Style
  import opened StyleCollection
  import Palette
  import KbpFile

  // ---------------------------------------------------------------------
  // Options and markup

  /** AssOptions: the fade-in and fade-out of every event, in
      milliseconds. */
  datatype AssOptions = AssOptions(fadeIn: int, fadeOut: int)

  const DefaultOptions := AssOptions(300, 200)

  /** The override tags an event's text is made of. */
  datatype Tag =
    | Pos(anchor: Option<int>, x: int, y: int)  // {\pos(x,y)}, after \anN when anchored
    | Fade(fadeIn: int, fadeOut: int)           // {\fad(in,out)}
    | Hold(cs: int)                             // {\kN}: N centiseconds with nothing wiped
    | Kf(cs: int, text: string)                 // {\kfN}text: a syllable wiped over N centiseconds

  /** The text of one tag, each number written by "%d". */
  function TagText(t: Tag): string {
    match t
    case Pos(anchor, x, y) =>
      "{" + (if anchor.Some? then "\\an" + IntToString(anchor.value) else "")
      + "\\pos(" + IntToString(x) + "," + IntToString(y) + ")}"
    case Fade(i, o) => "{\\fad(" + IntToString(i) + "," + IntToString(o) + ")}"
    case Hold(cs) => "{\\k" + IntToString(cs) + "}"
    case Kf(cs, text) => "{\\kf" + IntToString(cs) + "}" + text
  }

  /** The text of a run of tags. */
  function Render(tags: seq<Tag>): string {
    if |tags| == 0 then "" else TagText(tags[0]) + Render(tags[1..])
  }

  // ---------------------------------------------------------------------
  // Placement and fade

  /** margins[key], a KeyError when the key is missing. */
  function Margin(margins: map<string, int>, key: string): (r: Result<int>)
    ensures r.Ok? <==> key in margins
    ensures r.Ok? ==> r.value == margins[key]
    ensures r.Err? ==> r.error == KeyErr(key)
  {
    if key in margins then Ok(margins[key]) else Err(KeyErr(key))
  }

  /** get_pos: line num of a page sits spacing+19 pixels below line num-1,
      the first 12 pixels below the top margin; centred lines are placed at
      x = 150 with no anchor, left-aligned lines anchored top-left (\an7)
      6 pixels right of the left margin, and every other line anchored
      top-right (\an9) 6 pixels left of the right margin. A margin the line
      needs and the file lacks is a KeyError. */
  function GetPos(margins: Option<map<string, int>>, align: char, num: int): (r: Result<Tag>)
    ensures margins.None? ==> r == Err(MissingAttribute("margins"))
    ensures margins.Some? ==> var m := margins.value;
      && (r.Ok? <==> "top" in m && "spacing" in m && (align == 'L' ==> "left" in m)
                     && (align != 'C' && align != 'L' ==> "right" in m))
      && (r.Ok? ==> r.value.Pos? && r.value.y == m["top"] + num * (m["spacing"] + 19) + 12)
      && (r.Ok? && align == 'C' ==> r.value.anchor == None && r.value.x == 150)
      && (r.Ok? && align == 'L' ==> r.value.anchor == Some(7) && r.value.x == m["left"] + 6)
      && (r.Ok? && align != 'C' && align != 'L' ==> r.value.anchor == Some(9) && r.value.x == 300 - m["right"] - 6)
  {
    if margins.None? then Err(MissingAttribute("margins"))
    else
      var m := margins.value;
      var top :- Margin(m, "top");
      var spacing :- Margin(m, "spacing");
      var y := top + num * (spacing + 19) + 12;
      if align == 'C' then Ok(Pos(None, 150, y))
      else if align == 'L' then
        var left :- Margin(m, "left");
        Ok(Pos(Some(7), left + 6, y))
      else
        var right :- Margin(m, "right");
        Ok(Pos(Some(9), 300 - right - 6, y))
  }

  /** Lines of one alignment form a column: the next line of a page has the
      same anchor and x, and sits spacing+19 pixels lower. */
  lemma GetPosStacks(margins: Option<map<string, int>>, align: char, num: int)
    requires GetPos(margins, align, num).Ok?
    ensures var a := GetPos(margins, align, num).value; var b := GetPos(margins, align, num + 1);
      && b.Ok? && b.value.anchor == a.anchor && b.value.x == a.x
      && b.value.y == a.y + margins.value["spacing"] + 19
  {
    var m := margins.value;
    assert (num + 1) * (m["spacing"] + 19) == num * (m["spacing"] + 19) + m["spacing"] + 19;
  }

  /** fade(): the fade tag of the options. */
  function FadeTag(opts: AssOptions): (r: Tag)
    ensures r.Fade? && r.fadeIn == opts.fadeIn && r.fadeOut == opts.fadeOut
  {
    Fade(opts.fadeIn, opts.fadeOut)
  }

  // ---------------------------------------------------------------------
  // Karaoke timing

  /** The next syllable starts one centisecond after syllable n ends. */
  predicate Continues(syls: seq<Syllable>, n: nat)
    requires n < |syls|
  {
    n + 1 < |syls| && syls[n + 1].start - syls[n].end == 1
  }

  /** The duration written for syllable n when the cursor is at cur: its
      length, less how far the cursor has already passed its start (with
      no floor), and one centisecond more when the next syllable follows on
      (never for the last syllable). */
  function Duration(syls: seq<Syllable>, n: nat, cur: int): (r: int)
    requires n < |syls|
    ensures n + 1 == |syls| ==> !Continues(syls, n)
    ensures r - (if Continues(syls, n) then 1 else 0) <= syls[n].end - syls[n].start
    ensures syls[n].start < cur ==>
      r - (if Continues(syls, n) then 1 else 0) == syls[n].end - cur
    ensures syls[n].start >= cur ==>
      r - (if Continues(syls, n) then 1 else 0) == syls[n].end - syls[n].start
  {
    var s := syls[n];
    var delay := s.start - cur;
    var dur := s.end - s.start + (if delay < 0 then delay else 0);
    if Continues(syls, n) then dur + 1 else dur
  }

  /** The tags of syllable n with the cursor at cur: a hold of exactly the
      gap when the syllable starts after the cursor (no hold otherwise, so
      never a zero hold), then the syllable wiped over its duration. */
  function SyllableTags(syls: seq<Syllable>, n: nat, cur: int): (r: seq<Tag>)
    requires n < |syls|
    ensures |r| == if syls[n].start > cur then 2 else 1
    ensures r[|r| - 1] == Kf(Duration(syls, n, cur), syls[n].syllable)
    ensures |r| == 2 ==> r[0] == Hold(syls[n].start - cur) && r[0].cs > 0
  {
    var delay := syls[n].start - cur;
    (if delay > 0 then [Hold(delay)] else []) + [Kf(Duration(syls, n, cur), syls[n].syllable)]
  }

  /** The cursor after syllable n as kbp2asstext sets it: the syllable's
      start plus the duration written for it. */
  function NextCursorAsWritten(syls: seq<Syllable>, n: nat, cur: int): int
    requires n < |syls|
  {
    syls[n].start + Duration(syls, n, cur)
  }

  /** Where the tags written so far end after syllable n: the later of the
      cursor and the syllable's start, plus the duration written for it. */
  function NextCursor(syls: seq<Syllable>, n: nat, cur: int): int
    requires n < |syls|
  {
    (if syls[n].start < cur then cur else syls[n].start) + Duration(syls, n, cur)
  }

  /** The cursor after the first n syllables of a line starting at start,
      as kbp2asstext moves it. */
  function CursorAsWritten(syls: seq<Syllable>, start: int, n: nat): int
    requires n <= |syls|
  {
    if n == 0 then start
    else NextCursorAsWritten(syls, n - 1, CursorAsWritten(syls, start, n - 1))
  }

  /** The tags of the first n syllables with the cursor as written. */
  function KaraokeAsWritten(syls: seq<Syllable>, start: int, n: nat): seq<Tag>
    requires n <= |syls|
  {
    if n == 0 then []
    else KaraokeAsWritten(syls, start, n - 1) + SyllableTags(syls, n - 1, CursorAsWritten(syls, start, n - 1))
  }

  /** The cursor after the first n syllables, kept where the tags end. */
  function Cursor(syls: seq<Syllable>, start: int, n: nat): int
    requires n <= |syls|
  {
    if n == 0 then start
    else NextCursor(syls, n - 1, Cursor(syls, start, n - 1))
  }

  /** The tags of the first n syllables with the cursor kept where the
      tags end. */
  function Karaoke(syls: seq<Syllable>, start: int, n: nat): seq<Tag>
    requires n <= |syls|
  {
    if n == 0 then []
    else Karaoke(syls, start, n - 1) + SyllableTags(syls, n - 1, Cursor(syls, start, n - 1))
  }

  /** The karaoke time a run of tags takes: its holds and durations. */
  function Elapsed(tags: seq<Tag>): int {
    if |tags| == 0 then 0
    else (match tags[0] case Hold(cs) => cs case Kf(cs, _) => cs case _ => 0) + Elapsed(tags[1..])
  }

  lemma {:induction false} ElapsedAppend(a: seq<Tag>, b: seq<Tag>)
    ensures Elapsed(a + b) == Elapsed(a) + Elapsed(b)
  {
    if |a| == 0 {
      assert a + b == b;
    } else {
      ElapsedAppend(a[1..], b);
      assert (a + b)[1..] == a[1..] + b;
    }
  }

  /** The syllable texts of the Kf tags of a run, in order. */
  function KfTexts(tags: seq<Tag>): seq<string> {
    if |tags| == 0 then []
    else (if tags[0].Kf? then [tags[0].text] else []) + KfTexts(tags[1..])
  }

  lemma {:induction false} KfTextsAppend(a: seq<Tag>, b: seq<Tag>)
    ensures KfTexts(a + b) == KfTexts(a) + KfTexts(b)
  {
    if |a| == 0 {
      assert a + b == b;
    } else {
      KfTextsAppend(a[1..], b);
      var h := if a[0].Kf? then [a[0].text] else [];
      assert (a + b)[0] == a[0] && (a + b)[1..] == a[1..] + b;
      assert KfTexts(a + b) == h + (KfTexts(a[1..]) + KfTexts(b));
      assert h + (KfTexts(a[1..]) + KfTexts(b)) == (h + KfTexts(a[1..])) + KfTexts(b);
    }
  }

  /** Every tag of a run is a syllable or a hold of positive length. */
  predicate OnlyTiming(tags: seq<Tag>) {
    forall i :: 0 <= i < |tags| ==> tags[i].Kf? || (tags[i].Hold? && tags[i].cs > 0)
  }

  /** The Kf text and the karaoke time of one syllable's tags. */
  lemma SyllableTagsSum(syls: seq<Syllable>, n: nat, cur: int)
    requires n < |syls|
    ensures KfTexts(SyllableTags(syls, n, cur)) == [syls[n].syllable]
    ensures Elapsed(SyllableTags(syls, n, cur))
         == (if syls[n].start > cur then syls[n].start - cur else 0) + Duration(syls, n, cur)
    ensures OnlyTiming(SyllableTags(syls, n, cur))
  {
    var t := SyllableTags(syls, n, cur);
    var last := [t[|t| - 1]];
    assert last[1..] == [];
    assert KfTexts(last) == [syls[n].syllable] + KfTexts([]);
    assert Elapsed(last) == Duration(syls, n, cur) + Elapsed([]);
    if |t| == 2 {
      assert t[1..] == last;
      assert KfTexts(t) == KfTexts(last);
      assert Elapsed(t) == syls[n].start - cur + Elapsed(last);
    }
  }

  /** The karaoke of a line holds exactly one Kf per syllable, in syllable
      order, and otherwise only holds, every one of them positive. */
  lemma {:induction false} KaraokeShape(syls: seq<Syllable>, start: int, n: nat)
    requires n <= |syls|
    ensures KfTexts(KaraokeAsWritten(syls, start, n)) == Texts(syls[..n])
    ensures OnlyTiming(KaraokeAsWritten(syls, start, n))
  {
    if n > 0 {
      KaraokeShape(syls, start, n - 1);
      ShapeStep(syls, n, KaraokeAsWritten(syls, start, n - 1), CursorAsWritten(syls, start, n - 1));
    }
  }

  /** The same shape under the corrected cursor rule: the shape of a
      syllable's tags does not depend on the cursor. */
  lemma {:induction false} KaraokeShapeIntended(syls: seq<Syllable>, start: int, n: nat)
    requires n <= |syls|
    ensures KfTexts(Karaoke(syls, start, n)) == Texts(syls[..n])
    ensures OnlyTiming(Karaoke(syls, start, n))
  {
    if n > 0 {
      KaraokeShapeIntended(syls, start, n - 1);
      ShapeStep(syls, n, Karaoke(syls, start, n - 1), Cursor(syls, start, n - 1));
    }
  }

  /** Appending syllable n - 1's tags, whatever the cursor, to tags in the
      shape of the first n - 1 syllables gives the shape of the first n. */
  lemma ShapeStep(syls: seq<Syllable>, n: nat, k: seq<Tag>, cur: int)
    requires 0 < n <= |syls|
    requires KfTexts(k) == Texts(syls[..n - 1]) && OnlyTiming(k)
    ensures KfTexts(k + SyllableTags(syls, n - 1, cur)) == Texts(syls[..n])
    ensures OnlyTiming(k + SyllableTags(syls, n - 1, cur))
  {
    var t := SyllableTags(syls, n - 1, cur);
    TextsSnoc(syls, n);
    KfTextsAppend(k, t);
    SyllableTagsSum(syls, n - 1, cur);
    OnlyTimingAppend(k, t);
  }

  lemma TextsSnoc(syls: seq<Syllable>, n: nat)
    requires 0 < n <= |syls|
    ensures Texts(syls[..n]) == Texts(syls[..n - 1]) + [syls[n - 1].syllable]
  {
    var a, b := Texts(syls[..n]), Texts(syls[..n - 1]) + [syls[n - 1].syllable];
    assert |a| == |b|;
    forall i | 0 <= i < |a| ensures a[i] == b[i] {
      if i < n - 1 {
        assert syls[..n][i] == syls[..n - 1][i];
      }
    }
  }

  lemma OnlyTimingAppend(a: seq<Tag>, b: seq<Tag>)
    requires OnlyTiming(a) && OnlyTiming(b)
    ensures OnlyTiming(a + b)
  {
    forall i | 0 <= i < |a + b| ensures (a + b)[i].Kf? || ((a + b)[i].Hold? && (a + b)[i].cs > 0) {
      if i >= |a| {
        assert (a + b)[i] == b[i - |a|];
      }
    }
  }

  /** With the cursor kept where the tags end, the cursor is always the
      line's start plus the karaoke time written so far. */
  lemma {:induction false} KaraokeInSync(syls: seq<Syllable>, start: int, n: nat)
    requires n <= |syls|
    ensures Elapsed(Karaoke(syls, start, n)) == Cursor(syls, start, n) - start
  {
    if n > 0 {
      var cur := Cursor(syls, start, n - 1);
      KaraokeInSync(syls, start, n - 1);
      ElapsedAppend(Karaoke(syls, start, n - 1), SyllableTags(syls, n - 1, cur));
      SyllableTagsSum(syls, n - 1, cur);
    }
  }

  /** With the cursor kept where the tags end, a syllable that starts at or
      after the cursor is wiped from exactly its own start time. */
  lemma SyllableOnTime(syls: seq<Syllable>, start: int, n: nat)
    requires n < |syls| && syls[n].start >= Cursor(syls, start, n)
    ensures var t := SyllableTags(syls, n, Cursor(syls, start, n));
      Elapsed(Karaoke(syls, start, n) + t[..|t| - 1]) == syls[n].start - start
  {
    KaraokeInSync(syls, start, n);
    HoldEndsAtStart(syls, n, Cursor(syls, start, n), Karaoke(syls, start, n), start);
  }

  /** After tags that end at cur, the hold of a syllable starting at or
      after cur ends at that syllable's start. */
  lemma HoldEndsAtStart(syls: seq<Syllable>, n: nat, cur: int, k: seq<Tag>, start: int)
    requires n < |syls| && syls[n].start >= cur && Elapsed(k) == cur - start
    ensures var t := SyllableTags(syls, n, cur); Elapsed(k + t[..|t| - 1]) == syls[n].start - start
  {
    var t := SyllableTags(syls, n, cur);
    var h := t[..|t| - 1];
    ElapsedAppend(k, h);
    if |t| == 2 {
      assert h == [Hold(syls[n].start - cur)] && h[1..] == [];
      assert Elapsed(h) == syls[n].start - cur + Elapsed([]);
    } else {
      assert h == [];
    }
  }

  /** As written, an overlap leaves the cursor behind the tags: after
      syllables (0,10) and (5,20) the cursor is at 15 while the tags end at
      20, and the syllable starting at 30 is wiped from 35. */
  lemma KaraokeDrift()
    ensures var syls := [Syllable("a", 0, 10, 0), Syllable("b", 5, 20, 0), Syllable("c", 30, 40, 0)];
      var t := SyllableTags(syls, 2, CursorAsWritten(syls, 0, 2));
      && syls[2].start >= CursorAsWritten(syls, 0, 2)
      && Elapsed(KaraokeAsWritten(syls, 0, 2) + t[..|t| - 1]) == 35 != syls[2].start - 0
  {
    DriftPrefix();
    var syls := [Syllable("a", 0, 10, 0), Syllable("b", 5, 20, 0), Syllable("c", 30, 40, 0)];
    var t := SyllableTags(syls, 2, 15);
    assert t[..|t| - 1] == [Hold(15)];
    ElapsedThree(Kf(10, "a"), Kf(10, "b"), Hold(15));
  }

  /** The first two syllables of the drift example, as written: the cursor
      stops at 15, the tags at 10 + 10 = 20. */
  lemma DriftPrefix()
    ensures var syls := [Syllable("a", 0, 10, 0), Syllable("b", 5, 20, 0), Syllable("c", 30, 40, 0)];
      && CursorAsWritten(syls, 0, 2) == 15
      && KaraokeAsWritten(syls, 0, 2) == [Kf(10, "a"), Kf(10, "b")]
  {
    var syls := [Syllable("a", 0, 10, 0), Syllable("b", 5, 20, 0), Syllable("c", 30, 40, 0)];
    assert !Continues(syls, 0) && !Continues(syls, 1);
    assert Duration(syls, 0, 0) == 10 && Duration(syls, 1, 10) == 10;
    assert SyllableTags(syls, 0, 0) == [Kf(10, "a")];
    assert SyllableTags(syls, 1, 10) == [Kf(10, "b")];
    assert CursorAsWritten(syls, 0, 1) == 10;
    assert KaraokeAsWritten(syls, 0, 1) == [Kf(10, "a")];
  }

  lemma ElapsedThree(a: Tag, b: Tag, c: Tag)
    requires (a.Hold? || a.Kf?) && (b.Hold? || b.Kf?) && (c.Hold? || c.Kf?)
    ensures Elapsed([a, b] + [c]) == a.cs + b.cs + c.cs
  {
    var all := [a, b] + [c];
    assert all[1..] == [b, c] && all[1..][1..] == [c] && [c][1..] == [];
    assert Elapsed([c]) == c.cs + Elapsed([]);
  }

  /** The two cursor rules agree on a line without overlaps: when no
      syllable starts before the cursor reaches it. */
  lemma {:induction false} KaraokeAgrees(syls: seq<Syllable>, start: int, n: nat)
    requires n <= |syls|
    requires forall i :: 0 <= i < n ==> syls[i].start >= Cursor(syls, start, i)
    ensures KaraokeAsWritten(syls, start, n) == Karaoke(syls, start, n)
    ensures CursorAsWritten(syls, start, n) == Cursor(syls, start, n)
  {
    if n > 0 {
      KaraokeAgrees(syls, start, n - 1);
    }
  }

  /** kbp2asstext, as a value: the position tag, the fade tag, then the
      karaoke of the syllables timed from the line's start, with the cursor
      moved as kbp2asstext moves it. */
  function AssTags(margins: Option<map<string, int>>, opts: AssOptions, line: Line, num: int): Result<seq<Tag>> {
    var pos :- GetPos(margins, line.header.align, num);
    Ok([pos, FadeTag(opts)] + KaraokeAsWritten(line.syllables, line.header.start, |line.syllables|))
  }

  /** kbp2asstext as evidently intended: the same tags with the cursor
      kept where the tags end. */
  function AssTagsIntended(margins: Option<map<string, int>>, opts: AssOptions, line: Line, num: int): Result<seq<Tag>> {
    var pos :- GetPos(margins, line.header.align, num);
    Ok([pos, FadeTag(opts)] + Karaoke(line.syllables, line.header.start, |line.syllables|))
  }

  /** The two fail together, and on a line where no syllable starts before
      the cursor reaches it they write the same tags. */
  lemma AssTagsAgree(margins: Option<map<string, int>>, opts: AssOptions, line: Line, num: int)
    ensures AssTags(margins, opts, line, num).Ok? <==> AssTagsIntended(margins, opts, line, num).Ok?
    ensures (forall i :: 0 <= i < |line.syllables| ==> line.syllables[i].start >= Cursor(line.syllables, line.header.start, i))
      ==> AssTags(margins, opts, line, num) == AssTagsIntended(margins, opts, line, num)
  {
    var syls := line.syllables;
    if forall i :: 0 <= i < |syls| ==> syls[i].start >= Cursor(syls, line.header.start, i) {
      KaraokeAgrees(syls, line.header.start, |syls|);
    }
  }

  /** Every timed event text starts with the position tag followed by
      {\fad(fade_in,fade_out)}. */
  lemma AssTagsStart(margins: Option<map<string, int>>, opts: AssOptions, line: Line, num: int)
    requires AssTags(margins, opts, line, num).Ok?
    ensures StartsWith(Render(AssTags(margins, opts, line, num).value),
                       TagText(GetPos(margins, line.header.align, num).value) + TagText(FadeTag(opts)))
  {
    RenderStart(GetPos(margins, line.header.align, num).value, FadeTag(opts),
                KaraokeAsWritten(line.syllables, line.header.start, |line.syllables|));
  }

  lemma RenderStart(a: Tag, b: Tag, k: seq<Tag>)
    ensures StartsWith(Render([a, b] + k), TagText(a) + TagText(b))
  {
    RenderCons(b, k);
    RenderCons(a, [b] + k);
    assert [a, b] + k == [a] + ([b] + k);
    StartsWithAppend(TagText(a), TagText(b), Render(k));
  }

  lemma RenderCons(t: Tag, rest: seq<Tag>)
    ensures Render([t] + rest) == TagText(t) + Render(rest)
  {
    assert ([t] + rest)[0] == t && ([t] + rest)[1..] == rest;
  }

  lemma StartsWithAppend(x: string, y: string, z: string)
    ensures StartsWith(x + (y + z), x + y)
  {
    assert x + (y + z) == (x + y) + z;
    assert ((x + y) + z)[..|x + y|] == x + y;
  }

  /** The fade tag reads {\fad(fade_in,fade_out)}. */
  lemma FadeText(opts: AssOptions)
    ensures TagText(FadeTag(opts)) == "{\\fad(" + IntToString(opts.fadeIn) + "," + IntToString(opts.fadeOut) + ")}"
  {
  }

  /** The syllables of a timed event text are those of the line, in order,
      one Kf each. */
  lemma AssTagsSyllables(margins: Option<map<string, int>>, opts: AssOptions, line: Line, num: int)
    requires AssTags(margins, opts, line, num).Ok?
    ensures KfTexts(AssTags(margins, opts, line, num).value) == Texts(line.syllables)
  {
    var syls := line.syllables;
    var k := KaraokeAsWritten(syls, line.header.start, |syls|);
    KaraokeShape(syls, line.header.start, |syls|);
    assert syls[..|syls|] == syls;
    var pos := GetPos(margins, line.header.align, num).value;
    var tags := [pos, FadeTag(opts)] + k;
    assert tags[1..] == [FadeTag(opts)] + k && ([FadeTag(opts)] + k)[1..] == k;
  }

  /** The worked example, as tags: a line from 100 with "Hi" (100-200) and
      "there" (205-500); "Hi" starts on the cursor, so no hold precedes it. */
  lemma WorkedExampleTags()
    ensures KaraokeAsWritten([Syllable("Hi", 100, 200, 0), Syllable("there", 205, 500, 0)], 100, 2)
         == [Kf(100, "Hi"), Hold(5), Kf(295, "there")]
  {
    var syls := [Syllable("Hi", 100, 200, 0), Syllable("there", 205, 500, 0)];
    assert !Continues(syls, 0) && !Continues(syls, 1);
    assert Duration(syls, 0, 100) == 100 && Duration(syls, 1, 200) == 295;
    assert SyllableTags(syls, 0, 100) == [Kf(100, "Hi")];
    assert SyllableTags(syls, 1, 200) == [Hold(5), Kf(295, "there")];
    assert CursorAsWritten(syls, 100, 1) == 200;
    assert KaraokeAsWritten(syls, 100, 1) == [Kf(100, "Hi")];
  }

  lemma ExampleTagTexts()
    ensures TagText(Kf(100, "Hi")) == "{\\kf100}Hi"
    ensures TagText(Hold(5)) == "{\\k5}"
    ensures TagText(Kf(295, "there")) == "{\\kf295}there"
  {
    ExampleNumerals();
  }

  lemma ExampleNumerals()
    ensures IntToString(100) == "100" && IntToString(5) == "5" && IntToString(295) == "295"
  {
    assert NatToString(1) == "1" && NatToString(10) == "10" && NatToString(100) == "100";
    assert NatToString(2) == "2" && NatToString(29) == "29" && NatToString(295) == "295";
  }

  lemma RenderThree(a: Tag, b: Tag, c: Tag)
    ensures Render([a, b, c]) == TagText(a) + TagText(b) + TagText(c)
  {
    var x, y, z := TagText(a), TagText(b), TagText(c);
    assert Render([c]) == z by {
      assert [c][1..] == [];
    }
    assert Render([b, c]) == y + z by {
      assert [b, c][1..] == [c];
    }
    assert Render([a, b, c]) == x + (y + z) by {
      assert [a, b, c][1..] == [b, c];
    }
    assert x + (y + z) == x + y + z;
  }

  /** The worked example, as text: {\kf100}Hi{\k5}{\kf295}there. */
  lemma WorkedExampleText()
    ensures Render([Kf(100, "Hi"), Hold(5), Kf(295, "there")]) == "{\\kf100}Hi{\\k5}{\\kf295}there"
  {
    RenderThree(Kf(100, "Hi"), Hold(5), Kf(295, "there"));
    ExampleTagTexts();
  }

  // ---------------------------------------------------------------------
  // Style names and colours

  function Abs(n: int): nat {
    if n < 0 then -n else n
  }

  /** "{:02}": the decimal digits, zero-padded to at least two. */
  function Pad2(n: nat): (r: string)
    ensures IsDigits(r) && |r| >= 2 && DigitsValue(r) == n
  {
    NatToStringValue(n);
    if n < 10 then
      var r := "0" + NatToString(n);
      assert r[..|r| - 1] == "0" && "0"[..0] == [];
      r
    else NatToString(n)
  }

  /** ass_style_name: "Style", the key's magnitude in two or more digits,
      "_", and the KBP name; a fixed variant shares its style's number. */
  function AssStyleName(index: int, kbpName: string): string {
    "Style" + Pad2(Abs(index)) + "_" + kbpName
  }

  /** Reading an ASS style name back: the number between "Style" and the
      first underscore, and everything after that underscore. */
  function StyleNameParts(name: string): Option<(nat, string)> {
    if !StartsWith(name, "Style") then None
    else
      var pieces := Split(name[5..], '_');
      if |pieces| < 2 || !IsDigits(pieces[0]) then None
      else Some((DigitsValue(pieces[0]), Join(pieces[1..], "_")))
  }

  /** A style name gives back the key's magnitude and the KBP name, whatever
      underscores the name holds. */
  lemma AssStyleNameRoundTrip(index: int, kbpName: string)
    ensures StyleNameParts(AssStyleName(index, kbpName)) == Some((Abs(index), kbpName))
  {
    var d := Pad2(Abs(index));
    var name := AssStyleName(index, kbpName);
    assert name[5..] == d + ['_'] + kbpName;
    assert '_' !in d by {
      forall i | 0 <= i < |d| ensures d[i] != '_' {
        assert IsDigit(d[i]);
      }
    }
    SplitCons(d, kbpName, '_');
    var pieces := Split(name[5..], '_');
    assert pieces[0] == d && pieces[1..] == Split(kbpName, '_');
    SplitJoin(kbpName, '_');
  }

  /** reversed(s) */
  function Reversed(s: string): (r: string)
    ensures |r| == |s| && forall i :: 0 <= i < |s| ==> r[i] == s[|s| - 1 - i]
  {
    if |s| == 0 then "" else Reversed(s[1..]) + [s[0]]
  }

  lemma ReversedTwice(s: string)
    ensures Reversed(Reversed(s)) == s
  {
  }

  /** kbp2asscolor: "&H00" (opaque), then the colour code's characters in
      reverse order (blue, green, red), each written twice. A palette index
      is not iterable: a TypeError. */
  function Kbp2AssColor(c: Color): (r: Result<string>)
    ensures r.Ok? <==> c.Code?
    ensures r.Err? ==> r.error == NotIterable
    ensures r.Ok? ==> var s := c.code;
      && |r.value| == 4 + 2 * |s| && r.value[..4] == "&H00"
      && forall i :: 0 <= i < |s| ==> r.value[4 + 2 * i] == r.value[5 + 2 * i] == s[|s| - 1 - i]
  {
    match c
    case Index(_) => Err(NotIterable)
    case Code(s) => Ok("&H00" + Palette.DoubleChars(Reversed(s)))
  }

  /** The KBP code an ASS colour was made from. */
  function AssColorToKbp(a: string): string
    requires |a| >= 4
  {
    Reversed(Palette.EveryOther(a[4..]))
  }

  /** Every colour code comes back from its ASS colour; a three-digit code
      gives ten characters. */
  lemma AssColorRoundTrip(code: string)
    ensures Kbp2AssColor(Code(code)).Ok?
    ensures AssColorToKbp(Kbp2AssColor(Code(code)).value) == code
    ensures |code| == 3 ==> |Kbp2AssColor(Code(code)).value| == 10
  {
    var a := Kbp2AssColor(Code(code)).value;
    assert a[4..] == Palette.DoubleChars(Reversed(code));
    Palette.DoubleCharsInverse(Reversed(code));
    ReversedTwice(code);
  }

  /** An ASS style, its floating-point fields kept as exact integers: the
      font size in tenths, the outline in quarters and the shadow in
      halves. */
  datatype AssStyle = AssStyle(
    name: string,
    fontname: string,
    fontsizeTenths: int,
    secondaryColor: string,
    primaryColor: string,
    outlineColor: string,
    backColor: string,
    bold: bool,
    italic: bool,
    underline: bool,
    strikeOut: bool,
    outlineQuarters: int,
    shadowHalves: int,
    marginL: int,
    marginR: int,
    marginV: int,
    encoding: int,
    alignment: int)

  function Sum(xs: seq<int>): int {
    if |xs| == 0 then 0 else xs[0] + Sum(xs[1..])
  }

  /** The ASS style written for entry index of the collection: the plain
      colours become the secondary and outline colours, the wipe colours
      the primary and back colours; bold, italic, underline and strike-out
      are set exactly when B, I, U, S occur in the font style; the style is
      top-centred (8) with no margins. Any colour still a palette index
      fails. */
  function ConvertStyle(index: int, s: KbpStyle): (r: Result<AssStyle>)
    ensures r.Ok? <==> s.textcolor.Code? && s.textwipecolor.Code? && s.outlinecolor.Code? && s.outlinewipecolor.Code?
    ensures r.Err? ==> r.error == NotIterable
    ensures r.Ok? ==>
      && r.value.name == AssStyleName(index, s.name) && r.value.fontname == s.fontname
      && r.value.fontsizeTenths == 14 * s.fontsize
      && r.value.outlineQuarters == Sum(s.outlines) && r.value.shadowHalves == Sum(s.shadows)
      && r.value.secondaryColor == Kbp2AssColor(s.textcolor).value
      && r.value.primaryColor == Kbp2AssColor(s.textwipecolor).value
      && r.value.outlineColor == Kbp2AssColor(s.outlinecolor).value
      && r.value.backColor == Kbp2AssColor(s.outlinewipecolor).value
      && (r.value.bold <==> 'B' in s.fontstyle) && (r.value.italic <==> 'I' in s.fontstyle)
      && (r.value.underline <==> 'U' in s.fontstyle) && (r.value.strikeOut <==> 'S' in s.fontstyle)
      && r.value.alignment == 8 && r.value.marginL == r.value.marginR == r.value.marginV == 0
      && r.value.encoding == s.charset
  {
    var secondary :- Kbp2AssColor(s.textcolor);
    var primary :- Kbp2AssColor(s.textwipecolor);
    var outline :- Kbp2AssColor(s.outlinecolor);
    var back :- Kbp2AssColor(s.outlinewipecolor);
    Ok(AssStyle(AssStyleName(index, s.name), s.fontname, s.fontsize * 14, secondary, primary, outline, back,
                'B' in s.fontstyle, 'I' in s.fontstyle, 'U' in s.fontstyle, 'S' in s.fontstyle,
                Sum(s.outlines), Sum(s.shadows), 0, 0, 0, s.charset, 8))
  }

  /** The fixed variant of a style does not wipe: its primary colour is its
      secondary colour and its back colour its outline colour, and it is
      written under the number of the style it was made from. */
  lemma FixedStyleDoesNotWipe(k: int, s: KbpStyle)
    requires !s.fixed && ConvertStyle(-k, MakeFixed(s)).Ok?
    ensures var a := ConvertStyle(-k, MakeFixed(s)).value;
      && a.primaryColor == a.secondaryColor && a.backColor == a.outlineColor
      && StyleNameParts(a.name) == Some((Abs(k), s.name + "_fixed"))
  {
    AssStyleNameRoundTrip(-k, s.name + "_fixed");
  }

  // ---------------------------------------------------------------------
  // The document

  /** A Dialogue event: start and end in milliseconds, the ASS style name,
      the effect and the text. */
  datatype Dialogue = Dialogue(start: int, end: int, style: string, effect: string, text: string)

  /** The script: its info fields, events and styles, in order. */
  datatype Document = Document(info: seq<(string, string)>, events: seq<Dialogue>, styles: seq<AssStyle>)

  /** The script info the conversion sets: a 300x216 play area. */
  const ScriptInfo: seq<(string, string)> := [
    ("Title", ""), ("ScriptType", "v4.00+"), ("WrapStyle", "0"), ("ScaledBorderAndShadow", "yes"),
    ("Collisions", "Normal"), ("PlayResX", "300"), ("PlayResY", "216")]

  /** The event of line num of a page and the collection after the style
      lookup: none for an empty line; otherwise timed in milliseconds from
      the line's centiseconds, named after the line's style (its fixed
      variant derived and kept on first use), and carrying the plain line
      text when that style is fixed and the karaoke markup otherwise. */
  function LineEvent(st: Styles, margins: Option<map<string, int>>, opts: AssOptions, line: Line, num: int)
    : (r: Result<(Option<Dialogue>, Styles)>)
    ensures line.IsEmpty() ==> r == Ok((None, st))
    ensures !line.IsEmpty() && r.Ok? ==>
      && Lookup(st, Letter(line.header.style)).Ok? && r.value.1 == Lookup(st, Letter(line.header.style)).value.1
      && r.value.0.Some? && r.value.0.value.effect == "karaoke"
      && r.value.0.value.start == line.header.start * 10 && r.value.0.value.end == line.header.end * 10
    ensures !line.IsEmpty() ==> var look := Lookup(st, Letter(line.header.style));
      && (r.Ok? <==> look.Ok? && (look.value.0.fixed || AssTags(margins, opts, line, num).Ok?))
      && (look.Err? ==> r == Err(look.error))
      && (look.Ok? && !look.value.0.fixed && AssTags(margins, opts, line, num).Err? ==>
            r == Err(AssTags(margins, opts, line, num).error))
    ensures !line.IsEmpty() && r.Ok? ==> var look := Lookup(st, Letter(line.header.style));
      && AlphaToKey(line.header.style).Some?
      && r.value.0.value.style == AssStyleName(AlphaToKey(line.header.style).value, look.value.0.name)
      && r.value.0.value.text == if look.value.0.fixed then LineText(line, "", false)
                                 else Render(AssTags(margins, opts, line, num).value)
  {
    if line.IsEmpty() then Ok((None, st))
    else
      var c := line.header.style;
      var found :- Lookup(st, Letter(c));
      var style := found.0;
      var text :- if style.fixed then Ok(LineText(line, "", false))
                  else (var tags :- AssTags(margins, opts, line, num); Ok(Render(tags)));
      var k := if AlphaToKey(c).Some? then AlphaToKey(c).value else 0;
      Ok((Some(Dialogue(line.header.start * 10, line.header.end * 10, AssStyleName(k, style.name), "karaoke", text)),
          found.1))
  }

  /** The events of the lines of a page from line m on, after the events
      so far, and the collection after their lookups. */
  function LinesFrom(lines: seq<Line>, m: nat, st: Styles, events: seq<Dialogue>,
                     margins: Option<map<string, int>>, opts: AssOptions): Result<(seq<Dialogue>, Styles)>
    requires m <= |lines|
    decreases |lines| - m
  {
    if m == |lines| then Ok((events, st))
    else
      var e :- LineEvent(st, margins, opts, lines[m], m);
      LinesFrom(lines, m + 1, e.1, events + (if e.0.Some? then [e.0.value] else []), margins, opts)
  }

  /** The events of the pages from page n on, after the events so far. */
  function PagesFrom(pages: seq<Page>, n: nat, st: Styles, events: seq<Dialogue>,
                     margins: Option<map<string, int>>, opts: AssOptions): Result<(seq<Dialogue>, Styles)>
    requires n <= |pages|
    decreases |pages| - n
  {
    if n == |pages| then Ok((events, st))
    else
      var e :- LinesFrom(pages[n].lines, 0, st, events, margins, opts);
      PagesFrom(pages, n + 1, e.1, e.0, margins, opts)
  }

  /** Every key of the insertion order has an entry. */
  predicate OrderListed(st: Styles) {
    forall j :: 0 <= j < |st.order| ==> st.order[j] in st.entries
  }

  /** The conversion of each entry, in insertion order. */
  function Conversions(st: Styles): (r: seq<Result<AssStyle>>)
    requires OrderListed(st)
    ensures |r| == |st.order|
    ensures forall j :: 0 <= j < |r| ==> r[j] == ConvertStyle(st.order[j], st.entries[st.order[j]])
  {
    seq(|st.order|, j requires 0 <= j < |st.order| => ConvertStyle(st.order[j], st.entries[st.order[j]]))
  }

  /** The styles from conversion i on, after the styles so far; the first
      conversion that failed fails the list. */
  function CollectFrom(rs: seq<Result<AssStyle>>, i: nat, out: seq<AssStyle>): Result<seq<AssStyle>>
    requires i <= |rs|
    decreases |rs| - i
  {
    if i == |rs| then Ok(out)
    else
      var a :- rs[i];
      CollectFrom(rs, i + 1, out + [a])
  }

  /** The start and end, in milliseconds, of the events of the non-empty
      lines, in order. */
  function LineTimes(lines: seq<Line>): seq<(int, int)> {
    if |lines| == 0 then []
    else
      (if lines[0].IsEmpty() then [] else [(lines[0].header.start * 10, lines[0].header.end * 10)])
      + LineTimes(lines[1..])
  }

  function PageTimes(pages: seq<Page>): seq<(int, int)> {
    if |pages| == 0 then [] else LineTimes(pages[0].lines) + PageTimes(pages[1..])
  }

  /** The start and end of each event. */
  function Times(events: seq<Dialogue>): seq<(int, int)> {
    if |events| == 0 then [] else [(events[0].start, events[0].end)] + Times(events[1..])
  }

  lemma {:induction false} TimesAppend(a: seq<Dialogue>, b: seq<Dialogue>)
    ensures Times(a + b) == Times(a) + Times(b)
  {
    if |a| == 0 {
      assert a + b == b;
    } else {
      TimesAppend(a[1..], b);
      var h := [(a[0].start, a[0].end)];
      assert (a + b)[0] == a[0] && (a + b)[1..] == a[1..] + b;
      assert Times(a + b) == h + (Times(a[1..]) + Times(b));
      assert h + (Times(a[1..]) + Times(b)) == (h + Times(a[1..])) + Times(b);
    }
  }

  /** The lines of a page give one event each when not empty, none when
      empty, in line order, timed at ten times their centiseconds. */
  lemma {:induction false} LinesFromTimes(lines: seq<Line>, m: nat, st: Styles, events: seq<Dialogue>,
                                          margins: Option<map<string, int>>, opts: AssOptions)
    requires m <= |lines| && LinesFrom(lines, m, st, events, margins, opts).Ok?
    ensures Times(LinesFrom(lines, m, st, events, margins, opts).value.0) == Times(events) + LineTimes(lines[m..])
    decreases |lines| - m
  {
    if m == |lines| {
      assert lines[m..] == [];
    } else {
      LinesFromStep(lines, m, st, events, margins, opts);
      var e := LineEvent(st, margins, opts, lines[m], m).value;
      LinesFromTimes(lines, m + 1, e.1, events + (if e.0.Some? then [e.0.value] else []), margins, opts);
      LineTimesFrom(lines, m);
      EventTimes(events, e.0, lines[m], LineTimes(lines[m + 1..]));
    }
  }

  /** One more event adds the times of its line, when it has one. */
  lemma EventTimes(events: seq<Dialogue>, e: Option<Dialogue>, line: Line, rest: seq<(int, int)>)
    requires e.Some? <==> !line.IsEmpty()
    requires e.Some? ==> e.value.start == line.header.start * 10 && e.value.end == line.header.end * 10
    ensures Times(events + (if e.Some? then [e.value] else [])) + rest
         == Times(events) + ((if line.IsEmpty() then [] else [(line.header.start * 10, line.header.end * 10)]) + rest)
  {
    var added := if e.Some? then [e.value] else [];
    var x := if line.IsEmpty() then [] else [(line.header.start * 10, line.header.end * 10)];
    TimesAppend(events, added);
    if e.Some? {
      assert added[1..] == [];
      assert Times(added) == x + Times([]);
    }
    var a := Times(events);
    assert (a + x) + rest == a + (x + rest);
  }

  lemma LinesFromStep(lines: seq<Line>, m: nat, st: Styles, events: seq<Dialogue>,
                      margins: Option<map<string, int>>, opts: AssOptions)
    requires m < |lines| && LinesFrom(lines, m, st, events, margins, opts).Ok?
    ensures var e := LineEvent(st, margins, opts, lines[m], m);
      && e.Ok?
      && LinesFrom(lines, m, st, events, margins, opts)
         == LinesFrom(lines, m + 1, e.value.1, events + (if e.value.0.Some? then [e.value.0.value] else []), margins, opts)
  {
  }

  lemma LineTimesFrom(lines: seq<Line>, m: nat)
    requires m < |lines|
    ensures LineTimes(lines[m..])
         == (if lines[m].IsEmpty() then [] else [(lines[m].header.start * 10, lines[m].header.end * 10)])
            + LineTimes(lines[m + 1..])
  {
    assert lines[m..][0] == lines[m] && lines[m..][1..] == lines[m + 1..];
  }

  /** The whole event list: one event per non-empty line of every page, in
      page and line order. */
  lemma {:induction false} PagesFromTimes(pages: seq<Page>, n: nat, st: Styles, events: seq<Dialogue>,
                                          margins: Option<map<string, int>>, opts: AssOptions)
    requires n <= |pages| && PagesFrom(pages, n, st, events, margins, opts).Ok?
    ensures Times(PagesFrom(pages, n, st, events, margins, opts).value.0) == Times(events) + PageTimes(pages[n..])
    decreases |pages| - n
  {
    if n == |pages| {
      assert pages[n..] == [];
    } else {
      var ls := pages[n].lines;
      PagesFromStep(pages, n, st, events, margins, opts);
      var e := LinesFrom(ls, 0, st, events, margins, opts).value;
      LinesFromTimes(ls, 0, st, events, margins, opts);
      assert ls[0..] == ls;
      PagesFromTimes(pages, n + 1, e.1, e.0, margins, opts);
      PageTimesFrom(pages, n);
      AppendAfter(Times(events), LineTimes(ls), PageTimes(pages[n + 1..]), Times(e.0));
    }
  }

  /** Appending to a sum of two parts appends to its second part. */
  lemma AppendAfter<T>(a: seq<T>, b: seq<T>, c: seq<T>, ab: seq<T>)
    requires ab == a + b
    ensures ab + c == a + (b + c)
  {
  }

  lemma PagesFromStep(pages: seq<Page>, n: nat, st: Styles, events: seq<Dialogue>,
                      margins: Option<map<string, int>>, opts: AssOptions)
    requires n < |pages| && PagesFrom(pages, n, st, events, margins, opts).Ok?
    ensures var e := LinesFrom(pages[n].lines, 0, st, events, margins, opts);
      e.Ok? && PagesFrom(pages, n, st, events, margins, opts) == PagesFrom(pages, n + 1, e.value.1, e.value.0, margins, opts)
  {
  }

  lemma PageTimesFrom(pages: seq<Page>, n: nat)
    requires n < |pages|
    ensures PageTimes(pages[n..]) == LineTimes(pages[n].lines) + PageTimes(pages[n + 1..])
  {
    assert pages[n..][0] == pages[n] && pages[n..][1..] == pages[n + 1..];
  }

  /** Lookups keep a collection valid. */
  lemma LineEventValid(st: Styles, margins: Option<map<string, int>>, opts: AssOptions, line: Line, num: int)
    requires ValidStyles(st) && LineEvent(st, margins, opts, line, num).Ok?
    ensures ValidStyles(LineEvent(st, margins, opts, line, num).value.1)
  {
    if !line.IsEmpty() {
      LookupNumValid(st, AlphaToKey(line.header.style).value);
    }
  }

  lemma {:induction false} LinesFromValid(lines: seq<Line>, m: nat, st: Styles, events: seq<Dialogue>,
                                          margins: Option<map<string, int>>, opts: AssOptions)
    requires m <= |lines| && ValidStyles(st) && LinesFrom(lines, m, st, events, margins, opts).Ok?
    ensures ValidStyles(LinesFrom(lines, m, st, events, margins, opts).value.1)
    decreases |lines| - m
  {
    if m < |lines| {
      var e := LineEvent(st, margins, opts, lines[m], m).value;
      LineEventValid(st, margins, opts, lines[m], m);
      LinesFromValid(lines, m + 1, e.1, events + (if e.0.Some? then [e.0.value] else []), margins, opts);
    }
  }

  lemma {:induction false} PagesFromValid(pages: seq<Page>, n: nat, st: Styles, events: seq<Dialogue>,
                                          margins: Option<map<string, int>>, opts: AssOptions)
    requires n <= |pages| && ValidStyles(st) && PagesFrom(pages, n, st, events, margins, opts).Ok?
    ensures ValidStyles(PagesFrom(pages, n, st, events, margins, opts).value.1)
    decreases |pages| - n
  {
    if n < |pages| {
      var e := LinesFrom(pages[n].lines, 0, st, events, margins, opts).value;
      LinesFromValid(pages[n].lines, 0, st, events, margins, opts);
      PagesFromValid(pages, n + 1, e.1, e.0, margins, opts);
    }
  }

  /** The collection st2 keeps every entry of st unchanged: lookups only
      add entries. */
  predicate Extends(st: Styles, st2: Styles) {
    forall k :: k in st.entries ==> k in st2.entries && st2.entries[k] == st.entries[k]
  }

  /** The ASS name of some entry of the collection, written under its key. */
  ghost predicate NamesEntry(name: string, st: Styles) {
    exists k :: k in st.entries && name == AssStyleName(k, st.entries[k].name)
  }

  /** Every event is named after some entry of the collection. */
  ghost predicate EventsNamed(events: seq<Dialogue>, st: Styles) {
    forall i :: 0 <= i < |events| ==> NamesEntry(events[i].style, st)
  }

  lemma NamesEntryExtends(name: string, st: Styles, st2: Styles)
    requires NamesEntry(name, st) && Extends(st, st2)
    ensures NamesEntry(name, st2)
  {
    var k :| k in st.entries && name == AssStyleName(k, st.entries[k].name);
    assert k in st2.entries && name == AssStyleName(k, st2.entries[k].name);
  }

  /** The event of a line is named after the entry its lookup found, which
      the collection keeps, and the lookup keeps every other entry. */
  lemma LineEventNamed(st: Styles, margins: Option<map<string, int>>, opts: AssOptions, line: Line, num: int,
                       events: seq<Dialogue>)
    requires LineEvent(st, margins, opts, line, num).Ok? && EventsNamed(events, st)
    ensures var e := LineEvent(st, margins, opts, line, num).value;
      && Extends(st, e.1) && EventsNamed(events + (if e.0.Some? then [e.0.value] else []), e.1)
  {
    var e := LineEvent(st, margins, opts, line, num).value;
    if line.IsEmpty() {
      assert events + [] == events;
    } else {
      var k := AlphaToKey(line.header.style).value;
      var look := LookupNum(st, k).value;
      assert Lookup(st, Letter(line.header.style)) == LookupNum(st, k);
      assert k in e.1.entries && e.1.entries[k] == look.0;
      assert Extends(st, e.1);
      var all := events + [e.0.value];
      forall i | 0 <= i < |all| ensures NamesEntry(all[i].style, e.1) {
        if i < |events| {
          NamesEntryExtends(events[i].style, st, e.1);
        } else {
          assert all[i].style == AssStyleName(k, e.1.entries[k].name);
        }
      }
    }
  }

  lemma {:induction false} LinesFromNamed(lines: seq<Line>, m: nat, st: Styles, events: seq<Dialogue>,
                                          margins: Option<map<string, int>>, opts: AssOptions)
    requires m <= |lines| && LinesFrom(lines, m, st, events, margins, opts).Ok? && EventsNamed(events, st)
    ensures var r := LinesFrom(lines, m, st, events, margins, opts).value; EventsNamed(r.0, r.1)
    decreases |lines| - m
  {
    if m < |lines| {
      var e := LineEvent(st, margins, opts, lines[m], m).value;
      LineEventNamed(st, margins, opts, lines[m], m, events);
      LinesFromNamed(lines, m + 1, e.1, events + (if e.0.Some? then [e.0.value] else []), margins, opts);
    }
  }

  lemma {:induction false} PagesFromNamed(pages: seq<Page>, n: nat, st: Styles, events: seq<Dialogue>,
                                          margins: Option<map<string, int>>, opts: AssOptions)
    requires n <= |pages| && PagesFrom(pages, n, st, events, margins, opts).Ok? && EventsNamed(events, st)
    ensures var r := PagesFrom(pages, n, st, events, margins, opts).value; EventsNamed(r.0, r.1)
    decreases |pages| - n
  {
    if n < |pages| {
      var e := LinesFrom(pages[n].lines, 0, st, events, margins, opts).value;
      LinesFromNamed(pages[n].lines, 0, st, events, margins, opts);
      PagesFromNamed(pages, n + 1, e.1, e.0, margins, opts);
    }
  }

  /** Every negative key of the collection holds a fixed style, as it does
      for the fixed variants the lookups derive. */
  predicate FixedBelowZero(st: Styles) {
    forall k :: k in st.entries && k < 0 ==> st.entries[k].fixed
  }

  /** The style of a lower-case letter is fixed, when the collection keeps
      fixed styles at its negative keys; the lookup keeps that so. */
  lemma LowerCaseFixed(st: Styles, c: char)
    requires FixedBelowZero(st) && IsLower(c) && Lookup(st, Letter(c)).Ok?
    ensures Lookup(st, Letter(c)).value.0.fixed
    ensures FixedBelowZero(Lookup(st, Letter(c)).value.1)
  {
  }

  /** A line with a lower-case (fixed) style letter carries the plain line
      text, not karaoke markup. */
  lemma FixedLinePlain(st: Styles, margins: Option<map<string, int>>, opts: AssOptions, line: Line, num: int)
    requires FixedBelowZero(st) && IsLower(line.header.style) && !line.IsEmpty()
    requires LineEvent(st, margins, opts, line, num).Ok?
    ensures LineEvent(st, margins, opts, line, num).value.0.value.text == LineText(line, "", false)
    ensures FixedBelowZero(LineEvent(st, margins, opts, line, num).value.1)
  {
    LowerCaseFixed(st, line.header.style);
  }

  /** A line whose style is not fixed carries its karaoke markup, which
      starts with the position and fade tags. */
  lemma KaraokeLineTimed(st: Styles, margins: Option<map<string, int>>, opts: AssOptions, line: Line, num: int)
    requires !line.IsEmpty() && LineEvent(st, margins, opts, line, num).Ok?
    requires !Lookup(st, Letter(line.header.style)).value.0.fixed
    ensures AssTags(margins, opts, line, num).Ok?
    ensures LineEvent(st, margins, opts, line, num).value.0.value.text == Render(AssTags(margins, opts, line, num).value)
    ensures StartsWith(LineEvent(st, margins, opts, line, num).value.0.value.text,
                       TagText(GetPos(margins, line.header.align, num).value) + TagText(FadeTag(opts)))
  {
    AssTagsStart(margins, opts, line, num);
  }

  /** The list fails exactly when some remaining conversion failed, and
      then with the error of the first that did. */
  lemma {:induction false} CollectOk(rs: seq<Result<AssStyle>>, i: nat, out: seq<AssStyle>)
    requires i <= |rs|
    ensures CollectFrom(rs, i, out).Ok? <==> forall j :: i <= j < |rs| ==> rs[j].Ok?
    ensures CollectFrom(rs, i, out).Err? ==>
      exists j :: i <= j < |rs| && rs[j].Err? && CollectFrom(rs, i, out).error == rs[j].error
    decreases |rs| - i
  {
    if i < |rs| && rs[i].Ok? {
      CollectOk(rs, i + 1, out + [rs[i].value]);
    }
  }

  /** The list holds the styles so far, then the remaining conversions, in
      order. */
  lemma {:induction false} CollectValues(rs: seq<Result<AssStyle>>, i: nat, out: seq<AssStyle>)
    requires i <= |rs| && CollectFrom(rs, i, out).Ok?
    ensures var r := CollectFrom(rs, i, out).value;
      && |r| == |out| + |rs| - i
      && (forall j :: 0 <= j < |out| ==> r[j] == out[j])
      && (forall j :: i <= j < |rs| ==> rs[j].Ok? && r[|out| + (j - i)] == rs[j].value)
    decreases |rs| - i
  {
    if i < |rs| {
      var out' := out + [rs[i].value];
      CollectValues(rs, i + 1, out');
      var r := CollectFrom(rs, i, out).value;
      assert r == CollectFrom(rs, i + 1, out').value;
      assert r[|out|] == out'[|out|];
      forall j | i < j < |rs| ensures rs[j].Ok? && r[|out| + (j - i)] == rs[j].value {
        assert |out| + (j - i) == |out'| + (j - (i + 1));
      }
      forall j | 0 <= j < |out| ensures r[j] == out[j] {
        assert out'[j] == out[j];
      }
    }
  }

  /** ass_document, as a value: the events of every page, in order, then
      the styles of the collection those lookups leave behind (fixed
      variants derived on the way included), and that collection. */
  function DocumentSpec(s: KbpFile.Sections, opts: AssOptions): Result<(Document, Styles)>
    requires s.styles.Some? ==> ValidStyles(s.styles.value)
  {
    if s.styles.None? then Err(MissingAttribute("styles"))
    else
      var ev :- PagesFrom(s.pages, 0, s.styles.value, [], s.margins, opts);
      PagesFromValid(s.pages, 0, s.styles.value, [], s.margins, opts);
      var styles :- CollectFrom(Conversions(ev.1), 0, []);
      Ok((Document(ScriptInfo, ev.0, styles), ev.1))
  }

  /** The styles collected from conversions that all succeeded: their
      values, in order. */
  lemma CollectedStyles(rs: seq<Result<AssStyle>>)
    requires CollectFrom(rs, 0, []).Ok?
    ensures var r := CollectFrom(rs, 0, []).value;
      && |r| == |rs|
      && forall j :: 0 <= j < |rs| ==> rs[j].Ok? && r[j] == rs[j].value
  {
    CollectValues(rs, 0, []);
  }

  /** A converted document holds the fixed script info, one event per
      non-empty line of every page, in page and line order, timed at ten
      times the line's centiseconds, and one style per entry of the
      collection the lookups leave, in insertion order. */
  lemma DocumentContents(s: KbpFile.Sections, opts: AssOptions)
    requires s.styles.Some? ==> ValidStyles(s.styles.value)
    requires DocumentSpec(s, opts).Ok?
    ensures s.styles.Some?
    ensures var d := DocumentSpec(s, opts).value.0; var st := DocumentSpec(s, opts).value.1;
      && d.info == ScriptInfo
      && Times(d.events) == PageTimes(s.pages)
      && OrderListed(st)
      && |d.styles| == |st.order|
      && (forall j :: 0 <= j < |st.order| ==> Conversions(st)[j].Ok? && d.styles[j] == Conversions(st)[j].value)
  {
    var ev := PagesFrom(s.pages, 0, s.styles.value, [], s.margins, opts).value;
    PagesFromTimes(s.pages, 0, s.styles.value, [], s.margins, opts);
    assert s.pages[0..] == s.pages;
    PagesFromValid(s.pages, 0, s.styles.value, [], s.margins, opts);
    CollectedStyles(Conversions(ev.1));
    assert DocumentSpec(s, opts).value == (Document(ScriptInfo, ev.0, CollectFrom(Conversions(ev.1), 0, []).value), ev.1);
  }

  /** Once the events are written, the document fails exactly when the
      colours of some style are palette indices, with a TypeError. */
  lemma DocumentStylesFail(s: KbpFile.Sections, opts: AssOptions)
    requires s.styles.Some? && ValidStyles(s.styles.value)
    requires PagesFrom(s.pages, 0, s.styles.value, [], s.margins, opts).Ok?
    ensures var st := PagesFrom(s.pages, 0, s.styles.value, [], s.margins, opts).value.1;
      && OrderListed(st)
      && (DocumentSpec(s, opts).Ok? <==> forall j :: 0 <= j < |st.order| ==> Conversions(st)[j].Ok?)
      && (DocumentSpec(s, opts).Err? ==> DocumentSpec(s, opts).error == NotIterable)
  {
    var ev := PagesFrom(s.pages, 0, s.styles.value, [], s.margins, opts).value;
    PagesFromValid(s.pages, 0, s.styles.value, [], s.margins, opts);
    var rs := Conversions(ev.1);
    CollectOk(rs, 0, []);
    var r := CollectFrom(rs, 0, []);
    assert DocumentSpec(s, opts).Err? <==> r.Err?;
    if r.Err? {
      var j :| 0 <= j < |rs| && rs[j].Err? && r.error == rs[j].error;
      assert rs[j] == ConvertStyle(ev.1.order[j], ev.1.entries[ev.1.order[j]]);
    }
  }

  /** The events and the styles of a converted document fit together:
      every event is named after one of the document's styles. */
  lemma DocumentEventStyles(s: KbpFile.Sections, opts: AssOptions)
    requires s.styles.Some? ==> ValidStyles(s.styles.value)
    requires DocumentSpec(s, opts).Ok?
    ensures var d := DocumentSpec(s, opts).value.0;
      forall i :: 0 <= i < |d.events| ==> exists j :: 0 <= j < |d.styles| && d.events[i].style == d.styles[j].name
  {
    DocumentContents(s, opts);
    var d := DocumentSpec(s, opts).value.0;
    var st := DocumentSpec(s, opts).value.1;
    var ev := PagesFrom(s.pages, 0, s.styles.value, [], s.margins, opts).value;
    assert ev.0 == d.events && ev.1 == st;
    PagesFromNamed(s.pages, 0, s.styles.value, [], s.margins, opts);
    PagesFromValid(s.pages, 0, s.styles.value, [], s.margins, opts);
    OrderCoversEntries(st);
    forall i | 0 <= i < |d.events| ensures exists j :: 0 <= j < |d.styles| && d.events[i].style == d.styles[j].name {
      assert NamesEntry(d.events[i].style, st);
      var k :| k in st.entries && d.events[i].style == AssStyleName(k, st.entries[k].name);
      var j :| 0 <= j < |st.order| && st.order[j] == k;
      assert d.styles[j] == ConvertStyle(k, st.entries[k]).value;
    }
  }

  // ---------------------------------------------------------------------
  // The converter object

  /** AssConverter: a parsed KBP file and the options. */
  class AssConverter {
    const kbpFile: KbpFile.KbpFile
    const options: AssOptions

    /** __init__: the options given, or the default ones. */
    constructor (kbpFile: KbpFile.KbpFile, options: Option<AssOptions>)
      ensures this.kbpFile == kbpFile
      ensures this.options == if options.Some? then options.value else DefaultOptions
    {
      this.kbpFile := kbpFile;
      this.options := if options.Some? then options.value else DefaultOptions;
    }

    /** kbp2asstext: the position and fade tags, then, syllable by
        syllable, a hold for any gap since the cursor and the syllable
        wiped over its duration, the cursor then set to the syllable's
        start plus that duration. */
    method Kbp2AssText(line: Line, num: int) returns (r: Result<seq<Tag>>)
      ensures r == AssTags(kbpFile.margins, options, line, num)
    {
      var pos := GetPos(kbpFile.margins, line.header.align, num);
      if pos.Err? {
        return Err(pos.error);
      }
      var syls := line.syllables;
      var result := [pos.value, FadeTag(options)];
      var cur := line.header.start;
      for n := 0 to |syls|
        invariant result == [pos.value, FadeTag(options)] + KaraokeAsWritten(syls, line.header.start, n)
        invariant cur == CursorAsWritten(syls, line.header.start, n)
      {
        var s := syls[n];
        var delay := s.start - cur;
        var dur := s.end - s.start;
        if delay > 0 {
          result := result + [Hold(delay)];
        } else if delay < 0 {
          dur := dur + delay;
        }
        if |syls| > n + 1 && syls[n + 1].start - s.end == 1 {
          dur := dur + 1;
        }
        result := result + [Kf(dur, s.syllable)];
        assert dur == Duration(syls, n, cur);
        cur := s.start + dur;
      }
      return Ok(result);
    }

    /** The event of one line: both style lookups ass_document makes (the second
        answers from the cache the first filled), then the text. */
    method WriteEvent(coll: KbpStyleCollection, line: Line, num: int) returns (r: Result<Option<Dialogue>>)
      requires coll.Valid()
      modifies coll
      ensures coll.Valid()
      ensures var spec := LineEvent(old(coll.Model()), kbpFile.margins, options, line, num);
        && (r.Ok? <==> spec.Ok?) && (r.Ok? ==> r.value == spec.value.0 && coll.Model() == spec.value.1)
        && (r.Err? ==> r.error == spec.error)
    {
      if line.IsEmpty() {
        return Ok(None);
      }
      ghost var before := coll.Model();
      var c := line.header.style;
      var first := coll.GetItem(Letter(c));
      if first.Err? {
        return Err(first.error);
      }
      LookupCached(before, Letter(c));
      var second := coll.GetItem(Letter(c));
      var style := second.value;
      var text: string;
      if style.fixed {
        text := WriteText(line, "", false);
      } else {
        var tags := Kbp2AssText(line, num);
        if tags.Err? {
          return Err(tags.error);
        }
        text := Render(tags.value);
      }
      var k := AlphaToKey(c);
      return Ok(Some(Dialogue(line.header.start * 10, line.header.end * 10,
                              AssStyleName(if k.Some? then k.value else 0, first.value.name), "karaoke", text)));
    }

    /** The events of every non-empty line of every page, in order. */
    method WriteEvents(coll: KbpStyleCollection) returns (r: Result<seq<Dialogue>>)
      requires coll.Valid()
      modifies coll
      ensures coll.Valid()
      ensures var spec := PagesFrom(kbpFile.pages, 0, old(coll.Model()), [], kbpFile.margins, options);
        && (r.Ok? <==> spec.Ok?) && (r.Ok? ==> r.value == spec.value.0 && coll.Model() == spec.value.1)
        && (r.Err? ==> r.error == spec.error)
    {
      var pages := kbpFile.pages;
      ghost var st0 := coll.Model();
      var events: seq<Dialogue> := [];
      for n := 0 to |pages|
        invariant coll.Valid()
        invariant PagesFrom(pages, 0, st0, [], kbpFile.margins, options)
               == PagesFrom(pages, n, coll.Model(), events, kbpFile.margins, options)
      {
        ghost var stn := coll.Model();
        ghost var evn := events;
        var lines := pages[n].lines;
        for m := 0 to |lines|
          invariant coll.Valid()
          invariant LinesFrom(lines, 0, stn, evn, kbpFile.margins, options)
                 == LinesFrom(lines, m, coll.Model(), events, kbpFile.margins, options)
        {
          var e := WriteEvent(coll, lines[m], m);
          if e.Err? {
            return Err(e.error);
          }
          if e.value.Some? {
            events := events + [e.value.value];
          } else {
            assert events + [] == events;
          }
        }
      }
      return Ok(events);
    }

    /** The styles of the collection, one per entry in insertion order. */
    method WriteStyles(coll: KbpStyleCollection) returns (r: Result<seq<AssStyle>>)
      requires coll.Valid()
      ensures r == CollectFrom(Conversions(coll.Model()), 0, [])
    {
      ghost var rs := Conversions(coll.Model());
      var out: seq<AssStyle> := [];
      for i := 0 to |coll.order|
        invariant CollectFrom(rs, 0, []) == CollectFrom(rs, i, out)
      {
        var idx := coll.order[i];
        var a := ConvertStyle(idx, coll.entries[idx]);
        assert a == rs[i];
        if a.Err? {
          return Err(a.error);
        }
        out := out + [a.value];
      }
      return Ok(out);
    }

    /** ass_document: the script info, the events, then the styles. */
    method AssDocument() returns (r: Result<Document>)
      requires kbpFile.styles.Some? ==> kbpFile.styles.value.Valid()
      modifies if kbpFile.styles.Some? then {kbpFile.styles.value} else {}
      ensures var spec := DocumentSpec(old(kbpFile.Model()), options);
        && (r.Ok? <==> spec.Ok?) && (r.Err? ==> r.error == spec.error)
        && (r.Ok? ==> r.value == spec.value.0 && kbpFile.Model() == old(kbpFile.Model()).(styles := Some(spec.value.1)))
    {
      if kbpFile.styles.None? {
        return Err(MissingAttribute("styles"));
      }
      var coll := kbpFile.styles.value;
      var events := WriteEvents(coll);
      if events.Err? {
        return Err(events.error);
      }
      var styles := WriteStyles(coll);
      if styles.Err? {
        return Err(styles.error);
      }
      return Ok(Document(ScriptInfo, events.value, styles.value));
    }
  }
}
