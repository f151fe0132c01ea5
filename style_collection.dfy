/** The style collection of a KBP file: a dictionary from signed keys to
    styles. Keys 1..26 are the styles of the file, also named by the
    letters A..Z; keys -1..-26, named a..z, are their fixed variants,
    derived on first use and kept. The dictionary remembers insertion order,
    which decides the order of the styles a conversion writes out. */
module StyleCollection {
  import opened Wrappers
  import opened Text
  import opened Style
  import Palette

  /** The keys a collection may hold. */
  predicate ValidKey(k: int) {
    1 <= k <= 26 || -26 <= k <= -1
  }

  /** alpha2key: A..Z are 1..26, a..z are -1..-26, anything else has no key. */
  function AlphaToKey(c: char): (r: Option<int>)
    ensures r.Some? <==> IsLetter(c)
    ensures r.Some? ==> ValidKey(r.value) && (r.value > 0 <==> IsUpper(c))
  {
    if IsUpper(c) then Some(c as int - 'A' as int + 1)
    else if IsLower(c) then Some(-(c as int - 'a' as int) - 1)
    else None
  }

  /** key2alpha as written: a negative key indexes the lower-case alphabet
      at -key-1 and any other key the upper-case alphabet at key-1, where
      an index of -1 counts from the end and gives the last letter. */
  function KeyToAlphaAsWritten(k: int): (r: Result<char>)
    ensures r.Ok? <==> -26 <= k <= 26
  {
    if k < 0 then
      if -k - 1 < 26 then Ok(('a' as int - k - 1) as char) else Err(IndexOutOfRange(-k - 1))
    else if k == 0 then Ok('Z')
    else if k - 1 < 26 then Ok(('A' as int + k - 1) as char)
    else Err(IndexOutOfRange(k - 1))
  }

  /** As written, key 0, which no collection can hold, is given the letter
      Z, whose key is 26. */
  lemma KeyToAlphaAsWrittenZero()
    ensures KeyToAlphaAsWritten(0) == Ok('Z')
    ensures AlphaToKey('Z') == Some(26)
  {
  }

  /** key2alpha: the letter of a valid key; the inverse of AlphaToKey. */
  function KeyToAlpha(k: int): (r: Result<char>)
    ensures r.Ok? <==> ValidKey(k)
    ensures r.Ok? ==> AlphaToKey(r.value) == Some(k)
  {
    if ValidKey(k) then KeyToAlphaAsWritten(k) else Err(IndexOutOfRange(if k < 0 then -k - 1 else k - 1))
  }

  /** Every letter comes back from its key. */
  lemma AlphaKeyRoundTrip(c: char)
    requires IsLetter(c)
    ensures KeyToAlpha(AlphaToKey(c).value) == Ok(c)
  {
  }

  /** A key into the collection as kbputils passes one: a style letter
      from a line header, or an integer. */
  datatype StyleKey = Letter(c: char) | Num(n: int)

  /** The value of a collection: its entries and their insertion order. */
  datatype Styles = Styles(entries: map<int, KbpStyle>, order: seq<int>)

  predicate NoDuplicates(o: seq<int>) {
    forall i, j :: 0 <= i < j < |o| ==> o[i] != o[j]
  }

  /** Every key is valid, and the insertion order lists keys of the map,
      none twice, as many as the map holds: each key of the map once. */
  predicate ValidStyles(s: Styles) {
    && (forall k :: k in s.entries ==> ValidKey(k))
    && (forall i :: 0 <= i < |s.order| ==> s.order[i] in s.entries)
    && NoDuplicates(s.order)
    && |s.order| == |s.entries|
  }

  /** The keys listed by a sequence without duplicates number its length. */
  lemma {:induction false} DistinctCount(o: seq<int>)
    requires NoDuplicates(o)
    ensures |set i | 0 <= i < |o| :: o[i]| == |o|
  {
    if |o| > 0 {
      var last := o[|o| - 1];
      var init := o[..|o| - 1];
      DistinctCount(init);
      var a := set i | 0 <= i < |init| :: init[i];
      var b := set i | 0 <= i < |o| :: o[i];
      assert b == a + {last} by {
        forall x | x in b ensures x in a + {last} {
          var i :| 0 <= i < |o| && o[i] == x;
          if i < |o| - 1 {
            assert init[i] == x;
          }
        }
        forall x | x in a ensures x in b {
          var i :| 0 <= i < |init| && init[i] == x;
          assert o[i] == x;
        }
      }
      forall i | 0 <= i < |init| ensures init[i] != last {
        assert init[i] == o[i];
      }
      assert last !in a;
    }
  }

  /** In a valid collection the insertion order lists every key. */
  lemma OrderCoversEntries(s: Styles)
    requires ValidStyles(s)
    ensures forall k :: k in s.entries ==> k in s.order
  {
    var listed := set i | 0 <= i < |s.order| :: s.order[i];
    DistinctCount(s.order);
    assert listed <= s.entries.Keys;
    assert |s.entries.Keys| == |s.entries|;
    var rest := s.entries.Keys - listed;
    assert |rest| == 0 by {
      assert s.entries.Keys == listed + rest;
      assert |s.entries.Keys| == |listed| + |rest|;
    }
    assert rest == {};
    forall k | k in s.entries ensures k in s.order {
      assert k !in rest;
      var i :| 0 <= i < |s.order| && s.order[i] == k;
    }
  }

  const Empty := Styles(map[], [])

  /** __setitem__: a key outside [-26,-1] and [1,26] raises and leaves the
      collection as it was; otherwise the key maps to the style, a new key
      going to the end of the insertion order and a known key keeping its
      place. */
  function Set(s: Styles, k: int, v: KbpStyle): (r: Result<Styles>)
    ensures r.Ok? <==> ValidKey(k)
    ensures r.Err? ==> r.error == BadKey(k)
    ensures r.Ok? ==> r.value.entries == s.entries[k := v]
    ensures r.Ok? ==> r.value.order == if k in s.entries then s.order else s.order + [k]
  {
    if !ValidKey(k) then Err(BadKey(k))
    else Ok(Styles(s.entries[k := v], if k in s.entries then s.order else s.order + [k]))
  }

  /** Storing keeps a collection valid. */
  lemma SetValid(s: Styles, k: int, v: KbpStyle)
    requires ValidStyles(s) && Set(s, k, v).Ok?
    ensures ValidStyles(Set(s, k, v).value)
  {
    var r := Set(s, k, v).value;
    if k !in s.entries {
      forall i, j | 0 <= i < j < |r.order| ensures r.order[i] != r.order[j] {
        if j == |s.order| {
          assert r.order[i] == s.order[i];
        }
      }
    }
  }

  /** Storing under any key outside the valid range, 0, 27 and -27 among
      them, fails. */
  lemma SetRejectsOutOfRange(s: Styles, v: KbpStyle)
    ensures Set(s, 0, v) == Err(BadKey(0))
    ensures Set(s, 27, v) == Err(BadKey(27))
    ensures Set(s, -27, v) == Err(BadKey(-27))
  {
  }

  /** Lookup of an integer key: a present key answers directly; a missing
      key whose negation is present derives the fixed variant of that style,
      stores it under the key and answers it; anything else raises. */
  function LookupNum(s: Styles, k: int): (r: Result<(KbpStyle, Styles)>)
    ensures r.Ok? <==> k in s.entries || (-k in s.entries && ValidKey(k))
    ensures k in s.entries ==> r == Ok((s.entries[k], s))
    ensures k !in s.entries && -k in s.entries && ValidKey(k) ==>
      r.Ok? && r.value.0 == MakeFixed(s.entries[-k]) &&
      r.value.1 == Styles(s.entries[k := MakeFixed(s.entries[-k])], s.order + [k])
    ensures k !in s.entries && -k in s.entries && !ValidKey(k) ==> r == Err(BadKey(k))
    ensures k !in s.entries && -k !in s.entries ==> r == Err(KeyErr(IntToString(k)))
  {
    if k in s.entries then Ok((s.entries[k], s))
    else if -k in s.entries then
      var s' :- Set(s, k, MakeFixed(s.entries[-k]));
      Ok((s'.entries[k], s'))
    else Err(KeyErr(IntToString(k)))
  }

  /** A lookup keeps a collection valid; in a valid collection the only
      failure is a key that is missing together with its negation. */
  lemma LookupNumValid(s: Styles, k: int)
    requires ValidStyles(s)
    ensures LookupNum(s, k).Ok? <==> k in s.entries || -k in s.entries
    ensures LookupNum(s, k).Ok? ==> ValidStyles(LookupNum(s, k).value.1)
  {
    if k !in s.entries && -k in s.entries {
      SetValid(s, k, MakeFixed(s.entries[-k]));
    }
  }

  /** self[key], including __missing__: a letter stands for its key; a
      character that is not a letter raises. */
  function Lookup(s: Styles, key: StyleKey): (r: Result<(KbpStyle, Styles)>)
  {
    match key
    case Letter(c) =>
      (match AlphaToKey(c)
       case None => Err(KeyErr([c]))
       case Some(k) => LookupNum(s, k))
    case Num(k) => LookupNum(s, k)
  }

  /** What lookups may change: the answer is stored under its key, and only
      that key is added, after all the others. */
  lemma LookupChanges(s: Styles, key: StyleKey)
    requires Lookup(s, key).Ok?
    ensures var (v, s') := Lookup(s, key).value;
      exists k :: k in s'.entries && s'.entries[k] == v &&
        (s' == s || (k !in s.entries && s' == Styles(s.entries[k := v], s.order + [k])))
  {
    var k := match key case Letter(c) => AlphaToKey(c).value case Num(n) => n;
    assert k in Lookup(s, key).value.1.entries;
  }

  /** A lookup that succeeded answers the same, and changes nothing, when
      repeated on the collection it left behind: the derived fixed style is
      cached. */
  lemma LookupCached(s: Styles, key: StyleKey)
    requires Lookup(s, key).Ok?
    ensures var (v, s') := Lookup(s, key).value; Lookup(s', key) == Ok((v, s'))
  {
    var k := match key case Letter(c) => AlphaToKey(c).value case Num(n) => n;
    var (v, s') := Lookup(s, key).value;
    assert Lookup(s, key) == LookupNum(s, k);
    assert k in s'.entries && s'.entries[k] == v;
    assert Lookup(s', key) == LookupNum(s', k);
  }

  /** A missing lower-case letter whose upper-case style exists answers the
      fixed variant of that style. */
  lemma LookupLowerDerivesFixed(s: Styles, c: char)
    requires IsLower(c)
    requires AlphaToKey(c).value !in s.entries && -AlphaToKey(c).value in s.entries
    ensures Lookup(s, Letter(c)).Ok?
    ensures Lookup(s, Letter(c)).value.0 == MakeFixed(s.entries[-AlphaToKey(c).value])
    ensures Lookup(s, Letter(c)).value.0.fixed
  {
  }

  /** A KBP style collection, updated in place. */
  class KbpStyleCollection {
    var entries: map<int, KbpStyle>
    var order: seq<int>

    function Model(): Styles
      reads this
    {
      Styles(entries, order)
    }

    ghost predicate Valid()
      reads this
    {
      ValidStyles(Model())
    }

    constructor ()
      ensures Valid() && Model() == Empty
    {
      entries := map[];
      order := [];
    }

    /** __setitem__ */
    method SetItem(key: int, value: KbpStyle) returns (r: Result<()>)
      modifies this
      ensures old(Valid()) ==> Valid()
      ensures r.Ok? <==> ValidKey(key)
      ensures r.Ok? ==> Model() == Set(old(Model()), key, value).value
      ensures r.Err? ==> r.error == BadKey(key) && Model() == old(Model())
    {
      if !ValidKey(key) {
        return Err(BadKey(key));
      }
      if Valid() {
        SetValid(Model(), key, value);
      }
      if key !in entries {
        order := order + [key];
      }
      entries := entries[key := value];
      return Ok(());
    }

    /** __getitem__ with __missing__: get the style, or derive and keep the
      fixed variant, or raise. */
    method GetItem(key: StyleKey) returns (r: Result<KbpStyle>)
      requires Valid()
      modifies this
      ensures Valid()
      ensures r.Ok? <==> Lookup(old(Model()), key).Ok?
      ensures r.Ok? ==> r.value == Lookup(old(Model()), key).value.0
      ensures r.Ok? ==> Model() == Lookup(old(Model()), key).value.1
      ensures r.Err? ==> r.error == Lookup(old(Model()), key).error && Model() == old(Model())
    {
      var k: int;
      match key {
        case Letter(c) =>
          var a := AlphaToKey(c);
          if a.None? {
            return Err(KeyErr([c]));
          }
          k := a.value;
        case Num(n) =>
          k := n;
      }
      if k in entries {
        return Ok(entries[k]);
      }
      if -k in entries {
        var derived := MakeFixed(entries[-k]);
        var _ := SetItem(k, derived);
        return Ok(entries[k]);
      }
      return Err(KeyErr(IntToString(k)));
    }
  }

  datatype ColorFields = ColorFields(no: int, name: string, colors: seq<int>)
  datatype FontFields = FontFields(fontname: string, size: int, fontstyle: string, charset: int)
  datatype FlagFields = FlagFields(nums: seq<int>, allcaps: string, count: nat)

  /** The first line of a record, "StyleNN,name,c1,c2,c3,c4": the style
      number after "Style", the name, and every later field as an integer. */
  function ColorLine(line: string): (r: Result<ColorFields>)
    requires StartsWith(line, "Style")
  {
    var first := Split(line, ',');
    assert StartsWith(first[0], "Style") by {
      SplitFirstPrefix(line, "Style", ',');
    }
    var no :- IntField(first[0][5..]);
    var _ :- if |first| >= 2 then Ok(()) else Err(TooFewFields(|first|));
    var colors :- ParseInts(first[2..]);
    Ok(ColorFields(no, first[1], colors))
  }

  /** The second line, "font,size,flags,charset": size and charset are
      integers; fields after the fourth are ignored. */
  function FontLine(line: string): (r: Result<FontFields>)
  {
    var font := Split(line, ',');
    var _ :- if |font| >= 2 then Ok(()) else Err(TooFewFields(|font|));
    var size :- IntField(font[1]);
    var _ :- if |font| >= 4 then Ok(()) else Err(TooFewFields(|font|));
    var charset :- IntField(font[3]);
    Ok(FontFields(font[0], size, font[2], charset))
  }

  /** The third line: every field but the last is an integer (four outline
      widths, two shadow offsets, the wipe style), the last is the all-caps
      flag; at least eight fields. */
  function FlagsLine(line: string): (r: Result<FlagFields>)
    ensures r.Ok? ==> r.value.count >= 8 && |r.value.nums| == r.value.count - 1
  {
    var third := Split(line, ',');
    var nums :- ParseInts(third[..|third| - 1]);
    var _ :- if |third| >= 8 then Ok(()) else Err(TooFewFields(|third|));
    Ok(FlagFields(nums, third[|third| - 1], |third|))
  }

  /** KBPStyle(**fields) from the three lines, with palette indices as colours. */
  function BuildStyle(c: ColorFields, f: FontFields, g: FlagFields): (s: KbpStyle)
    requires |c.colors| >= 4 && |g.nums| >= 7
    ensures !s.fixed && HasColors(s) == Ok(false)
    ensures |s.outlines| == 4 && |s.shadows| == 2
  {
    KbpStyle(
      c.name, Index(c.colors[0]), Index(c.colors[1]), Index(c.colors[2]), Index(c.colors[3]),
      f.fontname, f.size, f.fontstyle, f.charset,
      g.nums[..4], g.nums[4..6], g.nums[6], g.allcaps, false)
  }

  /** The style number and the style that one record of the Styles
      section, at line n and the two lines after it, describes. A record
      with fewer than four colours, or with more than eight fields on its
      third line (which makes the all-caps flag an integer), is refused
      when the style is built. */
  function ParseStyleRecord(lines: seq<string>, n: nat, palette: Option<Palette.Palette>): (r: Result<(int, KbpStyle)>)
    requires n < |lines| && StartsWith(LStrip(lines[n]), "Style")
  {
    var c :- ColorLine(LStrip(lines[n]));
    var _ :- if n + 1 < |lines| then Ok(()) else Err(NoSuchLine(n + 1));
    var f :- FontLine(LStrip(lines[n + 1]));
    var _ :- if n + 2 < |lines| then Ok(()) else Err(NoSuchLine(n + 2));
    var g :- FlagsLine(LStrip(lines[n + 2]));
    var _ :- if |c.colors| >= 4 then Ok(()) else Err(MissingArgument);
    var _ :- if g.count == 8 then Ok(()) else Err(WrongFieldType);
    var style := BuildStyle(c, f, g);
    match palette
    case None => Ok((c.no, style))
    case Some(p) =>
      var resolved :- ResolveColors(style, p);
      Ok((c.no, resolved))
  }

  /** A parsed record gives a style that is not fixed, with four outline
      widths and two shadow offsets, whose colours are palette indices
      unless a palette was given, in which case they are resolved codes. */
  lemma ParseStyleRecordSpec(lines: seq<string>, n: nat, palette: Option<Palette.Palette>)
    requires n < |lines| && StartsWith(LStrip(lines[n]), "Style")
    requires ParseStyleRecord(lines, n, palette).Ok?
    ensures var style := ParseStyleRecord(lines, n, palette).value.1;
      && !style.fixed
      && |style.outlines| == 4 && |style.shadows| == 2
      && (palette.None? ==> HasColors(style) == Ok(false))
      && (palette.Some? ==> HasColors(style) == Ok(true))
  {
  }

  /** The state of the Styles-section scan: the collection so far and the
      number of the record being read, if any. */
  datatype StyleScan = StyleScan(styles: Styles, styleNo: Option<int>)

  /** One line of the scan: a blank line ends the current record; a line
      starting "Style" outside a record starts one, stored under its number
      plus one; other lines are the rest of a record and are skipped. */
  function StyleStep(lines: seq<string>, n: nat, st: StyleScan, palette: Option<Palette.Palette>): (r: Result<StyleScan>)
    requires n < |lines|
  {
    var line := LStrip(lines[n]);
    if line == "" && st.styleNo.Some? then Ok(st.(styleNo := None))
    else if st.styleNo.None? && StartsWith(line, "Style") then StartRecord(lines, n, st.styles, palette)
    else Ok(st)
  }

  /** A record starting at line n: its style is stored under its number
      plus one, and its number is the record now being read. */
  function StartRecord(lines: seq<string>, n: nat, styles: Styles, palette: Option<Palette.Palette>): (r: Result<StyleScan>)
    requires n < |lines| && StartsWith(LStrip(lines[n]), "Style")
  {
    var record :- ParseStyleRecord(lines, n, palette);
    var styles' :- Set(styles, record.0 + 1, record.1);
    Ok(StyleScan(styles', Some(record.0)))
  }

  /** The scan of the first n lines. */
  function StylesUpTo(lines: seq<string>, n: nat, palette: Option<Palette.Palette>): (r: Result<StyleScan>)
    requires n <= |lines|
  {
    if n == 0 then Ok(StyleScan(Empty, None))
    else
      var prev := StylesUpTo(lines, n - 1, palette);
      if prev.Err? then prev else StyleStep(lines, n - 1, prev.value, palette)
  }

  lemma StylesUpToNext(lines: seq<string>, n: nat, palette: Option<Palette.Palette>)
    requires n < |lines| && StylesUpTo(lines, n, palette).Ok?
    ensures StylesUpTo(lines, n + 1, palette) == StyleStep(lines, n, StylesUpTo(lines, n, palette).value, palette)
  {
  }

  /** Once a line has failed the scan, the scan fails with that error. */
  lemma {:induction false} StylesUpToErr(lines: seq<string>, n: nat, m: nat, palette: Option<Palette.Palette>)
    requires n <= m <= |lines| && StylesUpTo(lines, n, palette).Err?
    ensures StylesUpTo(lines, m, palette) == StylesUpTo(lines, n, palette)
    decreases m - n
  {
    if n < m {
      StylesUpToErr(lines, n + 1, m, palette);
    }
  }

  /** A step of the scan keeps the collection valid. */
  lemma StyleStepValid(lines: seq<string>, n: nat, st: StyleScan, palette: Option<Palette.Palette>)
    requires n < |lines| && ValidStyles(st.styles) && StyleStep(lines, n, st, palette).Ok?
    ensures ValidStyles(StyleStep(lines, n, st, palette).value.styles)
  {
    var line := LStrip(lines[n]);
    if !(line == "" && st.styleNo.Some?) && st.styleNo.None? && StartsWith(line, "Style") {
      StartRecordValid(lines, n, st.styles, palette);
    }
  }

  lemma StartRecordValid(lines: seq<string>, n: nat, styles: Styles, palette: Option<Palette.Palette>)
    requires n < |lines| && StartsWith(LStrip(lines[n]), "Style")
    requires ValidStyles(styles) && StartRecord(lines, n, styles, palette).Ok?
    ensures ValidStyles(StartRecord(lines, n, styles, palette).value.styles)
  {
    var record := ParseStyleRecord(lines, n, palette).value;
    SetValid(styles, record.0 + 1, record.1);
  }

  /** Every prefix of the scan that succeeds leaves a valid collection. */
  lemma {:induction false} StylesUpToValid(lines: seq<string>, n: nat, palette: Option<Palette.Palette>)
    requires n <= |lines| && StylesUpTo(lines, n, palette).Ok?
    ensures ValidStyles(StylesUpTo(lines, n, palette).value.styles)
  {
    if n > 0 {
      StylesUpToValid(lines, n - 1, palette);
      StyleStepValid(lines, n - 1, StylesUpTo(lines, n - 1, palette).value, palette);
    }
  }

  /** KBPStyleCollection.from_textlines, as a value. */
  function StylesSpec(lines: seq<string>, palette: Option<Palette.Palette>): (r: Result<Styles>)
    ensures r.Ok? ==> ValidStyles(r.value)
  {
    var st :- StylesUpTo(lines, |lines|, palette);
    StylesUpToValid(lines, |lines|, palette);
    Ok(st.styles)
  }

  /** The record branch of from_textlines' loop: the record at line n
      parsed and stored in place, giving its number. */
  method AddRecord(styles: KbpStyleCollection, lines: seq<string>, n: nat, palette: Option<Palette.Palette>)
    returns (r: Result<int>)
    requires n < |lines| && StartsWith(LStrip(lines[n]), "Style")
    modifies styles
    ensures var step := StartRecord(lines, n, old(styles.Model()), palette);
      && (r.Ok? <==> step.Ok?)
      && (r.Ok? ==> step.value == StyleScan(styles.Model(), Some(r.value)))
      && (r.Err? ==> r.error == step.error)
  {
    var record := ParseStyleRecord(lines, n, palette);
    if record.Err? {
      return Err(record.error);
    }
    var ok := styles.SetItem(record.value.0 + 1, record.value.1);
    if ok.Err? {
      return Err(ok.error);
    }
    return Ok(record.value.0);
  }

  /** The body of from_textlines' loop: line n read into the collection in
      place, giving the number of the record now being read. */
  method ScanLine(styles: KbpStyleCollection, lines: seq<string>, n: nat, styleNo: Option<int>,
                  palette: Option<Palette.Palette>) returns (r: Result<Option<int>>)
    requires n < |lines|
    modifies styles
    ensures var step := StyleStep(lines, n, StyleScan(old(styles.Model()), styleNo), palette);
      && (r.Ok? <==> step.Ok?)
      && (r.Ok? ==> step.value == StyleScan(styles.Model(), r.value))
      && (r.Err? ==> r.error == step.error)
  {
    var line := LStrip(lines[n]);
    if line == "" && styleNo.Some? {
      return Ok(None);
    }
    if styleNo.None? && StartsWith(line, "Style") {
      var no := AddRecord(styles, lines, n, palette);
      if no.Err? {
        return Err(no.error);
      }
      return Ok(Some(no.value));
    }
    return Ok(styleNo);
  }

  /** The loop of from_textlines: every line scanned into the collection,
      which starts empty; gives the number of the record still open. */
  method ScanLines(styles: KbpStyleCollection, lines: seq<string>, palette: Option<Palette.Palette>)
    returns (r: Result<Option<int>>)
    requires styles.Model() == Empty
    modifies styles
    ensures var spec := StylesUpTo(lines, |lines|, palette);
      && (r.Ok? <==> spec.Ok?)
      && (r.Ok? ==> spec.value == StyleScan(styles.Model(), r.value))
      && (r.Err? ==> r.error == spec.error)
  {
    var styleNo: Option<int> := None;
    var n := 0;
    while n < |lines|
      invariant 0 <= n <= |lines|
      invariant StylesUpTo(lines, n, palette) == Ok(StyleScan(styles.Model(), styleNo))
    {
      var step := ScanLine(styles, lines, n, styleNo, palette);
      StylesUpToNext(lines, n, palette);
      if step.Err? {
        StylesUpToErr(lines, n + 1, |lines|, palette);
        return Err(step.error);
      }
      styleNo := step.value;
      n := n + 1;
    }
    return Ok(styleNo);
  }

  /** KBPStyleCollection.from_textlines: scans the (comment-free) lines of
      the Styles section into a new collection. */
  method FromTextlines(lines: seq<string>, palette: Option<Palette.Palette>) returns (r: Result<KbpStyleCollection>)
    ensures r.Ok? <==> StylesSpec(lines, palette).Ok?
    ensures r.Ok? ==> fresh(r.value) && r.value.Valid() && r.value.Model() == StylesSpec(lines, palette).value
    ensures r.Err? ==> r.error == StylesSpec(lines, palette).error
  {
    var styles := new KbpStyleCollection();
    var scan := ScanLines(styles, lines, palette);
    if scan.Err? {
      return Err(scan.error);
    }
    return Ok(styles);
  }
}
