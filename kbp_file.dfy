/** A KBP file: the forward pass over its lines that hands the header
    sections, the PAGEV2 blocks and the IMAGE blocks to their readers; the
    margin, "other" and track-information readers; and the lyric text of
    the whole file. */
module KbpFile {
  import opened Wrappers
  import opened Text
  import opened Pages = Page
  import Palette
  import opened StyleCollection

  /** The line that separates the blocks of a KBP file. */
  const Divider := "-----------------------------"
  /** The line that ends the style records of the header. */
  const StyleEnd := "  StyleEnd"
  /** The heading of the track-information section of the header. */
  const TrackHeading := "'--- Track Information ---"
  const MarginKeys := ["left", "right", "top", "spacing"]
  const OtherKeys := ["bordercolor", "wipedetail"]

  // ---------------------------------------------------------------------
  // Margins and "other"

  predicate Distinct(keys: seq<string>) {
    forall i, j :: 0 <= i < j < |keys| ==> keys[i] != keys[j]
  }

  function Min(a: nat, b: nat): nat {
    if a < b then a else b
  }

  /** dict(zip(keys, (int(x) for x in fields))): zip stops at the shorter
      sequence, so a field past the last key is never read; the fields are
      read in order. */
  function ZipInts(keys: seq<string>, fields: seq<string>): (r: Result<map<string, int>>)
    decreases |keys|
  {
    if |keys| == 0 || |fields| == 0 then Ok(map[])
    else
      var v :- IntField(fields[0]);
      var rest :- ZipInts(keys[1..], fields[1..]);
      Ok(map[keys[0] := v] + rest)
  }

  /** The zip succeeds exactly when each of the first min(|keys|, |fields|)
      fields is an integer, and otherwise names the first bad field. */
  lemma {:induction false} ZipIntsOk(keys: seq<string>, fields: seq<string>)
    ensures var r := ZipInts(keys, fields); var m := Min(|keys|, |fields|);
      && (r.Ok? <==> forall i :: 0 <= i < m ==> ParseInt(fields[i]).Some?)
      && (r.Err? ==> exists i :: (0 <= i < m && ParseInt(fields[i]).None? && r.error == BadInt(fields[i])))
  {
    if |keys| > 0 && |fields| > 0 {
      var m := Min(|keys|, |fields|);
      var tail := ZipInts(keys[1..], fields[1..]);
      ZipIntsOk(keys[1..], fields[1..]);
      if ParseInt(fields[0]).Some? {
        forall i | 1 <= i < m ensures ParseInt(fields[i]) == ParseInt(fields[1..][i - 1]) {
        }
        if tail.Err? {
          var i :| 0 <= i < m - 1 && ParseInt(fields[1..][i]).None? && tail.error == BadInt(fields[1..][i]);
          assert fields[1..][i] == fields[i + 1];
        }
      }
    }
  }

  /** A successful zip of distinct keys maps exactly the first
      min(|keys|, |fields|) keys, each to the value of its own field. */
  lemma {:induction false} ZipIntsMap(keys: seq<string>, fields: seq<string>)
    requires Distinct(keys) && ZipInts(keys, fields).Ok?
    ensures var r := ZipInts(keys, fields).value; var m := Min(|keys|, |fields|);
      && (forall k :: k in r <==> exists i :: 0 <= i < m && keys[i] == k)
      && (forall i :: 0 <= i < m ==> Some(r[keys[i]]) == ParseInt(fields[i]))
  {
    if |keys| > 0 && |fields| > 0 {
      var m := Min(|keys|, |fields|);
      var tail := ZipInts(keys[1..], fields[1..]).value;
      var r := ZipInts(keys, fields).value;
      assert Distinct(keys[1..]);
      ZipIntsMap(keys[1..], fields[1..]);
      assert r == map[keys[0] := ParseInt(fields[0]).value] + tail;
      forall k ensures k in r <==> exists i :: 0 <= i < m && keys[i] == k {
        if k in tail {
          var i :| 0 <= i < m - 1 && keys[1..][i] == k;
          assert keys[i + 1] == k;
        }
        if exists i :: 0 <= i < m && keys[i] == k {
          var i :| 0 <= i < m && keys[i] == k;
          if i > 0 {
            assert keys[1..][i - 1] == k;
          }
        }
      }
      forall i | 0 <= i < m ensures Some(r[keys[i]]) == ParseInt(fields[i]) {
        if i > 0 {
          assert keys[1..][i - 1] == keys[i];
          assert fields[1..][i - 1] == fields[i];
          assert keys[i] != keys[0];
        } else {
          forall j | 0 <= j < m - 1 ensures keys[1..][j] != keys[0] {
            assert keys[1..][j] == keys[j + 1];
          }
          assert keys[0] !in tail;
        }
      }
    }
  }

  /** parse_margins: "left,right,top,spacing", stripped, read as integers. */
  function ParseMargins(line: string): (r: Result<map<string, int>>) {
    ZipInts(MarginKeys, Split(Strip(line), ','))
  }

  /** parse_other: "bordercolor,wipedetail", stripped, read as integers. */
  function ParseOther(line: string): (r: Result<map<string, int>>) {
    ZipInts(OtherKeys, Split(Strip(line), ','))
  }

  /** The keys of each zip differ already in their first letters. */
  lemma KeysDistinct()
    ensures Distinct(MarginKeys) && Distinct(OtherKeys)
  {
    assert MarginKeys[0][0] == 'l' && MarginKeys[1][0] == 'r' && MarginKeys[2][0] == 't' && MarginKeys[3][0] == 's';
    assert OtherKeys[0][0] == 'b' && OtherKeys[1][0] == 'w';
  }

  /** What a zip of distinct keys promises: it succeeds exactly when each
      of the first min(|keys|, |f|) fields is an integer, and then maps
      exactly those keys, each to its own field's value. */
  ghost predicate ZippedAs(r: Result<map<string, int>>, keys: seq<string>, f: seq<string>) {
    && (r.Ok? <==> forall i :: 0 <= i < Min(|keys|, |f|) ==> ParseInt(f[i]).Some?)
    && (r.Ok? ==> forall k :: k in r.value <==> exists i :: 0 <= i < Min(|keys|, |f|) && keys[i] == k)
    && (r.Ok? ==> forall i :: 0 <= i < Min(|keys|, |f|) ==> Some(r.value[keys[i]]) == ParseInt(f[i]))
  }

  lemma ZipSpec(keys: seq<string>, f: seq<string>)
    requires Distinct(keys)
    ensures ZippedAs(ZipInts(keys, f), keys, f)
  {
    ZipIntsOk(keys, f);
    if ZipInts(keys, f).Ok? {
      ZipIntsMap(keys, f);
    }
  }

  /** A margins line succeeds exactly when each of its first four fields
      is an integer, and then maps exactly the margins it has fields for,
      each to its own field's value. */
  lemma MarginsSpec(line: string)
    ensures ZippedAs(ParseMargins(line), MarginKeys, Split(Strip(line), ','))
  {
    KeysDistinct();
    ZipSpec(MarginKeys, Split(Strip(line), ','));
  }

  /** An "other" line succeeds exactly when each of its first two fields
      is an integer, and then maps exactly the settings it has fields for,
      each to its own field's value. */
  lemma OtherSpec(line: string)
    ensures ZippedAs(ParseOther(line), OtherKeys, Split(Strip(line), ','))
  {
    KeysDistinct();
    ZipSpec(OtherKeys, Split(Strip(line), ','));
  }

  // ---------------------------------------------------------------------
  // Track information

  /** The leading run of non-whitespace characters. */
  function Word(s: string): (r: string)
    ensures r <= s
    ensures forall i :: 0 <= i < |r| ==> !IsSpace(r[i])
    ensures |r| < |s| ==> IsSpace(s[|r|])
  {
    if |s| == 0 || IsSpace(s[0]) then "" else [s[0]] + Word(s[1..])
  }

  /** line.split(maxsplit=1) with the first field lower-cased and "" for a
      missing second field: the first word, and the rest after the
      whitespace that follows it. A line of whitespace alone has no first
      field. */
  function KeyValue(line: string): (r: Result<(string, string)>)
    ensures r.Err? <==> LStrip(line) == ""
  {
    var t := LStrip(line);
    if t == "" then Err(IndexOutOfRange(0))
    else
      var w := Word(t);
      Ok((Lower(w), LStrip(t[|w|..])))
  }

  /** What the split finds: past the leading whitespace, a non-empty first
      word (lower-cased into the key), then only whitespace, then the value,
      which does not start with whitespace and runs to the end of the line. */
  lemma KeyValueSpec(line: string)
    requires KeyValue(line).Ok?
    ensures var t := LStrip(line); var w := Word(t); var v := KeyValue(line).value.1;
      && w != "" && KeyValue(line).value.0 == Lower(w)
      && |w| + |v| <= |t| && t == w + t[|w|..|t| - |v|] + v
      && (forall i :: |w| <= i < |t| - |v| ==> IsSpace(t[i]))
      && (v == "" || !IsSpace(v[0]))
  {
    var t := LStrip(line);
    var w := Word(t);
    var v := LStrip(t[|w|..]);
    assert KeyValue(line) == Ok((Lower(w), v));
    assert w != "" by {
      LStripSpec(line);
      assert !IsSpace(t[0]);
    }
    StripAfterPrefix(t, w);
  }

  /** Past a prefix w of t, lstrip drops only whitespace and keeps the
      rest of t. */
  lemma StripAfterPrefix(t: string, w: string)
    requires w <= t
    ensures var v := LStrip(t[|w|..]);
      && |w| + |v| <= |t| && t == w + t[|w|..|t| - |v|] + v
      && (forall i :: |w| <= i < |t| - |v| ==> IsSpace(t[i]))
      && (v == "" || !IsSpace(v[0]))
  {
    var u := t[|w|..];
    var v := LStrip(u);
    LStripSpec(u);
    forall i | |w| <= i < |t| - |v| ensures IsSpace(t[i]) {
      assert t[i] == u[i - |w|];
    }
    assert t[|w|..|t| - |v|] == u[..|u| - |v|];
    assert u == u[..|u| - |v|] + v;
    assert t == w + u;
  }

  /** A key and a value written with a space between them are read back,
      the key lower-cased. */
  lemma KeyValueRoundTrip(key: string, value: string)
    requires key != [] && forall i :: 0 <= i < |key| ==> !IsSpace(key[i])
    requires value == [] || !IsSpace(value[0])
    ensures KeyValue(key + " " + value) == Ok((Lower(key), value))
  {
    var line := key + " " + value;
    assert LStrip(line) == line;
    WordOf(key, " " + value);
    assert line[|key|..] == " " + value;
    assert (" " + value)[1..] == value;
    assert LStrip(" " + value) == LStrip(value) == value;
    assert Word(line) == key;
    assert KeyValue(line) == Ok((Lower(Word(line)), LStrip(line[|key|..])));
  }

  /** The word of a word followed by whitespace is that word. */
  lemma {:induction false} WordOf(w: string, rest: string)
    requires forall i :: 0 <= i < |w| ==> !IsSpace(w[i])
    requires rest != [] && IsSpace(rest[0])
    ensures Word(w + rest) == w
  {
    if |w| > 0 {
      assert (w + rest)[1..] == w[1..] + rest;
      WordOf(w[1..], rest);
    }
  }

  /** The track-information scan: the entries so far and the last key. */
  datatype TrackScan = TrackScan(info: map<string, string>, prev: Option<string>)

  /** One line of the track-information section. */
  function TrackStep(line: string, st: TrackScan): (r: Result<TrackScan>)
  {
    if StartsWith(line, " ") then
      match st.prev
      case None => Err(KeyNone)
      case Some(p) =>
        if p in st.info then Ok(st.(info := st.info[p := st.info[p] + "\n" + LStrip(line)]))
        else Err(KeyErr(p))
    else if line != "" && !StartsWith(line, "'") then
      var kv :- KeyValue(line);
      Ok(TrackScan(st.info[kv.0 := kv.1], Some(kv.0)))
    else Ok(st)
  }

  /** The scan of the first n lines of the section. */
  function TrackUpTo(lines: seq<string>, n: nat): Result<TrackScan>
    requires n <= |lines|
  {
    if n == 0 then Ok(TrackScan(map[], None))
    else
      var prev := TrackUpTo(lines, n - 1);
      if prev.Err? then prev else TrackStep(lines[n - 1], prev.value)
  }

  /** Once a line has failed the scan, the scan fails with that error. */
  lemma {:induction false} TrackUpToErr(lines: seq<string>, n: nat, m: nat)
    requires n <= m <= |lines| && TrackUpTo(lines, n).Err?
    ensures TrackUpTo(lines, m) == TrackUpTo(lines, n)
    decreases m - n
  {
    if n < m {
      TrackUpToErr(lines, n + 1, m);
    }
  }

  /** parse_trackinfo, as a value. */
  function TrackinfoSpec(lines: seq<string>): Result<map<string, string>> {
    var st :- TrackUpTo(lines, |lines|);
    Ok(st.info)
  }

  /** The last key is always an entry, and every key is lower-case. */
  predicate TrackValid(st: TrackScan) {
    && (st.prev.Some? ==> st.prev.value in st.info)
    && (forall k :: k in st.info ==> Lower(k) == k)
  }

  lemma LowerIdempotent(s: string)
    ensures Lower(Lower(s)) == Lower(s)
  {
  }

  /** Every step of a successful scan keeps the scan valid. */
  lemma {:induction false} TrackUpToValid(lines: seq<string>, n: nat)
    requires n <= |lines| && TrackUpTo(lines, n).Ok?
    ensures TrackValid(TrackUpTo(lines, n).value)
  {
    if n > 0 {
      TrackUpToValid(lines, n - 1);
      var line := lines[n - 1];
      if !StartsWith(line, " ") && line != "" && !StartsWith(line, "'") {
        LowerIdempotent(Word(LStrip(line)));
      }
    }
  }

  /** A continuation line (one that starts with a space) after a key line
      appends a newline and the line without its leading whitespace to the
      last key's value; one before any key line fails. */
  lemma TrackContinuation(lines: seq<string>, n: nat)
    requires n < |lines| && StartsWith(lines[n], " ") && TrackUpTo(lines, n).Ok?
    ensures var st := TrackUpTo(lines, n).value;
      && (st.prev.None? ==> TrackUpTo(lines, n + 1) == Err(KeyNone))
      && (st.prev.Some? ==>
            && st.prev.value in st.info
            && TrackUpTo(lines, n + 1) ==
            Ok(st.(info := st.info[st.prev.value := st.info[st.prev.value] + "\n" + LStrip(lines[n])])))
  {
    TrackUpToValid(lines, n);
  }

  /** Every key the section stores is lower-case. */
  lemma TrackKeysLower(lines: seq<string>)
    requires TrackinfoSpec(lines).Ok?
    ensures forall k :: k in TrackinfoSpec(lines).value ==> Lower(k) == k
  {
    TrackUpToValid(lines, |lines|);
  }

  // ---------------------------------------------------------------------
  // The file pass

  /** The sections a parse has read; a header section is None until it is
      read. */
  datatype Sections = Sections(
    colors: Option<Palette.Palette>,
    styles: Option<Styles>,
    margins: Option<map<string, int>>,
    other: Option<map<string, int>>,
    trackinfo: Option<map<string, string>>,
    pages: seq<Page>,
    images: seq<Image>)

  /** A new file: no section read yet, no pages, no images. */
  const NoSections := Sections(None, None, None, None, None, [], [])

  /** Reading line i, which must exist. */
  function LineAt(lines: seq<string>, i: nat): (r: Result<string>)
    ensures r.Ok? <==> i < |lines|
    ensures r.Ok? ==> r.value == lines[i]
    ensures r.Err? ==> r.error == NoSuchLine(i)
  {
    if i < |lines| then Ok(lines[i]) else Err(NoSuchLine(i))
  }

  /** lines.index(target, from): the end of a block, which must exist. */
  function BlockEnd(lines: seq<string>, target: string, from: nat): (r: Result<nat>)
    ensures r.Ok? ==> from <= r.value < |lines| && lines[r.value] == target
    ensures r.Ok? ==> forall j :: from <= j < r.value ==> lines[j] != target
    ensures r.Err? ==> r.error == NotFound(target) && forall j :: from <= j < |lines| ==> lines[j] != target
  {
    match IndexOf(lines, target, from)
    case None => Err(NotFound(target))
    case Some(e) => Ok(e)
  }

  /** The palette used while reading the styles: the colours read so far
      when colours are resolved, which must then have been read. */
  function StylePalette(s: Sections, resolveColors: bool): (r: Result<Option<Palette.Palette>>)
    ensures r.Ok? <==> !resolveColors || s.colors.Some?
    ensures r.Ok? ==> r.value == if resolveColors then s.colors else None
    ensures r.Err? ==> r.error == MissingAttribute("colors")
  {
    if !resolveColors then Ok(None)
    else if s.colors.Some? then Ok(s.colors)
    else Err(MissingAttribute("colors"))
  }

  /** The default wipe of the pages: the "wipedetail" setting when wipes
      are resolved, which must then have been read. */
  function DefaultWipe(s: Sections, resolveWipe: bool): (r: Result<Option<int>>)
    ensures r.Ok? <==> !resolveWipe || (s.other.Some? && "wipedetail" in s.other.value)
    ensures r.Ok? ==> r.value == if resolveWipe then Some(s.other.value["wipedetail"]) else None
    ensures r.Err? ==> r.error == if s.other.None? then MissingAttribute("other") else KeyErr("wipedetail")
  {
    if !resolveWipe then Ok(None)
    else if s.other.None? then Err(MissingAttribute("other"))
    else if "wipedetail" !in s.other.value then Err(KeyErr("wipedetail"))
    else Ok(Some(s.other.value["wipedetail"]))
  }

  /** Only synchronised tracks can be used: status "1". */
  function StatusCheck(info: map<string, string>): (r: Result<()>)
    ensures r.Ok? <==> "status" in info && info["status"] == "1"
    ensures r.Err? ==> r.error == if "status" in info then Unsynced(info["status"]) else KeyErr("status")
  {
    if "status" !in info then Err(KeyErr("status"))
    else if info["status"] != "1" then Err(Unsynced(info["status"]))
    else Ok(())
  }

  /** A header section, once read. */
  datatype Section =
    | ColorsRead(palette: Palette.Palette)
    | StylesRead(styles: Styles)
    | MarginsRead(margins: map<string, int>)
    | OtherRead(other: map<string, int>)
    | TrackinfoRead(info: map<string, string>)

  /** Keeping a section that has been read; nothing else changes. */
  function Store(s: Sections, sec: Section): (r: Sections)
    ensures r.pages == s.pages && r.images == s.images
  {
    match sec
    case ColorsRead(p) => s.(colors := Some(p))
    case StylesRead(st) => s.(styles := Some(st))
    case MarginsRead(m) => s.(margins := Some(m))
    case OtherRead(o) => s.(other := Some(o))
    case TrackinfoRead(info) => s.(trackinfo := Some(info))
  }

  /** A line of the header: a section heading reads its section from the
      lines after it; any other line reads nothing. */
  function HeaderSection(lines: seq<string>, x: nat, s: Sections, resolveColors: bool): Result<Option<Section>>
    requires x < |lines|
  {
    var line := lines[x];
    if StartsWith(line, "'Palette Colours") then
      var next :- LineAt(lines, x + 1);
      var p :- Palette.FromString(next);
      Ok(Some(ColorsRead(p)))
    else if StartsWith(line, "'Styles") then
      var end :- BlockEnd(lines, StyleEnd, x + 1);
      var palette :- StylePalette(s, resolveColors);
      var st :- StylesSpec(NonComments(lines[x + 1..end]), palette);
      Ok(Some(StylesRead(st)))
    else if StartsWith(line, "'Margins") then
      var next :- LineAt(lines, x + 1);
      var m :- ParseMargins(next);
      Ok(Some(MarginsRead(m)))
    else if StartsWith(line, "'Other") then
      var next :- LineAt(lines, x + 1);
      var o :- ParseOther(next);
      Ok(Some(OtherRead(o)))
    else if line == TrackHeading then
      var end :- BlockEnd(lines, Divider, x + 1);
      var info :- TrackinfoSpec(lines[x + 1..end]);
      var _ :- StatusCheck(info);
      Ok(Some(TrackinfoRead(info)))
    else Ok(None)
  }

  /** A line of the header, applied to the sections read so far. */
  function HeaderStep(lines: seq<string>, x: nat, s: Sections, resolveColors: bool): (r: Result<Sections>)
    requires x < |lines|
    ensures r.Ok? ==> r.value.pages == s.pages && r.value.images == s.images
  {
    var sec :- HeaderSection(lines, x, s, resolveColors);
    if sec.Some? then Ok(Store(s, sec.value)) else Ok(s)
  }

  /** A PAGEV2 line: the page block up to the next divider. */
  function PageBlock(lines: seq<string>, x: nat, s: Sections, resolveWipe: bool): Result<Sections>
    requires x < |lines|
  {
    var end :- BlockEnd(lines, Divider, x + 1);
    var wipe :- DefaultWipe(s, resolveWipe);
    var p :- PageSpec(lines[x + 1..end], wipe);
    Ok(s.(pages := s.pages + [p]))
  }

  /** An IMAGE line: the image record on the next line. */
  function ImageBlock(lines: seq<string>, x: nat, s: Sections): Result<Sections>
    requires x < |lines|
  {
    var next :- LineAt(lines, x + 1);
    var img :- ImageFromString(next);
    Ok(s.(images := s.images + [img]))
  }

  /** The state of the pass: in the header, just after a divider, and the
      sections read. */
  datatype ParseScan = ParseScan(inHeader: bool, divider: bool, sections: Sections)

  /** The section step of line x: a header line, or a block that starts
      right after a divider outside the header. */
  function SectionStep(lines: seq<string>, x: nat, st: ParseScan, resolveColors: bool, resolveWipe: bool)
    : Result<Sections>
    requires x < |lines|
  {
    if st.inHeader then HeaderStep(lines, x, st.sections, resolveColors)
    else if st.divider && lines[x] == "PAGEV2" then PageBlock(lines, x, st.sections, resolveWipe)
    else if st.divider && lines[x] == "IMAGE" then ImageBlock(lines, x, st.sections)
    else Ok(st.sections)
  }

  /** The flags after line x: HEADERV2 right after a divider enters the
      header, a divider leaves it and sets the divider flag, and any line
      that is neither blank nor a comment clears that flag. */
  function Flags(line: string, st: ParseScan): (bool, bool) {
    var inHeader := st.inHeader || (st.divider && line == "HEADERV2");
    if line == Divider then (false, true)
    else if line != "" && !StartsWith(line, "'") then (inHeader, false)
    else (inHeader, st.divider)
  }

  /** One line of the pass. */
  function ParseStep(lines: seq<string>, x: nat, st: ParseScan, resolveColors: bool, resolveWipe: bool)
    : Result<ParseScan>
    requires x < |lines|
  {
    var s := SectionStep(lines, x, st, resolveColors, resolveWipe);
    if s.Err? then Err(s.error)
    else
      var flags := Flags(lines[x], st);
      Ok(ParseScan(flags.0, flags.1, s.value))
  }

  /** The pass from line x to the end, from the state st. */
  function ParseFrom(lines: seq<string>, x: nat, st: ParseScan, resolveColors: bool, resolveWipe: bool)
    : Result<ParseScan>
    requires x <= |lines|
    decreases |lines| - x
  {
    if x == |lines| then Ok(st)
    else
      var next := ParseStep(lines, x, st, resolveColors, resolveWipe);
      if next.Err? then next else ParseFrom(lines, x + 1, next.value, resolveColors, resolveWipe)
  }

  lemma ParseFromNext(lines: seq<string>, x: nat, st: ParseScan, resolveColors: bool, resolveWipe: bool)
    requires x < |lines|
    ensures var next := ParseStep(lines, x, st, resolveColors, resolveWipe);
      ParseFrom(lines, x, st, resolveColors, resolveWipe)
      == if next.Err? then next else ParseFrom(lines, x + 1, next.value, resolveColors, resolveWipe)
  {
  }

  /** The state before the first line: outside the header, no divider seen. */
  function Start(init: Sections): ParseScan {
    ParseScan(false, false, init)
  }

  /** The header sections not read, in the order colors, styles, margins,
      other, trackinfo; the pages are always present. */
  function MissingNames(s: Sections): seq<string> {
    (if s.colors.None? then ["colors"] else [])
    + (if s.styles.None? then ["styles"] else [])
    + (if s.margins.None? then ["margins"] else [])
    + (if s.other.None? then ["other"] else [])
    + (if s.trackinfo.None? then ["trackinfo"] else [])
  }

  /** KBPFile.parse, as a value: the pass, then one error naming every
      section that was not read. */
  function ParseSpec(lines: seq<string>, init: Sections, resolveColors: bool, resolveWipe: bool)
    : Result<Sections>
  {
    var st :- ParseFrom(lines, 0, Start(init), resolveColors, resolveWipe);
    var missing := MissingNames(st.sections);
    if |missing| > 0 then Err(MissingSections(missing)) else Ok(st.sections)
  }

  /** A parse succeeds only with every header section read, and the error
      at the end of a pass lists exactly the sections not read, never the
      pages. */
  lemma ParseComplete(lines: seq<string>, init: Sections, resolveColors: bool, resolveWipe: bool)
    requires ParseFrom(lines, 0, Start(init), resolveColors, resolveWipe).Ok?
    ensures var s := ParseFrom(lines, 0, Start(init), resolveColors, resolveWipe).value.sections;
      var r := ParseSpec(lines, init, resolveColors, resolveWipe);
      && (r.Ok? <==> s.colors.Some? && s.styles.Some? && s.margins.Some? && s.other.Some? && s.trackinfo.Some?)
      && (r.Ok? ==> r.value == s)
      && (r.Err? ==> r.error == MissingSections(MissingNames(s)))
  {
  }

  /** The names listed are exactly the sections not read, and "pages" is
      never among them. */
  lemma MissingNamesSpec(s: Sections)
    ensures forall n :: n in MissingNames(s) <==>
      || (n == "colors" && s.colors.None?)
      || (n == "styles" && s.styles.None?)
      || (n == "margins" && s.margins.None?)
      || (n == "other" && s.other.None?)
      || (n == "trackinfo" && s.trackinfo.None?)
    ensures "pages" !in MissingNames(s)
  {
  }

  /** Blank and comment lines keep the divider flag, a divider sets it,
      every other line clears it; the header is entered only by HEADERV2
      right after a divider, and left only at a divider. */
  lemma ParseFlags(lines: seq<string>, x: nat, st: ParseScan, resolveColors: bool, resolveWipe: bool)
    requires x < |lines| && ParseStep(lines, x, st, resolveColors, resolveWipe).Ok?
    ensures var line := lines[x]; var r := ParseStep(lines, x, st, resolveColors, resolveWipe).value;
      && (r.divider <==> line == Divider || (st.divider && (line == "" || StartsWith(line, "'"))))
      && (r.inHeader <==> line != Divider && (st.inHeader || (st.divider && line == "HEADERV2")))
  {
  }

  /** A string that differs from p at a position of p does not start with p. */
  lemma NotPrefix(s: string, p: string, i: nat)
    requires i < |p| && i < |s| && s[i] != p[i]
    ensures !StartsWith(s, p)
  {
    if |p| <= |s| {
      assert s[..|p|][i] == s[i];
    }
  }

  /** In the header, a track-information section whose status is not "1"
      fails the parse. */
  lemma UnsyncedRejected(lines: seq<string>, x: nat, st: ParseScan, resolveColors: bool, resolveWipe: bool)
    requires x < |lines| && st.inHeader && lines[x] == TrackHeading
    requires BlockEnd(lines, Divider, x + 1).Ok?
    requires var info := TrackinfoSpec(lines[x + 1..BlockEnd(lines, Divider, x + 1).value]);
      info.Ok? && "status" in info.value && info.value["status"] != "1"
    ensures var info := TrackinfoSpec(lines[x + 1..BlockEnd(lines, Divider, x + 1).value]).value;
      ParseStep(lines, x, st, resolveColors, resolveWipe) == Err(Unsynced(info["status"]))
  {
    NotPrefix(TrackHeading, "'Palette Colours", 1);
    NotPrefix(TrackHeading, "'Styles", 1);
    NotPrefix(TrackHeading, "'Margins", 1);
    NotPrefix(TrackHeading, "'Other", 1);
  }

  /** A step adds a page only at a PAGEV2 line right after a divider
      outside the header, and then adds exactly one page; pages are never
      changed or removed. */
  lemma PageAdded(lines: seq<string>, x: nat, st: ParseScan, resolveColors: bool, resolveWipe: bool)
    requires x < |lines| && ParseStep(lines, x, st, resolveColors, resolveWipe).Ok?
    ensures var r := ParseStep(lines, x, st, resolveColors, resolveWipe).value;
      && st.sections.pages <= r.sections.pages
      && (r.sections.pages != st.sections.pages ==>
            && !st.inHeader && st.divider && lines[x] == "PAGEV2"
            && |r.sections.pages| == |st.sections.pages| + 1)
  {
  }

  /** Pages read are never changed or removed by later lines: the pages
      at any point of a successful pass begin the pages at its end. */
  lemma {:induction false} PagesGrow(lines: seq<string>, x: nat, st: ParseScan, resolveColors: bool, resolveWipe: bool)
    requires x <= |lines| && ParseFrom(lines, x, st, resolveColors, resolveWipe).Ok?
    ensures st.sections.pages <= ParseFrom(lines, x, st, resolveColors, resolveWipe).value.sections.pages
    decreases |lines| - x
  {
    if x < |lines| {
      PageAdded(lines, x, st, resolveColors, resolveWipe);
      PagesGrow(lines, x + 1, ParseStep(lines, x, st, resolveColors, resolveWipe).value, resolveColors, resolveWipe);
    }
  }

  // ---------------------------------------------------------------------
  // The lyric text of a file

  /** The texts of the first m lines of a page, empty lines included only
      when asked for. */
  function LineTexts(ls: seq<Line>, m: nat, includeEmpty: bool, sylSep: string, spaceIsSep: bool): seq<string>
    requires m <= |ls|
  {
    if m == 0 then []
    else
      LineTexts(ls, m - 1, includeEmpty, sylSep, spaceIsSep)
      + (if includeEmpty || !ls[m - 1].IsEmpty() then [LineText(ls[m - 1], sylSep, spaceIsSep)] else [])
  }

  /** The number of lines among the first m that are not empty. */
  function NonEmptyCount(ls: seq<Line>, m: nat): nat
    requires m <= |ls|
  {
    if m == 0 then 0 else NonEmptyCount(ls, m - 1) + (if ls[m - 1].IsEmpty() then 0 else 1)
  }

  /** Each line kept gives one text: every line when empty lines are
      included, the non-empty lines otherwise. */
  lemma {:induction false} LineTextsCount(ls: seq<Line>, m: nat, includeEmpty: bool, sylSep: string, spaceIsSep: bool)
    requires m <= |ls|
    ensures |LineTexts(ls, m, includeEmpty, sylSep, spaceIsSep)| == if includeEmpty then m else NonEmptyCount(ls, m)
  {
    if m > 0 {
      LineTextsCount(ls, m - 1, includeEmpty, sylSep, spaceIsSep);
    }
  }

  /** The text of one page: its line texts, one per text line. */
  function PageText(p: Page, includeEmpty: bool, sylSep: string, spaceIsSep: bool): string {
    Join(LineTexts(p.lines, |p.lines|, includeEmpty, sylSep, spaceIsSep), "\n")
  }

  /** The texts of the first n pages. */
  function PageTexts(pages: seq<Page>, n: nat, includeEmpty: bool, sylSep: string, spaceIsSep: bool)
    : (r: seq<string>)
    requires n <= |pages|
    ensures |r| == n
  {
    if n == 0 then []
    else PageTexts(pages, n - 1, includeEmpty, sylSep, spaceIsSep) + [PageText(pages[n - 1], includeEmpty, sylSep, spaceIsSep)]
  }

  /** KBPFile.text, as a value: the pages joined by a line holding the
      page separator. */
  function FileText(pages: seq<Page>, pageSep: string, includeEmpty: bool, sylSep: string, spaceIsSep: bool)
    : string
  {
    Join(PageTexts(pages, |pages|, includeEmpty, sylSep, spaceIsSep), "\n" + pageSep + "\n")
  }

  /** Splitting a page's text at newlines gives back its line texts, when
      it has some and none of them holds a newline. */
  lemma PageTextSplit(p: Page, includeEmpty: bool, sylSep: string, spaceIsSep: bool)
    requires var t := LineTexts(p.lines, |p.lines|, includeEmpty, sylSep, spaceIsSep);
      |t| >= 1 && forall i :: 0 <= i < |t| ==> '\n' !in t[i]
    ensures Split(PageText(p, includeEmpty, sylSep, spaceIsSep), '\n')
         == LineTexts(p.lines, |p.lines|, includeEmpty, sylSep, spaceIsSep)
  {
    JoinSplit(LineTexts(p.lines, |p.lines|, includeEmpty, sylSep, spaceIsSep), '\n');
  }

  // ---------------------------------------------------------------------
  // The file object

  class KbpFile {
    var colors: Option<Palette.Palette>
    var styles: Option<KbpStyleCollection>
    var margins: Option<map<string, int>>
    var other: Option<map<string, int>>
    var trackinfo: Option<map<string, string>>
    var pages: seq<Page>
    var images: seq<Image>

    /** The sections the object holds, the styles by their contents. */
    function Model(): Sections
      reads this, if styles.Some? then {styles.value} else {}
    {
      Sections(colors, if styles.Some? then Some(styles.value.Model()) else None,
               margins, other, trackinfo, pages, images)
    }

    /** __init__ before the parse: no pages and no images. */
    constructor ()
      ensures Model() == NoSections
    {
      colors := None;
      styles := None;
      margins := None;
      other := None;
      trackinfo := None;
      pages := [];
      images := [];
    }

    /** parse_trackinfo: reads the section into the trackinfo entries. */
    method ParseTrackinfo(lines: seq<string>) returns (r: Result<()>)
      modifies this
      ensures r.Ok? <==> TrackinfoSpec(lines).Ok?
      ensures r.Ok? ==> Model() == old(Model()).(trackinfo := Some(TrackinfoSpec(lines).value))
      ensures r.Err? ==> r.error == TrackinfoSpec(lines).error
    {
      trackinfo := Some(map[]);
      var prev: Option<string> := None;
      var n := 0;
      while n < |lines|
        invariant 0 <= n <= |lines| && trackinfo.Some?
        invariant Model() == old(Model()).(trackinfo := trackinfo)
        invariant TrackUpTo(lines, n) == Ok(TrackScan(trackinfo.value, prev))
      {
        var line := lines[n];
        if StartsWith(line, " ") {
          if prev.None? {
            TrackUpToErr(lines, n + 1, |lines|);
            return Err(KeyNone);
          }
          if prev.value !in trackinfo.value {
            TrackUpToErr(lines, n + 1, |lines|);
            return Err(KeyErr(prev.value));
          }
          trackinfo := Some(trackinfo.value[prev.value := trackinfo.value[prev.value] + "\n" + LStrip(line)]);
        } else if line != "" && !StartsWith(line, "'") {
          var kv := KeyValue(line);
          if kv.Err? {
            TrackUpToErr(lines, n + 1, |lines|);
            return Err(kv.error);
          }
          trackinfo := Some(trackinfo.value[kv.value.0 := kv.value.1]);
          prev := Some(kv.value.0);
        }
        n := n + 1;
      }
      return Ok(());
    }

    /** A line of the header. */
    method HeaderLine(lines: seq<string>, x: nat, resolveColors: bool) returns (r: Result<()>)
      requires x < |lines|
      modifies this
      ensures var step := HeaderStep(lines, x, old(Model()), resolveColors);
        && (r.Ok? <==> step.Ok?) && (r.Ok? ==> Model() == step.value) && (r.Err? ==> r.error == step.error)
    {
      var line := lines[x];
      if StartsWith(line, "'Palette Colours") {
        if x + 1 >= |lines| {
          return Err(NoSuchLine(x + 1));
        }
        var p := Palette.FromString(lines[x + 1]);
        if p.Err? {
          return Err(p.error);
        }
        colors := Some(p.value);
      } else if StartsWith(line, "'Styles") {
        r := StylesLine(lines, x, resolveColors);
        return;
      } else if StartsWith(line, "'Margins") {
        if x + 1 >= |lines| {
          return Err(NoSuchLine(x + 1));
        }
        var m := ParseMargins(lines[x + 1]);
        if m.Err? {
          return Err(m.error);
        }
        margins := Some(m.value);
      } else if StartsWith(line, "'Other") {
        if x + 1 >= |lines| {
          return Err(NoSuchLine(x + 1));
        }
        var o := ParseOther(lines[x + 1]);
        if o.Err? {
          return Err(o.error);
        }
        other := Some(o.value);
      } else if line == TrackHeading {
        r := TrackLine(lines, x, resolveColors);
        return;
      }
      return Ok(());
    }

    /** The 'Styles section: the style lines up to StyleEnd, read with the
        palette when colours are resolved. */
    method StylesLine(lines: seq<string>, x: nat, resolveColors: bool) returns (r: Result<()>)
      requires x < |lines| && !StartsWith(lines[x], "'Palette Colours") && StartsWith(lines[x], "'Styles")
      modifies this
      ensures var step := HeaderStep(lines, x, old(Model()), resolveColors);
        && (r.Ok? <==> step.Ok?) && (r.Ok? ==> Model() == step.value) && (r.Err? ==> r.error == step.error)
    {
      var end := IndexOf(lines, StyleEnd, x + 1);
      if end.None? {
        return Err(NotFound(StyleEnd));
      }
      var palette: Option<Palette.Palette> := None;
      if resolveColors {
        if colors.None? {
          return Err(MissingAttribute("colors"));
        }
        palette := colors;
      }
      var coll := StyleCollection.FromTextlines(NonComments(lines[x + 1..end.value]), palette);
      if coll.Err? {
        return Err(coll.error);
      }
      styles := Some(coll.value);
      return Ok(());
    }

    /** The track information section up to the next divider; the track
        must be synced. */
    method TrackLine(lines: seq<string>, x: nat, resolveColors: bool) returns (r: Result<()>)
      requires x < |lines| && lines[x] == TrackHeading
      requires !StartsWith(lines[x], "'Palette Colours") && !StartsWith(lines[x], "'Styles")
      requires !StartsWith(lines[x], "'Margins") && !StartsWith(lines[x], "'Other")
      modifies this
      ensures var step := HeaderStep(lines, x, old(Model()), resolveColors);
        && (r.Ok? <==> step.Ok?) && (r.Ok? ==> Model() == step.value) && (r.Err? ==> r.error == step.error)
    {
      var end := IndexOf(lines, Divider, x + 1);
      if end.None? {
        return Err(NotFound(Divider));
      }
      var t := ParseTrackinfo(lines[x + 1..end.value]);
      if t.Err? {
        return Err(t.error);
      }
      var info := trackinfo.value;
      if "status" !in info {
        return Err(KeyErr("status"));
      }
      if info["status"] != "1" {
        return Err(Unsynced(info["status"]));
      }
      return Ok(());
    }

    /** A PAGEV2 block after a divider. */
    method PageLine(lines: seq<string>, x: nat, resolveWipe: bool) returns (r: Result<()>)
      requires x < |lines|
      modifies this
      ensures var step := PageBlock(lines, x, old(Model()), resolveWipe);
        && (r.Ok? <==> step.Ok?) && (r.Ok? ==> Model() == step.value) && (r.Err? ==> r.error == step.error)
    {
      var end := IndexOf(lines, Divider, x + 1);
      if end.None? {
        return Err(NotFound(Divider));
      }
      var wipe: Option<int> := None;
      if resolveWipe {
        if other.None? {
          return Err(MissingAttribute("other"));
        }
        if "wipedetail" !in other.value {
          return Err(KeyErr("wipedetail"));
        }
        wipe := Some(other.value["wipedetail"]);
      }
      var p := Pages.FromTextlines(lines[x + 1..end.value], wipe);
      if p.Err? {
        return Err(p.error);
      }
      pages := pages + [p.value];
      return Ok(());
    }

    /** An IMAGE block after a divider. */
    method ImageLine(lines: seq<string>, x: nat) returns (r: Result<()>)
      requires x < |lines|
      modifies this
      ensures var step := ImageBlock(lines, x, old(Model()));
        && (r.Ok? <==> step.Ok?) && (r.Ok? ==> Model() == step.value) && (r.Err? ==> r.error == step.error)
    {
      if x + 1 >= |lines| {
        return Err(NoSuchLine(x + 1));
      }
      var img := ImageFromString(lines[x + 1]);
      if img.Err? {
        return Err(img.error);
      }
      images := images + [img.value];
      return Ok(());
    }

    /** One line of the pass: the section it reads, then the flags. */
    method ParseLine(lines: seq<string>, x: nat, inHeader: bool, divider: bool, resolveColors: bool, resolveWipe: bool)
      returns (r: Result<(bool, bool)>)
      requires x < |lines|
      modifies this
      ensures var step := ParseStep(lines, x, ParseScan(inHeader, divider, old(Model())), resolveColors, resolveWipe);
        && (r.Ok? <==> step.Ok?)
        && (r.Ok? ==> step.value == ParseScan(r.value.0, r.value.1, Model()))
        && (r.Err? ==> r.error == step.error)
    {
      var line := lines[x];
      var step: Result<()> := Ok(());
      if inHeader {
        step := HeaderLine(lines, x, resolveColors);
      } else if divider && line == "PAGEV2" {
        step := PageLine(lines, x, resolveWipe);
      } else if divider && line == "IMAGE" {
        step := ImageLine(lines, x);
      }
      if step.Err? {
        return Err(step.error);
      }
      var header := inHeader;
      var div := divider;
      if divider && line == "HEADERV2" {
        header := true;
      }
      if line == Divider {
        header := false;
        div := true;
      } else if line != "" && !StartsWith(line, "'") {
        div := false;
      }
      return Ok((header, div));
    }

    /** One line of the pass, as a step of the fold over the lines. */
    method ParseNext(lines: seq<string>, x: nat, inHeader: bool, divider: bool, resolveColors: bool, resolveWipe: bool)
      returns (r: Result<(bool, bool)>)
      requires x < |lines|
      modifies this
      ensures var rest := ParseFrom(lines, x, ParseScan(inHeader, divider, old(Model())), resolveColors, resolveWipe);
        && (r.Err? ==> rest == Err(r.error))
        && (r.Ok? ==> rest == ParseFrom(lines, x + 1, ParseScan(r.value.0, r.value.1, Model()), resolveColors, resolveWipe))
    {
      ParseFromNext(lines, x, ParseScan(inHeader, divider, Model()), resolveColors, resolveWipe);
      r := ParseLine(lines, x, inHeader, divider, resolveColors, resolveWipe);
    }

    /** The loop of parse: every line read in turn, the flags carried
        from line to line. */
    method ParseLines(lines: seq<string>, resolveColors: bool, resolveWipe: bool) returns (r: Result<()>)
      modifies this
      ensures var spec := ParseFrom(lines, 0, Start(old(Model())), resolveColors, resolveWipe);
        && (r.Ok? <==> spec.Ok?) && (r.Ok? ==> Model() == spec.value.sections) && (r.Err? ==> r.error == spec.error)
    {
      ghost var init := Model();
      var inHeader := false;
      var divider := false;
      var x := 0;
      while x < |lines|
        invariant 0 <= x <= |lines|
        invariant ParseFrom(lines, 0, Start(init), resolveColors, resolveWipe)
               == ParseFrom(lines, x, ParseScan(inHeader, divider, Model()), resolveColors, resolveWipe)
      {
        var flags := ParseNext(lines, x, inHeader, divider, resolveColors, resolveWipe);
        if flags.Err? {
          return Err(flags.error);
        }
        inHeader, divider := flags.value.0, flags.value.1;
        x := x + 1;
      }
      return Ok(());
    }

    /** KBPFile.parse: one pass over the (right-stripped) lines, then the
        check that every header section was read. */
    method Parse(lines: seq<string>, resolveColors: bool, resolveWipe: bool) returns (r: Result<()>)
      modifies this
      ensures var spec := ParseSpec(lines, old(Model()), resolveColors, resolveWipe);
        && (r.Ok? <==> spec.Ok?) && (r.Ok? ==> Model() == spec.value) && (r.Err? ==> r.error == spec.error)
    {
      r := ParseLines(lines, resolveColors, resolveWipe);
      if r.Err? {
        return;
      }
      var missing := MissingNames(Model());
      if |missing| > 0 {
        return Err(MissingSections(missing));
      }
      return Ok(());
    }

    /** KBPFile.text: the lyric text of every page, line by line. */
    method Text(pageSep: string, includeEmpty: bool, sylSep: string, spaceIsSep: bool) returns (r: string)
      ensures r == FileText(pages, pageSep, includeEmpty, sylSep, spaceIsSep)
    {
      var result: seq<string> := [];
      var n := 0;
      while n < |pages|
        invariant 0 <= n <= |pages|
        invariant result == PageTexts(pages, n, includeEmpty, sylSep, spaceIsSep)
      {
        var texts := PageLineTexts(pages[n].lines, includeEmpty, sylSep, spaceIsSep);
        result := result + [Join(texts, "\n")];
        n := n + 1;
      }
      return Join(result, "\n" + pageSep + "\n");
    }
  }

  /** The inner loop of KBPFile.text: the text of each line of a page, the
      empty lines only when they are asked for, in order. */
  method PageLineTexts(ls: seq<Line>, includeEmpty: bool, sylSep: string, spaceIsSep: bool) returns (texts: seq<string>)
    ensures texts == LineTexts(ls, |ls|, includeEmpty, sylSep, spaceIsSep)
  {
    texts := [];
    var m := 0;
    while m < |ls|
      invariant 0 <= m <= |ls|
      invariant texts == LineTexts(ls, m, includeEmpty, sylSep, spaceIsSep)
    {
      if includeEmpty || !ls[m].IsEmpty() {
        var t := WriteText(ls[m], sylSep, spaceIsSep);
        texts := texts + [t];
      }
      m := m + 1;
    }
  }

  /** KBPFile(lines): a new file parsed from its lines. */
  method Load(lines: seq<string>, resolveColors: bool, resolveWipe: bool) returns (r: Result<KbpFile>)
    ensures var spec := ParseSpec(lines, NoSections, resolveColors, resolveWipe);
      && (r.Ok? <==> spec.Ok?) && (r.Ok? ==> fresh(r.value) && r.value.Model() == spec.value)
      && (r.Err? ==> r.error == spec.error)
  {
    var f := new KbpFile();
    var ok := f.Parse(lines, resolveColors, resolveWipe);
    if ok.Err? {
      return Err(ok.error);
    }
    return Ok(f);
  }
}
