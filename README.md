# kbputils in Dafny: the KBP reader and the KBP-to-ASS converter

This project models the core of kbputils, a library for Karaoke Builder
Studio project files (`.kbp`). It has two halves.

The reader (`kbputils/kbp.py`) makes one forward pass over a file's lines.
- In the header it reads the palette, the style records, the margins, the
  "other" settings and the track information.
- After each divider it reads a `PAGEV2` block (lyric lines with timed
  syllables) or an `IMAGE` record.
- At the end it rejects a file that lacks a header section.

The converter (`kbputils/converters.py`) turns a parsed file into an
Advanced SubStation Alpha (ASS) script:
- one `Dialogue` event for every non-empty lyric line, with its position,
  its fade and its `\k`/`\kf` karaoke timing tags;
- one ASS style for every KBP style the collection holds once those events
  are written, fixed variants derived on the way included.

## Modules

- `wrappers.dfy` (`Wrappers`): `Option`, `Result`, and one `Error`
  constructor for each exception the library raises.
- `text.dfy` (`Text`): the Python string operations the reader relies on.
  These are `lstrip`, `rstrip`, `split` on one character, `join`, `int()`,
  `"%d"`, `lower`, the `{-}` escape and `list.index`. Most come with a
  lemma that relates them to their inverse (`int()` and `"%d"`, `split` and
  `join`, the escape and its unescape) or with an independent statement of
  what they keep (`lstrip`, `rstrip`, the comment filter).
- `palette.dfy` (`Palette`): `KBPPalette`, a subset type of sixteen
  three-digit colour codes.
- `style.dfy` (`Style`): `KBPStyle` with `has_colors`, `resolve_colors` and
  `make_fixed`.
- `style_collection.dfy` (`StyleCollection`): `KBPStyleCollection`.
  - Its value is a map from signed keys to styles plus the insertion order
    the dictionary iterates in.
  - The class `KbpStyleCollection` updates that value in place. Its
    `__missing__` derives and stores fixed styles.
  - `from_textlines` is a loop over the style lines, proved against the
    left fold `StylesUpTo`.
- `page.dfy` (`Page`): line headers, syllables, lines, pages and images.
  - `KBPLine.text` is a method with a loop, proved against `LineText`.
  - `KBPPage.from_textlines` is a loop, proved against the fold `PageUpTo`.
  - `get_start`/`get_end` are also here.
- `kbp_file.dfy` (`KbpFile`): the class `KbpFile`.
  - Its `Parse` method is proved against the fold `ParseFrom`, one
    `ParseStep` per line, followed by the missing-section check.
  - Also here: `parse_margins`, `parse_other`, `parse_trackinfo` and `text`.
- `converter.dfy` (`Converter`): the class `AssConverter`.
  - `Kbp2AssText` is the syllable loop of `kbp2asstext`.
  - `WriteEvent`/`WriteEvents` are the nested page and line loops of
    `ass_document`.
  - `WriteStyles` is the style loop.
  - `AssDocument` puts them together.
  - Each method is proved against a function: `AssTags`, `LineEvent`,
    `PagesFrom`, `CollectFrom` and `DocumentSpec`. The lemmas about those
    functions state what the script contains, including that every event
    is named after one of the document's styles (`DocumentEventStyles`).

Times are integers throughout. KBP times are centiseconds, and event times
are the milliseconds `timedelta(milliseconds = t * 10)` denotes. The
`ass` library's `Document`, `Dialogue` and `Style` objects are records
(`Document`, `Dialogue`, `AssStyle`) that hold the values the converter
passes to them.

`kbp2asstext` moves its karaoke cursor exactly as the code does, even
where that loses time after an overlap (see Findings). `AssTags`, the
events and `Kbp2AssText` follow that rule. The rule that keeps the cursor
where the tags end is modelled beside it as `Karaoke`/`AssTagsIntended`,
and its properties are proved there.

`get_pos` places a line 12 pixels below `top + num * (spacing + 19)`
(`kbputils/converters.py:30`). Describing that offset as half the 19-pixel
line height would give 9.5. The model follows the code and uses 12.

## Model

| member | source | states |
|---|---|---|
| Text.LStripSpec | kbputils/kbp.py:142 | lstrip keeps a suffix of the input; everything it drops is whitespace; what it keeps does not start with whitespace |
| Text.LStripIdempotent | kbputils/kbp.py:429-430 | stripping twice is stripping once, and int() of an lstripped field is int() of the field |
| Text.RStripSpec | kbputils/kbp.py:19 | rstrip keeps a prefix; everything it drops is whitespace; what it keeps does not end with whitespace |
| Text.SplitPieces | kbputils/kbp.py:416 | no piece of split(sep) holds the separator |
| Text.SplitJoin | kbputils/kbp.py:416 | joining the pieces of a split with the separator gives back the string |
| Text.JoinSplit | kbputils/kbp.py:427 | splitting a join gives back its parts when no part holds the separator |
| Text.ParseIntSigned | kbputils/kbp.py:415-417 | int() of a field of the pattern -?[0-9]+ is the number that field denotes |
| Text.IntToStringRoundTrip | kbputils/converters.py:51 | int() reads back what "%d" writes, for every integer |
| Text.IntToStringSigned | kbputils/converters.py:63 | "%d" writes the pattern -?[0-9]+ and denotes the number written |
| Text.IntField | kbputils/kbp.py:417 | int(field) succeeds exactly when the stripped field is ASCII digits after at most one sign; the value is those digits' value, negated after a minus; otherwise a ValueError naming the field |
| Text.IntFieldWritten | kbputils/kbp.py:417 | int() reads back every number "%d" writes |
| Text.ParseIntsSpec | kbputils/kbp.py:349 | a list of int() conversions succeeds exactly when every field converts; each result is its own field's value; the error names the first field that fails |
| Text.ParseIntsWritten | kbputils/kbp.py:349 | converting the "%d" texts of a list of numbers gives back the list |
| Text.EscapeUnescape | kbputils/kbp.py:428 | replacing "{-}" with "/" in a syllable field (which holds no "/") loses nothing: escaping the result gives the field back |
| Text.UnescapeEscape | kbputils/kbp.py:428 | syllable text without "{-}" survives escaping then unescaping |
| Text.EscapeNoSlash | kbputils/kbp.py:428 | escaped text never holds the record separator "/" |
| Text.IndexOf | kbputils/kbp.py:31 | list.index(target, from): the first position at or after from holding the target; None exactly when no line from there on is the target |
| Text.NonComments | kbputils/kbp.py:33 | every line kept is an input line that does not start with a quote, and every input line that does not start with a quote is kept |
| Text.NonCommentsAppend | kbputils/kbp.py:33 | filtering a concatenation is the concatenation of the filtered parts, so the kept lines stay in input order |
| Text.NonCommentsOne | kbputils/kbp.py:33 | a single line is dropped exactly when it starts with a quote |
| Palette.FromString | kbputils/kbp.py:140-142 | a palette line gives a palette exactly when its comma-separated fields, after the leading blanks, are sixteen [0-9A-F]{3} codes; the palette is those codes; otherwise the construction assertion fails |
| Palette.FromStringToString | kbputils/kbp.py:141-142 | reading back a written palette gives the same palette |
| Palette.Get | kbputils/kbp.py:133-137 | palette[x] succeeds exactly for integers 0..15, giving the code at x; any other key is a KeyError |
| Palette.DoubleChars | kbputils/kbp.py:145 | every character of the code is written twice, in order |
| Palette.DoubleCharsInverse | kbputils/kbp.py:145 | taking every other character undoes the doubling |
| Palette.AsRgb24 | kbputils/kbp.py:144-145 | sixteen six-digit codes, the i-th being palette code i with every digit doubled, from which every other digit gives back the code |
| Palette.AsRgba32 | kbputils/kbp.py:147-148 | sixteen eight-digit codes, the i-th being palette code i with every digit doubled and then "FF" |
| Style.HasColorsSpec | kbputils/kbp.py:230-238 | True exactly when all four colours are codes; False exactly when all four are palette indices; a mix of the two is a TypeError |
| Style.ResolveColors | kbputils/kbp.py:240-246 | a resolved style has all four colours as codes |
| Style.ResolveColorsSpec | kbputils/kbp.py:240-246 | resolution succeeds exactly when all four colours are in-range palette indices; each becomes palette[index]; no other field changes; an already-resolved style and a mixed one fail |
| Style.MakeFixed | kbputils/kbp.py:252-260 | the result is fixed; a fixed style is returned unchanged; otherwise "_fixed" is added to the name and the wipe colours become the plain colours, and nothing else changes |
| Style.MakeFixedIdempotent | kbputils/kbp.py:252-260 | deriving the fixed variant twice is deriving it once |
| StyleCollection.AlphaToKey | kbputils/kbp.py:270-274 | a key exactly for ASCII letters; the key is valid and positive exactly for upper-case letters |
| StyleCollection.KeyToAlphaAsWritten | kbputils/kbp.py:362-366 | as written, key2alpha returns a letter for every key in -26..26, key 0 included |
| StyleCollection.KeyToAlphaAsWrittenZero | kbputils/kbp.py:362-366 | as written, key 0 (which no collection can hold) gives 'Z', the letter of key 26 |
| StyleCollection.KeyToAlpha | kbputils/kbp.py:362-366 | corrected key2alpha: a letter exactly for the valid keys, and alpha2key of that letter is the key |
| StyleCollection.AlphaKeyRoundTrip | kbputils/kbp.py:270-274 | key2alpha(alpha2key(c)) == c for every letter |
| StyleCollection.OrderCoversEntries | kbputils/kbp.py:262 | in a valid collection the iteration order lists every key of the dictionary |
| StyleCollection.Set | kbputils/kbp.py:305-307 | storing succeeds exactly for keys in 1..26 or -26..-1; it updates the entry and appends a new key to the insertion order; any other key is a KeyError |
| StyleCollection.SetValid | kbputils/kbp.py:305-307 | storing keeps a collection valid: valid keys, each key listed once in order |
| StyleCollection.SetRejectsOutOfRange | kbputils/kbp.py:289-291 | keys 0, 27 and -27 are rejected with a KeyError |
| StyleCollection.LookupNum | kbputils/kbp.py:276-284 | a present key answers without change; a missing valid key whose negation is present derives, stores and answers the fixed variant; anything else is a KeyError |
| StyleCollection.LookupNumValid | kbputils/kbp.py:276-284 | in a valid collection a lookup succeeds exactly when the key or its negation is present, and keeps the collection valid |
| StyleCollection.LookupChanges | kbputils/kbp.py:276-284 | a lookup either changes nothing or adds exactly the answer under one new key |
| StyleCollection.LookupCached | kbputils/kbp.py:276-284 | repeating a successful lookup answers the same and changes nothing |
| StyleCollection.LookupLowerDerivesFixed | kbputils/kbp.py:277-282 | a missing lower-case letter whose upper-case style exists answers the fixed variant of that style |
| StyleCollection.KbpStyleCollection.constructor | kbputils/kbp.py:301-303 | a new collection is empty and valid |
| StyleCollection.KbpStyleCollection.SetItem | kbputils/kbp.py:305-307 | __setitem__ changes the collection as Set does, and rejects invalid keys without changing anything |
| StyleCollection.KbpStyleCollection.GetItem | kbputils/kbp.py:276-284 | __getitem__ with __missing__ answers and updates the collection as Lookup does; on a KeyError nothing changes |
| StyleCollection.FlagsLine | kbputils/kbp.py:348-350 | the third record line has at least eight fields, all but the last read as integers |
| StyleCollection.BuildStyle | kbputils/kbp.py:350-351 | a freshly built style is not fixed, has palette-index colours, four outlines and two shadows |
| StyleCollection.ParseStyleRecordSpec | kbputils/kbp.py:339-357 | a parsed record is not fixed and has four outlines and two shadows; its colours are indices without a palette and codes with one |
| StyleCollection.StylesUpToErr | kbputils/kbp.py:334-358 | once a line of the scan raises, the scan ends with that error |
| StyleCollection.StyleStepValid | kbputils/kbp.py:336-357 | one line of from_textlines keeps the collection valid |
| StyleCollection.StylesUpToValid | kbputils/kbp.py:334-358 | every successful prefix of the scan leaves a valid collection |
| StyleCollection.StylesSpec | kbputils/kbp.py:330-359 | from_textlines, as a value, gives a valid collection |
| StyleCollection.AddRecord | kbputils/kbp.py:339-357 | the record branch reads three lines and stores the style under its number + 1, as StartRecord describes |
| StyleCollection.ScanLine | kbputils/kbp.py:335-358 | one loop iteration changes the collection and the current style number as StyleStep describes |
| StyleCollection.ScanLines | kbputils/kbp.py:334-358 | the loop leaves the collection and style number of the fold StylesUpTo over all the lines, or its error |
| StyleCollection.FromTextlines | kbputils/kbp.py:330-359 | from_textlines returns a fresh valid collection whose value is StylesSpec, or its error |
| Page.ParseHeaderInts | kbputils/kbp.py:415-418 | the numbers of a matching header are int() of its third to seventh fields |
| Page.HeaderRoundTrip | kbputils/kbp.py:415-418 | every header a writer produces matches the header pattern and reads back as itself |
| Page.ParseSyllableSpec | kbputils/kbp.py:426-433 | a syllable record has at least four fields; its text is the first field with "{-}" made "/"; its times are int() of the next two fields; a zero wipe becomes the non-zero default wipe, otherwise the fourth field is kept |
| Page.SyllableRoundTrip | kbputils/kbp.py:426-433 | a written syllable reads back as itself, when a default wipe would not replace its wipe |
| Page.UnderscoredSpec | kbputils/kbp.py:200 | each space that a non-space follows somewhere later becomes '_'; every other character is kept |
| Page.UnderscoredTrailing | kbputils/kbp.py:200-203 | only trailing spaces remain after the substitution |
| Page.UnderscoredNoSpace | kbputils/kbp.py:200 | text without spaces is left as it is |
| Page.Texts | kbputils/kbp.py:208 | the syllable texts of a line, one per syllable, in order |
| Page.DropLast | kbputils/kbp.py:204 | s[:-k] is a prefix of s, k characters shorter, or empty |
| Page.WriteText | kbputils/kbp.py:186-208 | KBPLine.text's loop computes LineText: the separator for an empty line, the spaced text, or the syllables joined |
| Page.SpacedTextAgrees | kbputils/kbp.py:196-208 | without spaces in the syllables, treating space as a separator gives the same text as plain joining |
| Page.TextSplit | kbputils/kbp.py:207-208 | splitting a line's text at a one-character separator that no syllable holds gives back the syllable texts |
| Page.HeaderOnlyWhenClosed | kbputils/kbp.py:415-418 | a header line opens a line while none is open; while one is open, the header line is read as a syllable and its time field fails int() |
| Page.BlankClosesLine | kbputils/kbp.py:419-423 | a blank line closes the open line with the syllables read since its header |
| Page.TransitionsOnlyWhenClosed | kbputils/kbp.py:424-425 | the transitions change only on an "FX/" line while no line is open, and become its fields after the first |
| Page.SyllableAppended | kbputils/kbp.py:426-433 | any other non-blank line appends its parsed syllable, or raises that syllable's error |
| Page.PageUpToErr | kbputils/kbp.py:414-433 | once a line of a page block raises, the page fails with that error |
| Page.PageStepLinesGrow | kbputils/kbp.py:414-433 | a line never changes or removes a closed line, and closes at most one |
| Page.PageLinesGrow | kbputils/kbp.py:414-433 | the closed lines after fewer input lines are a prefix of those after more |
| Page.PageOf | kbputils/kbp.py:434 | a page is built exactly when there are two transitions; otherwise it is a TypeError with their count |
| Page.ScanPage | kbputils/kbp.py:414-433 | from_textlines' loop computes the fold PageUpTo over the block |
| Page.FromTextlines | kbputils/kbp.py:408-434 | KBPPage.from_textlines computes PageSpec |
| Page.MinStart | kbputils/kbp.py:437 | the least start among non-empty lines, attained by one of them; None exactly when every line is empty |
| Page.GetStart | kbputils/kbp.py:436-437 | get_start is the earliest start of a non-empty line, attained by one; min() of nothing raises exactly when every line is empty |
| Page.MaxEnd | kbputils/kbp.py:440 | the greatest end among the lines, attained by one; None exactly for no lines |
| Page.GetEnd | kbputils/kbp.py:439-440 | get_end is the latest end of any line, empty or not, attained by one; max() of nothing raises exactly for a page without lines |
| Page.ImageFromString | kbputils/kbp.py:450-455 | an image record is read exactly when it has at least four "/" fields whose first, second and fourth are integers; start, end and leaveonscreen are those integers and the file name is the third field; otherwise the first failing step names the error (a bad first field, too few fields, a bad second field, too few fields, a bad fourth field) |
| Page.ImageRoundTrip | kbputils/kbp.py:450-455 | a written image record reads back as itself when its file name holds no "/" |
| KbpFile.ZipIntsOk | kbputils/kbp.py:70 | the zip succeeds exactly when each field paired with a key is an integer; zip stops at the shorter side; the error names a failing paired field |
| KbpFile.ZipIntsMap | kbputils/kbp.py:70 | the dictionary holds exactly the keys paired with a field, each mapped to int() of its field |
| KbpFile.ZipSpec | kbputils/kbp.py:70 | a zip of distinct keys succeeds exactly when each field paired with a key converts, and then maps exactly the paired keys, each to its own field's value |
| KbpFile.MarginsSpec | kbputils/kbp.py:69-70 | parse_margins succeeds exactly when each of the first four fields of the stripped line converts; it maps left, right, top, spacing (as many as there are fields) to those numbers |
| KbpFile.OtherSpec | kbputils/kbp.py:72-73 | parse_other succeeds exactly when each of the first two fields converts; it maps bordercolor and wipedetail (as many as there are fields) to those numbers |
| KbpFile.Word | kbputils/kbp.py:92 | the first field of split(): a prefix without whitespace, ended by whitespace or the end |
| KbpFile.KeyValue | kbputils/kbp.py:92-96 | a track-information line has a key exactly when it is not blank |
| KbpFile.KeyValueSpec | kbputils/kbp.py:92-96 | past the leading whitespace the line is a non-empty first word, then whitespace only, then the value, which does not start with whitespace and runs to the end of the line; the key is the word lower-cased |
| KbpFile.KeyValueRoundTrip | kbputils/kbp.py:92-96 | "key value" is read back as the lower-cased key and the value |
| KbpFile.TrackUpToErr | kbputils/kbp.py:88-97 | once a line of the section raises, parse_trackinfo fails with that error |
| KbpFile.TrackUpToValid | kbputils/kbp.py:88-97 | the last key read is always an entry, and every key is lower-case |
| KbpFile.TrackContinuation | kbputils/kbp.py:89-90 | a line starting with a space appends a newline and its stripped text to the last key's value; before any key it is a KeyError(None) |
| KbpFile.TrackKeysLower | kbputils/kbp.py:85-97 | every key parse_trackinfo stores is lower-case |
| KbpFile.LineAt | kbputils/kbp.py:29 | kbpLines[x+1] exists exactly when the index is in range |
| KbpFile.BlockEnd | kbputils/kbp.py:39 | list.index(DIVIDER, x+1) is the first divider from x+1 on; a ValueError exactly when there is none |
| KbpFile.StylePalette | kbputils/kbp.py:32 | with resolve_colors the palette already read is used, and reading the styles before it is an AttributeError; without it no palette is used |
| KbpFile.DefaultWipe | kbputils/kbp.py:46 | with resolve_wipe the default wipe is other['wipedetail'], raising when "other" or the key is missing; without it there is none |
| KbpFile.StatusCheck | kbputils/kbp.py:41-42 | only status "1" passes; another status raises NotImplementedError; a missing one raises KeyError |
| KbpFile.Store | kbputils/kbp.py:29-40 | storing a header section leaves the pages and images alone |
| KbpFile.HeaderStep | kbputils/kbp.py:27-42 | a header line never changes the pages or images |
| KbpFile.ParseFromNext | kbputils/kbp.py:26-62 | the pass from line x is one step then the pass from x+1, or the step's error |
| KbpFile.ParseComplete | kbputils/kbp.py:64-66 | after a pass, parse succeeds exactly when all five header sections were read; the error lists the missing ones |
| KbpFile.MissingNamesSpec | kbputils/kbp.py:64 | the missing list names exactly the unread sections; "pages" never appears |
| KbpFile.ParseFlags | kbputils/kbp.py:54-62 | a divider sets the divider flag and leaves the header; blank and comment lines keep the flag; other lines clear it; HEADERV2 after a divider enters the header |
| KbpFile.UnsyncedRejected | kbputils/kbp.py:38-42 | a track-information section whose status is not "1" stops the parse with NotImplementedError |
| KbpFile.PageAdded | kbputils/kbp.py:44-47 | a line adds at most one page, and only at PAGEV2 right after a divider outside the header; earlier pages are kept |
| KbpFile.PagesGrow | kbputils/kbp.py:26-62 | pages read are never changed or removed by later lines |
| KbpFile.LineTextsCount | kbputils/kbp.py:109-111 | a page gives one text per line with include_empty, otherwise one per non-empty line |
| KbpFile.PageTexts | kbputils/kbp.py:107-112 | one text per page |
| KbpFile.PageTextSplit | kbputils/kbp.py:112 | splitting a page's text at newlines gives back its line texts, when none holds a newline |
| KbpFile.KbpFile.constructor | kbputils/kbp.py:12-14 | a new file has no sections, no pages and no images |
| KbpFile.KbpFile.ParseTrackinfo | kbputils/kbp.py:85-97 | parse_trackinfo stores TrackinfoSpec of the lines, or raises its error |
| KbpFile.KbpFile.HeaderLine | kbputils/kbp.py:27-42 | one header line updates the sections as HeaderStep describes |
| KbpFile.KbpFile.StylesLine | kbputils/kbp.py:30-33 | the 'Styles section up to StyleEnd, comments dropped, read with the palette when resolving colours |
| KbpFile.KbpFile.TrackLine | kbputils/kbp.py:38-42 | the track-information block up to the divider, then the status check |
| KbpFile.KbpFile.PageLine | kbputils/kbp.py:44-47 | a PAGEV2 block up to the next divider, appended as a page |
| KbpFile.KbpFile.ImageLine | kbputils/kbp.py:49-52 | an IMAGE record on the next line, appended as an image |
| KbpFile.KbpFile.ParseLine | kbputils/kbp.py:26-62 | one iteration of parse's loop updates the object and the flags as ParseStep describes |
| KbpFile.KbpFile.ParseNext | kbputils/kbp.py:26-62 | one iteration leaves the remaining pass unchanged: the pass from x equals the pass from x+1 in the new state |
| KbpFile.KbpFile.ParseLines | kbputils/kbp.py:24-62 | parse's loop leaves the sections of the fold ParseFrom over all lines, or its error |
| KbpFile.KbpFile.Parse | kbputils/kbp.py:23-66 | parse leaves ParseSpec's sections, or raises its error (including the missing-sections ValueError) |
| KbpFile.KbpFile.Text | kbputils/kbp.py:105-113 | text() is FileText: each page's line texts joined by newlines, pages joined by the page separator on its own line |
| KbpFile.PageLineTexts | kbputils/kbp.py:108-111 | the inner loop gives LineTexts: the text of every line of the page, in order, the empty ones only with include_empty |
| KbpFile.Load | kbputils/kbp.py:12-21 | KBPFile(lines) is a fresh object holding ParseSpec of the lines from an empty state, or the parse error |
| Converter.Margin | kbputils/converters.py:29-30 | margins[key] exactly when the key is present, else KeyError |
| Converter.GetPos | kbputils/converters.py:28-37 | y = top + num*(spacing+19) + 12; 'C' is unanchored at x 150; 'L' is \an7 at left+6; anything else is \an9 at 300-right-6; a missing margin key raises |
| Converter.GetPosStacks | kbputils/converters.py:30 | the next line of a page keeps the anchor and x and sits spacing+19 pixels lower |
| Converter.FadeTag | kbputils/converters.py:39-40 | the fade tag carries the options' fade-in and fade-out |
| Converter.FadeText | kbputils/converters.py:39-40 | the fade tag reads {\fad(fade_in,fade_out)} |
| Converter.Duration | kbputils/converters.py:46-61 | a syllable's \kf length is end-start, cut to end-cur when it starts before the cursor, plus one when the next syllable starts one centisecond after it ends |
| Converter.SyllableTags | kbputils/converters.py:46-63 | a positive \k hold of start-cur exactly when the syllable starts after the cursor, then one \kf with the syllable text |
| Converter.SyllableTagsSum | kbputils/converters.py:49-63 | one syllable's tags carry its text once and take hold + duration centiseconds |
| Converter.KaraokeShape | kbputils/converters.py:45-65 | the karaoke kbp2asstext writes holds exactly one \kf per syllable, in syllable order, and otherwise only positive holds |
| Converter.KaraokeShapeIntended | kbputils/converters.py:45-65 | the same shape under the corrected cursor rule |
| Converter.KaraokeInSync | kbputils/converters.py:44-64 | with the corrected cursor, the time the tags take always equals cursor - line start |
| Converter.SyllableOnTime | kbputils/converters.py:46-51 | with the corrected cursor, a syllable at or after the cursor begins its wipe exactly at its own start |
| Converter.KaraokeDrift | kbputils/converters.py:52-64 | as written, syllables (a,0,10),(b,5,20),(c,30,40) wipe c from 35, not from 30 |
| Converter.DriftPrefix | kbputils/converters.py:52-64 | as written, after the overlap the cursor is 15 while the tags written take 20 |
| Converter.KaraokeAgrees | kbputils/converters.py:44-64 | when no syllable starts before the cursor, the as-written and corrected cursors give the same tags |
| Converter.AssTagsAgree | kbputils/converters.py:42-65 | kbp2asstext as written and as intended fail together, and write the same tags on a line where no syllable starts before the cursor |
| Converter.AssTagsStart | kbputils/converters.py:43 | every timed event text starts with the position tag and then the fade tag |
| Converter.AssTagsSyllables | kbputils/converters.py:42-65 | the syllable texts of the markup kbp2asstext writes are those of the line, in order |
| Converter.WorkedExampleTags | kbputils/converters.py:42-65 | a line from 100 with Hi(100-200), there(205-500) gives \kf100 Hi, \k5, \kf295 there |
| Converter.WorkedExampleText | kbputils/converters.py:51-63 | those tags read {\kf100}Hi{\k5}{\kf295}there |
| Converter.Pad2 | kbputils/converters.py:69 | {:02}: decimal digits, at least two, denoting the number |
| Converter.AssStyleNameRoundTrip | kbputils/converters.py:67-69 | the style name gives back the key's magnitude and the KBP name, whatever underscores the name holds |
| Converter.Kbp2AssColor | kbputils/converters.py:71-73 | "&H00" then the code's characters reversed and doubled; a palette index is a TypeError |
| Converter.AssColorRoundTrip | kbputils/converters.py:71-73 | the code comes back from its ASS colour; a three-digit code gives ten characters |
| Converter.ConvertStyle | kbputils/converters.py:99-119 | the name from the key and KBP name; the font name kept; font size 1.4 times the KBP size (in tenths); outline the sum of the outlines over 4 and shadow the sum of the shadows over 2 (in quarters and halves); plain colours become secondary and outline, wipe colours primary and back; B/I/U/S set bold/italic/underline/strike-out; alignment 8, no margins, encoding = charset; any palette-index colour fails |
| Converter.FixedStyleDoesNotWipe | kbputils/converters.py:99-107 | the ASS style of a derived fixed style has primary = secondary and back = outline, and is named after the key and name + "_fixed" |
| Converter.LineEvent | kbputils/converters.py:88-97 | an empty line gives no event; otherwise the event exists exactly when the style lookup (with __missing__) succeeds and, for a style that is not fixed, the position can be computed; it fails with the lookup's KeyError first, then with the margins' KeyError; the event is a "karaoke" event timed start*10 to end*10, named Style{abs(alpha2key(c)):02}_{name} after the style found, with the plain line text for a fixed style and the karaoke markup otherwise; the collection is the one the lookup leaves |
| Converter.LineEventNamed | kbputils/converters.py:94 | an event is named after the entry its lookup found, under that entry's key, and the lookup keeps every earlier entry unchanged |
| Converter.LinesFromNamed | kbputils/converters.py:88-97 | every event of a page is named after some entry of the collection the page's lookups leave |
| Converter.PagesFromNamed | kbputils/converters.py:87-97 | every event of the document is named after some entry of the final collection |
| Converter.Conversions | kbputils/converters.py:98-119 | one style conversion per entry, in the collection's iteration order |
| Converter.LinesFromTimes | kbputils/converters.py:88-97 | a page's lines add one event per non-empty line, with that line's times, in order |
| Converter.PagesFromTimes | kbputils/converters.py:87-97 | the event list has one event per non-empty line of every page, in page and line order |
| Converter.LineEventValid | kbputils/converters.py:94-96 | the lookups of an event keep the collection valid |
| Converter.LinesFromValid | kbputils/converters.py:88-97 | the events of a page keep the collection valid |
| Converter.PagesFromValid | kbputils/converters.py:87-97 | the events of all pages keep the collection valid |
| Converter.LowerCaseFixed | kbputils/converters.py:94-96 | the style of a lower-case letter is fixed when negative keys hold fixed styles, and lookups keep that so |
| Converter.FixedLinePlain | kbputils/converters.py:96 | when the collection keeps fixed styles at its negative keys, a line with a lower-case style letter carries its plain text, and the collection still keeps them there |
| Converter.KaraokeLineTimed | kbputils/converters.py:96 | a line whose style is not fixed carries its karaoke markup, which starts with the position and fade tags |
| Converter.CollectOk | kbputils/converters.py:98-119 | the style list fails exactly when some conversion fails, with that conversion's error |
| Converter.CollectValues | kbputils/converters.py:98-119 | the style list holds every conversion's style, in order |
| Converter.DocumentContents | kbputils/converters.py:75-121 | a converted document has the fixed script info, one event per non-empty line in order, and one style per collection entry, in insertion order |
| Converter.DocumentEventStyles | kbputils/converters.py:87-119 | every event of a converted document is named after one of the document's styles |
| Converter.DocumentStylesFail | kbputils/converters.py:98-119 | once the events are written, the document fails exactly when some style still has palette-index colours, with a TypeError |
| Converter.AssConverter.constructor | kbputils/converters.py:24-26 | the options given, or the defaults 300/200 |
| Converter.AssConverter.Kbp2AssText | kbputils/converters.py:42-65 | the syllable loop yields AssTags: the position tag, the fade tag, then the karaoke with the cursor set to start + dur after each syllable |
| Converter.AssConverter.WriteEvent | kbputils/converters.py:88-97 | one line's event and the collection after its two lookups, as LineEvent describes |
| Converter.AssConverter.WriteEvents | kbputils/converters.py:87-97 | the nested loops give the events and collection of PagesFrom, or its error |
| Converter.AssConverter.WriteStyles | kbputils/converters.py:98-119 | the style loop gives the collected conversions in insertion order, or the first error |
| Converter.AssConverter.AssDocument | kbputils/converters.py:75-121 | ass_document gives DocumentSpec's document; the file's collection is left holding the styles derived on the way |

## Left out

- File I/O in `KBPFile.__init__`: the model starts from the lines. `Load` applies the
  parse to them, and `rstrip` is modelled separately as `Text.RStrip`.
- Unicode: whitespace is the ASCII whitespace Python recognises (space,
  `\t`, `\n`, `\v`, `\f`, `\r` and `\x1c`-`\x1f`); non-ASCII spaces such
  as U+0085 and U+00A0 are not. Digits and letters are ASCII only. `int()`
  takes optional surrounding whitespace, an optional sign and ASCII digits,
  with no underscores. `str.lower` changes ASCII letters only.
- Regular expressions are written out as predicates. `$` also matches before
  a final newline. That cannot occur here, because the lines are
  right-stripped.
- Validators (`validators.validated_instantiation`, `validated_types`,
  `validated_structures`, `one_arg`): the model uses typed records instead.
  The model does not reproduce the type checks they make at run time, apart
  from the palette check, the key-range check and the argument count of a
  page.
- `__repr__`, `alpha_keys`, `alpha_iter`, `update`, `__ior__`, `__or__` and
  `fromkeys` of the style collection. Nothing in the core calls them.
- Style.ResolveColors: the already-resolved branch of `resolve_colors`
  raises a NameError. It refers to an undefined `name` and `warnings`, so
  its warning is never issued. The model gives `Err(AlreadyResolved)`.
- KbpFile.KbpFile.Parse: the object left behind by a parse that raises is
  not stated. The sections are stated only on success, and so is the result
  of `KbpFile.Load`.
- Converter.AssConverter.WriteEvents: when an event fails (a style letter
  with no style, or margins that are missing), the collection left behind
  by the lookups made so far is not stated, only that it stays valid. The
  same holds for `WriteEvent` and `LineEvent`.
- Converter.AssConverter.AssDocument: when an event or a style conversion
  fails, the model does not state the collection left behind.
- Floating point: `fontsize * 1.4`, `sum(outlines)/4` and `sum(shadows)/2`
  are kept exactly. They are stored as tenths, quarters and halves
  (`fontsizeTenths`, `outlineQuarters`, `shadowHalves`).
- `datetime.timedelta`: event times are integer milliseconds.
- The `ass` library: its objects are records. Script info values are
  strings.
- `AssOptions.transparency` and `AssOptions.offset` are not modelled,
  because the conversion never reads them.
- A `KBPLine.__getattr__` lookup of a field that a line header does not
  have. The model reaches header fields directly.

## Findings

| source | as written | input that shows it | evidently intended | confidence | as-written member | corrected member |
|---|---|---|---|---|---|---|
| kbputils/kbp.py:362-366 | `key2alpha(0)` indexes `ascii_uppercase[-1]` and returns 'Z' | key 0 | key 0 is not a valid key (1..26, -26..-1) and has no letter; 'Z' belongs to key 26 | medium, not executed | StyleCollection.KeyToAlphaAsWritten, StyleCollection.KeyToAlphaAsWrittenZero | StyleCollection.KeyToAlpha, StyleCollection.AlphaKeyRoundTrip |
| kbputils/converters.py:52-64 | after a syllable that starts before the cursor, `dur` is shortened by the overlap, and then the cursor is set to `s.start + dur`, which lies behind the time the tags already written take | syllables a (0-10), b (5-20), c (30-40) on a line starting at 0: the cursor is 15 after b while the tags take 20, so c's hold is 15 and c's wipe begins at 35 instead of 30 | the cursor follows the tags written (`cur + dur` after an overlap), so every later syllable is wiped from its own start | medium, not executed | Converter.KaraokeAsWritten, Converter.CursorAsWritten, Converter.KaraokeDrift | Converter.Karaoke, Converter.Cursor, Converter.KaraokeInSync, Converter.SyllableOnTime, Converter.AssTagsAgree |
