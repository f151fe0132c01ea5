/** The handful of Python string operations the KBP parser leans on:
    stripping, prefix tests, str.split on one character, int() and "%d",
    ASCII lower-casing and the "{-}" escape of syllable text. */
module Text {
  import opened Wrappers

  /** Python whitespace, restricted to ASCII. */
  predicate IsSpace(c: char) {
    c == ' ' || c == '\t' || c == '\n' || c == '\r' || c == '\U{B}' || c == '\U{C}'
      || '\U{1C}' <= c <= '\U{1F}'
  }

  predicate IsDigit(c: char) {
    '0' as int <= c as int <= '9' as int
  }

  predicate IsUpper(c: char) {
    'A' <= c <= 'Z'
  }

  predicate IsLower(c: char) {
    'a' <= c <= 'z'
  }

  predicate IsLetter(c: char) {
    IsUpper(c) || IsLower(c)
  }

  /** A non-empty run of decimal digits. */
  predicate IsDigits(d: string) {
    |d| > 0 && forall i :: 0 <= i < |d| ==> IsDigit(d[i])
  }

  predicate StartsWith(s: string, prefix: string) {
    |prefix| <= |s| && s[..|prefix|] == prefix
  }

  predicate EndsWith(s: string, suffix: string) {
    |suffix| <= |s| && s[|s| - |suffix|..] == suffix
  }

  /** str.lstrip(): drops the leading whitespace (LStripSpec). */
  function LStrip(s: string): (r: string)
    ensures |r| <= |s|
  {
    if |s| > 0 && IsSpace(s[0]) then LStrip(s[1..]) else s
  }

  /** What lstrip keeps is a suffix that does not start with whitespace,
      and all it drops is whitespace. */
  lemma {:induction false} LStripSpec(s: string)
    ensures var r := LStrip(s);
      && r == s[|s| - |r|..]
      && (forall i :: 0 <= i < |s| - |r| ==> IsSpace(s[i]))
      && (r == [] || !IsSpace(r[0]))
  {
    if |s| > 0 && IsSpace(s[0]) {
      LStripSpec(s[1..]);
    }
  }

  /** Stripping twice is stripping once, so int() of an lstripped field
      is int() of the field. */
  lemma {:induction false} LStripIdempotent(s: string)
    ensures LStrip(LStrip(s)) == LStrip(s)
    ensures ParseInt(LStrip(s)) == ParseInt(s)
  {
    if |s| > 0 && IsSpace(s[0]) {
      LStripIdempotent(s[1..]);
    }
  }

  /** str.rstrip(): drops the trailing whitespace (RStripSpec). */
  function RStrip(s: string): (r: string)
    ensures |r| <= |s|
  {
    if |s| > 0 && IsSpace(s[|s| - 1]) then RStrip(s[..|s| - 1]) else s
  }

  /** What rstrip keeps is a prefix that does not end with whitespace, and
      all it drops is whitespace. */
  lemma {:induction false} RStripSpec(s: string)
    ensures var r := RStrip(s);
      && r == s[..|r|]
      && (forall i :: |r| <= i < |s| ==> IsSpace(s[i]))
      && (r == [] || !IsSpace(r[|r| - 1]))
  {
    if |s| > 0 && IsSpace(s[|s| - 1]) {
      RStripSpec(s[..|s| - 1]);
    }
  }

  /** str.strip() */
  function Strip(s: string): string {
    RStrip(LStrip(s))
  }

  /** sep.join(parts) */
  function Join(parts: seq<string>, sep: string): string {
    if |parts| == 0 then ""
    else if |parts| == 1 then parts[0]
    else parts[0] + sep + Join(parts[1..], sep)
  }

  /** str.split(sep) for a one-character separator: the pieces between the
      separators, in order; never fewer than one piece. */
  function Split(s: string, sep: char): (r: seq<string>)
    ensures |r| >= 1
  {
    if |s| == 0 then [""]
    else
      var rest := Split(s[1..], sep);
      if s[0] == sep then [""] + rest
      else [[s[0]] + rest[0]] + rest[1..]
  }

  /** No piece of a split holds the separator. */
  lemma {:induction false} SplitPieces(s: string, sep: char)
    ensures forall i :: 0 <= i < |Split(s, sep)| ==> sep !in Split(s, sep)[i]
  {
    if |s| > 0 {
      SplitPieces(s[1..], sep);
    }
  }

  /** Joining the pieces of a split with the separator gives back the string. */
  lemma {:induction false} SplitJoin(s: string, sep: char)
    ensures Join(Split(s, sep), [sep]) == s
  {
    if |s| > 0 {
      var rest := Split(s[1..], sep);
      SplitJoin(s[1..], sep);
      if s[0] == sep {
        assert Split(s, sep) == [""] + rest;
        assert ([""] + rest)[1..] == rest;
      } else {
        var r := Split(s, sep);
        assert r == [[s[0]] + rest[0]] + rest[1..];
        if |rest| > 1 {
          assert r[1..] == rest[1..];
          assert Join(rest, [sep]) == rest[0] + [sep] + Join(rest[1..], [sep]);
        }
      }
    }
  }

  /** The first piece of a split keeps any separator-free prefix. */
  lemma {:induction false} SplitFirstPrefix(s: string, p: string, sep: char)
    requires StartsWith(s, p) && sep !in p
    ensures StartsWith(Split(s, sep)[0], p)
  {
    if |p| > 0 {
      SplitFirstPrefix(s[1..], p[1..], sep);
      assert p[0] != sep;
      assert p == [p[0]] + p[1..];
    }
  }

  /** Splitting "a<sep>b" where a has no separator yields a, then the pieces of b. */
  lemma {:induction false} SplitCons(a: string, b: string, sep: char)
    requires sep !in a
    ensures Split(a + [sep] + b, sep) == [a] + Split(b, sep)
  {
    if |a| == 0 {
      assert a + [sep] + b == [sep] + b;
      assert ([sep] + b)[1..] == b;
    } else {
      SplitCons(a[1..], b, sep);
      assert (a + [sep] + b)[1..] == a[1..] + [sep] + b;
      assert [a[0]] + a[1..] == a;
    }
  }

  /** A string without the separator splits into itself alone. */
  lemma {:induction false} SplitNoSep(a: string, sep: char)
    requires sep !in a
    ensures Split(a, sep) == [a]
  {
    if |a| > 0 {
      SplitNoSep(a[1..], sep);
      assert [a[0]] + a[1..] == a;
    }
  }

  /** Splitting undoes joining, when no piece holds the separator. */
  lemma {:induction false} JoinSplit(parts: seq<string>, sep: char)
    requires |parts| >= 1
    requires forall i :: 0 <= i < |parts| ==> sep !in parts[i]
    ensures Split(Join(parts, [sep]), sep) == parts
  {
    if |parts| == 1 {
      SplitNoSep(parts[0], sep);
    } else {
      JoinSplit(parts[1..], sep);
      SplitCons(parts[0], Join(parts[1..], [sep]), sep);
      assert [parts[0]] + parts[1..] == parts;
    }
  }

  /** The value of a run of decimal digits. */
  function DigitsValue(d: string): nat
    requires forall i :: 0 <= i < |d| ==> IsDigit(d[i])
  {
    if |d| == 0 then 0
    else
      assert IsDigit(d[|d| - 1]);
      DigitsValue(d[..|d| - 1]) * 10 + (d[|d| - 1] as int - '0' as int)
  }

  /** int(s) on a str: surrounding whitespace, an optional sign, then at
      least one decimal digit; anything else has no value. */
  function ParseInt(s: string): Option<int> {
    var t := Strip(s);
    if |t| > 0 && (t[0] == '-' || t[0] == '+') then
      if IsDigits(t[1..]) then
        var v: int := DigitsValue(t[1..]);
        Some(if t[0] == '-' then -v else v)
      else None
    else if IsDigits(t) then Some(DigitsValue(t))
    else None
  }

  /** The pattern -?[0-9]+: digits with an optional minus sign. */
  predicate IsSignedDigits(f: string) {
    IsDigits(f) || (|f| > 1 && f[0] == '-' && IsDigits(f[1..]))
  }

  /** The value the pattern -?[0-9]+ denotes. */
  function SignedValue(f: string): int
    requires IsSignedDigits(f)
  {
    if f[0] == '-' then -(DigitsValue(f[1..]) as int) else DigitsValue(f)
  }

  /** int() agrees with that value on every string of the pattern. */
  lemma ParseIntSigned(f: string)
    requires IsSignedDigits(f)
    ensures ParseInt(f) == Some(SignedValue(f))
  {
    assert !IsSpace(f[0]) && !IsSpace(f[|f| - 1]) by {
      if f[0] == '-' {
        assert IsDigit(f[1..][|f| - 2]);
      }
    }
    assert Strip(f) == f;
  }

  function DigitChar(d: nat): char
    requires d < 10
  {
    ('0' as int + d) as char
  }

  /** "%d" of a non-negative number. */
  function NatToString(n: nat): (r: string)
    ensures IsDigits(r)
  {
    if n < 10 then [DigitChar(n)] else NatToString(n / 10) + [DigitChar(n % 10)]
  }

  /** "%d": a minus sign for negative numbers, then the decimal digits. */
  function IntToString(n: int): string {
    if n < 0 then "-" + NatToString(-n) else NatToString(n)
  }

  lemma {:induction false} NatToStringValue(n: nat)
    ensures DigitsValue(NatToString(n)) == n
  {
    if n >= 10 {
      var s := NatToString(n);
      NatToStringValue(n / 10);
      assert s[..|s| - 1] == NatToString(n / 10);
    }
  }

  /** int() reads back what "%d" writes. */
  lemma IntToStringRoundTrip(n: int)
    ensures ParseInt(IntToString(n)) == Some(n)
  {
    var s := IntToString(n);
    var d := NatToString(if n < 0 then -n else n);
    NatToStringValue(if n < 0 then -n else n);
    assert !IsSpace(s[0]) && !IsSpace(s[|s| - 1]);
    assert Strip(s) == s;
    if n < 0 {
      assert s[1..] == d;
    }
  }

  /** "%d" writes the pattern -?[0-9]+, which denotes the number written. */
  lemma IntToStringSigned(n: int)
    ensures IsSignedDigits(IntToString(n)) && SignedValue(IntToString(n)) == n
  {
    var d := NatToString(if n < 0 then -n else n);
    NatToStringValue(if n < 0 then -n else n);
    if n < 0 {
      assert IntToString(n)[1..] == d;
    }
  }

  /** "%d" writes no character other than digits and the minus sign. */
  lemma IntToStringChars(n: int, c: char)
    requires c != '-' && !IsDigit(c)
    ensures c !in IntToString(n)
  {
    var d := NatToString(if n < 0 then -n else n);
    assert IntToString(n) == (if n < 0 then "-" else "") + d;
  }

  /** int(field), failing with the field: the field, once stripped, is
      decimal digits after at most one sign, and its value is theirs,
      negated after a minus. */
  function IntField(field: string): (r: Result<int>)
    ensures var t := Strip(field);
      r.Ok? <==> IsDigits(t) || (|t| > 1 && (t[0] == '-' || t[0] == '+') && IsDigits(t[1..]))
    ensures var t := Strip(field);
      r.Ok? ==> r.value == if IsDigits(t) then DigitsValue(t) as int
                           else if t[0] == '-' then -(DigitsValue(t[1..]) as int) else DigitsValue(t[1..])
    ensures r.Err? ==> r.error == BadInt(field)
  {
    match ParseInt(field)
    case None => Err(BadInt(field))
    case Some(v) => Ok(v)
  }

  /** int() reads back every number "%d" writes, so IntField never fails
      on a field the writer produced. */
  lemma IntFieldWritten(n: int)
    ensures IntField(IntToString(n)) == Ok(n)
  {
    IntToStringRoundTrip(n);
  }

  /** Every field parses with int(), in order, or the first that does not
      is reported. */
  function ParseInts(fields: seq<string>): (r: Result<seq<int>>)
    ensures r.Ok? ==> |r.value| == |fields|
  {
    if |fields| == 0 then Ok([])
    else
      match ParseInt(fields[0])
      case None => Err(BadInt(fields[0]))
      case Some(v) =>
        var rest :- ParseInts(fields[1..]);
        Ok([v] + rest)
  }

  /** The fields all parse exactly when the list does, each to its own
      value, and a failure names the first field that does not parse. */
  lemma {:induction false} ParseIntsSpec(fields: seq<string>)
    ensures ParseInts(fields).Ok? <==> forall i :: 0 <= i < |fields| ==> ParseInt(fields[i]).Some?
    ensures ParseInts(fields).Ok? ==>
      forall i :: 0 <= i < |fields| ==> ParseInt(fields[i]) == Some(ParseInts(fields).value[i])
    ensures ParseInts(fields).Err? ==>
      exists i :: (0 <= i < |fields| && ParseInt(fields[i]).None? && ParseInts(fields).error == BadInt(fields[i]) &&
                   forall j :: 0 <= j < i ==> ParseInt(fields[j]).Some?)
  {
    if |fields| > 0 {
      ParseIntsSpec(fields[1..]);
      if ParseInt(fields[0]).Some? && ParseInts(fields[1..]).Err? {
        var i :| 0 <= i < |fields| - 1 && ParseInt(fields[1..][i]).None? &&
          ParseInts(fields[1..]).error == BadInt(fields[1..][i]) &&
          forall j :: 0 <= j < i ==> ParseInt(fields[1..][j]).Some?;
        assert ParseInt(fields[i + 1]).None?;
      }
    }
  }

  /** "%d" of each number. */
  function IntsToStrings(ns: seq<int>): (r: seq<string>)
    ensures |r| == |ns|
  {
    if |ns| == 0 then [] else [IntToString(ns[0])] + IntsToStrings(ns[1..])
  }

  /** int() reads back every number "%d" writes. */
  lemma {:induction false} ParseIntsWritten(ns: seq<int>)
    ensures ParseInts(IntsToStrings(ns)) == Ok(ns)
  {
    if |ns| > 0 {
      ParseIntsWritten(ns[1..]);
      IntToStringRoundTrip(ns[0]);
      assert IntsToStrings(ns)[1..] == IntsToStrings(ns[1..]);
      assert [ns[0]] + ns[1..] == ns;
    }
  }

  function LowerChar(c: char): char {
    if 'A' <= c <= 'Z' then (c as int + 32) as char else c
  }

  /** str.lower() on ASCII letters. */
  function Lower(s: string): string {
    seq(|s|, i requires 0 <= i < |s| => LowerChar(s[i]))
  }

  /** re.sub(r"{-}", "/", s): each "{-}", left to right, becomes "/". */
  function Unescape(s: string): string {
    if |s| == 0 then ""
    else if StartsWith(s, "{-}") then "/" + Unescape(s[3..])
    else [s[0]] + Unescape(s[1..])
  }

  /** The writer's side of that escape: "/" inside syllable text is "{-}". */
  function Escape(s: string): string {
    if |s| == 0 then "" else (if s[0] == '/' then "{-}" else [s[0]]) + Escape(s[1..])
  }

  /** Unescaping a field that came out of a split on "/" loses nothing:
      escaping the result gives the field back. */
  lemma {:induction false} EscapeUnescape(s: string)
    requires '/' !in s
    ensures Escape(Unescape(s)) == s
  {
    if |s| > 0 {
      if StartsWith(s, "{-}") {
        EscapeUnescape(s[3..]);
        var u := Unescape(s[3..]);
        assert ("/" + u)[1..] == u;
        assert s == "{-}" + s[3..];
      } else {
        EscapeUnescape(s[1..]);
        var u := Unescape(s[1..]);
        assert ([s[0]] + u)[1..] == u;
        assert s == [s[0]] + s[1..];
      }
    }
  }

  /** Escaped text never holds the separator "/". */
  lemma {:induction false} EscapeNoSlash(s: string)
    ensures '/' !in Escape(s)
  {
    if |s| > 0 {
      EscapeNoSlash(s[1..]);
    }
  }

  /** The escape mark "{-}" occurs somewhere in s. */
  predicate ContainsMark(s: string) {
    |s| > 0 && (StartsWith(s, "{-}") || ContainsMark(s[1..]))
  }

  /** Text without the mark "{-}" survives escaping then unescaping. */
  lemma {:induction false} UnescapeEscape(s: string)
    requires !ContainsMark(s)
    ensures Unescape(Escape(s)) == s
  {
    if |s| > 0 {
      var e := Escape(s[1..]);
      UnescapeEscape(s[1..]);
      if s[0] == '/' {
        assert Escape(s) == "{-}" + e;
        assert ("{-}" + e)[3..] == e;
      } else {
        assert Escape(s) == [s[0]] + e;
        assert ([s[0]] + e)[1..] == e;
      }
    }
  }

  /** list.index(target, from): the first position at or after `from`
      holding `target`, if any. */
  function IndexOf(lines: seq<string>, target: string, from: nat): (r: Option<nat>)
    decreases |lines| - from
    ensures r.Some? ==> from <= r.value < |lines| && lines[r.value] == target
    ensures r.Some? ==> forall j :: from <= j < r.value ==> lines[j] != target
    ensures r.None? ==> forall j :: from <= j < |lines| ==> lines[j] != target
  {
    if from >= |lines| then None
    else if lines[from] == target then Some(from)
    else IndexOf(lines, target, from + 1)
  }

  /** The lines that do not start with a quote, in order: every line of
      the result is a line of the input that is not a comment, and every
      such line of the input is in the result (order: NonCommentsAppend). */
  function NonComments(lines: seq<string>): (r: seq<string>)
    ensures |r| <= |lines|
    ensures forall i :: 0 <= i < |r| ==> !StartsWith(r[i], "'") && r[i] in lines
    ensures forall i :: 0 <= i < |lines| && !StartsWith(lines[i], "'") ==> lines[i] in r
  {
    if |lines| == 0 then []
    else
      var rest := NonComments(lines[1..]);
      assert forall i :: 1 <= i < |lines| ==> lines[i] == lines[1..][i - 1];
      (if StartsWith(lines[0], "'") then [] else [lines[0]]) + rest
  }

  /** Filtering a concatenation filters each part and keeps them in order;
      with NonCommentsOne, this fixes the result completely. */
  lemma {:induction false} NonCommentsAppend(a: seq<string>, b: seq<string>)
    ensures NonComments(a + b) == NonComments(a) + NonComments(b)
  {
    if |a| > 0 {
      var h := if StartsWith(a[0], "'") then [] else [a[0]];
      assert (a + b)[0] == a[0] && (a + b)[1..] == a[1..] + b;
      NonCommentsAppend(a[1..], b);
      assert NonComments(a + b) == h + NonComments(a[1..] + b);
      assert NonComments(a) == h + NonComments(a[1..]);
    } else {
      assert a + b == b;
    }
  }

  /** One line is dropped when it is a comment and kept otherwise. */
  lemma NonCommentsOne(x: string)
    ensures NonComments([x]) == if StartsWith(x, "'") then [] else [x]
  {
    assert [x][1..] == [];
  }
}
