/**
 * The reader's line classifier and tag parsers (`M3Uzi.type`,
 * `parse_general_tag`, `parse_file_tag`, `parse_stream_tag`), the absolute
 * URI test and the stream-attribute assignment of `M3Uzi.read`.
 *
 * Each regular expression of the source is written out as the scan it
 * performs. A line is the text of one line without its terminator, so the
 * patterns' `^` and `$` anchor at its two ends.
 */
module LineParser {
  import opened Wrappers
  import opened Text
  import opened Items

  /** The symbols `M3Uzi.type` returns. */
  datatype LineKind = Whitespace | CommentLine | Info | StreamInf | Final | TagLine | FileLine

  predicate AllRegexSpace(s: string) {
    forall k :: 0 <= k < |s| ==> IsRegexSpace(s[k])
  }

  predicate IsStreamInfLine(line: string) {
    StartsWith(line, "#EXT-STREAM-INF") || StartsWith(line, "#EXT-X-STREAM-INF")
  }

  predicate IsEndListLine(line: string) {
    StartsWith(line, "#EXT-ENDLIST") || StartsWith(line, "#EXT-X-ENDLIST")
  }

  lemma PrefixOfPrefix(s: string, p: string, q: string)
    requires StartsWith(s, p) && StartsWith(p, q)
    ensures StartsWith(s, q)
  {
    assert s[..|q|] == p[..|q|];
  }

  lemma HashLineNotBlank(line: string)
    requires StartsWith(line, "#")
    ensures !AllRegexSpace(line)
  {
    assert line[0] == '#';
  }

  /** A line starting with `#EXT-` has `-` where `#EXTINF` has `I`. */
  lemma DashAfterExt(line: string, p: string)
    requires StartsWith(line, p) && StartsWith(p, "#EXT-")
    ensures StartsWith(line, "#EXT") && line[4] == '-' && !StartsWith(line, "#EXTINF")
  {
    PrefixOfPrefix(line, p, "#EXT-");
    PrefixOfPrefix(line, "#EXT-", "#EXT");
    assert line[4] == line[..5][4] == "#EXT-"[4];
  }

  /** How the seven prefixes relate: each longer prefix implies the shorter ones, and the `-` forms exclude each other. */
  lemma PrefixFacts(line: string)
    ensures StartsWith(line, "#") ==> !AllRegexSpace(line)
    ensures StartsWith(line, "#EXT") ==> StartsWith(line, "#")
    ensures StartsWith(line, "#EXTINF") ==> StartsWith(line, "#EXT")
    ensures IsStreamInfLine(line) ==> StartsWith(line, "#EXT") && !StartsWith(line, "#EXTINF")
    ensures IsEndListLine(line) ==> StartsWith(line, "#EXT") && !StartsWith(line, "#EXTINF") && !IsStreamInfLine(line)
  {
    if StartsWith(line, "#EXT") {
      PrefixOfPrefix(line, "#EXT", "#");
      HashLineNotBlank(line);
    }
    if StartsWith(line, "#") {
      HashLineNotBlank(line);
    }
    if StartsWith(line, "#EXTINF") {
      PrefixOfPrefix(line, "#EXTINF", "#EXT");
    }
    if IsStreamInfLine(line) {
      if StartsWith(line, "#EXT-STREAM-INF") {
        DashAfterExt(line, "#EXT-STREAM-INF");
      } else {
        DashAfterExt(line, "#EXT-X-STREAM-INF");
      }
    }
    if IsEndListLine(line) {
      if StartsWith(line, "#EXT-ENDLIST") {
        DashAfterExt(line, "#EXT-ENDLIST");
      } else {
        DashAfterExt(line, "#EXT-X-ENDLIST");
      }
      assert !StartsWith(line, "#EXT-STREAM-INF") && !StartsWith(line, "#EXT-X-STREAM-INF") by {
        assert line[5] == 'E' || line[7] == 'E';
      }
    }
  }

  /**
   * `M3Uzi.type`: the first of its seven patterns that the line matches.
   * The ensures clauses characterise every kind on its own, independently
   * of the order of the rules, so each line has exactly one kind; a line is
   * a file reference exactly when it is neither blank nor starts with `#`.
   */
  function Classify(line: string): (k: LineKind)
    ensures k == Whitespace <==> AllRegexSpace(line)
    ensures k == CommentLine <==> StartsWith(line, "#") && !StartsWith(line, "#EXT")
    ensures k == Info <==> StartsWith(line, "#EXTINF")
    ensures k == StreamInf <==> IsStreamInfLine(line)
    ensures k == Final <==> IsEndListLine(line)
    ensures k == TagLine <==>
      StartsWith(line, "#EXT") && !StartsWith(line, "#EXTINF") && !IsStreamInfLine(line) && !IsEndListLine(line)
    ensures k == FileLine <==> !AllRegexSpace(line) && !StartsWith(line, "#")
  {
    PrefixFacts(line);
    if AllRegexSpace(line) then Whitespace
    else if StartsWith(line, "#") && !StartsWith(line, "#EXT") then CommentLine
    else if StartsWith(line, "#EXTINF") then Info
    else if IsStreamInfLine(line) then StreamInf
    else if IsEndListLine(line) then Final
    else if StartsWith(line, "#EXT") then TagLine
    else FileLine
  }

  /** The index of the first `c` in `s` at or after `i`, or `|s|`. */
  function IndexOf(s: string, c: char, i: nat): (r: nat)
    requires i <= |s|
    ensures i <= r <= |s|
    ensures r < |s| ==> s[r] == c
    ensures forall k :: i <= k < r ==> s[k] != c
    decreases |s| - i
  {
    if i == |s| || s[i] == c then i else IndexOf(s, c, i + 1)
  }

  /**
   * `parse_general_tag`: the name is everything before the first colon
   * (`#EXT` included), the value everything after it, `nil` when there is
   * no colon or nothing after it. The pattern needs at least one character
   * other than a colon after `#EXT`, and rejects `STREAM-INF` right after
   * `#EXT`; on such a line `match` gives `nil` and the parser fails.
   */
  function ParseGeneralTag(line: string): (r: Option<TagData>)
    ensures r.Some? <==>
      StartsWith(line, "#EXT") && |line| > 4 && line[4] != ':' && !StartsWith(line[4..], "STREAM-INF")
    ensures r.Some? ==> StartsWith(line, r.value.name) && ':' !in r.value.name
    ensures r.Some? && r.value.value.None? ==> line == r.value.name || line == r.value.name + ":"
    ensures r.Some? && r.value.value.Some? ==>
      r.value.value.value != [] && line == r.value.name + ":" + r.value.value.value
  {
    if StartsWith(line, "#EXT") && |line| > 4 && line[4] != ':' && !StartsWith(line[4..], "STREAM-INF") then
      var c := IndexOf(line, ':', 0);
      var name := line[..c];
      assert forall k :: 0 <= k < |name| ==> name[k] == line[k];
      if c + 1 < |line| then
        assert line == name + ":" + line[c + 1..];
        Some(TagData(name, Some(line[c + 1..])))
      else
        assert c < |line| ==> line == name + ":";
        Some(TagData(name, None))
    else
      None
  }

  /** A general tag written as `name:value` parses back to that name and value. */
  lemma GeneralTagRoundTrip(name: string, value: string)
    requires StartsWith(name, "#EXT") && |name| > 4 && ':' !in name
    requires !StartsWith(name[4..], "STREAM-INF")
    requires value != []
    ensures ParseGeneralTag(name + ":" + value) == Some(TagData(name, Some(value)))
  {
    var line := name + ":" + value;
    assert line[..|name|] == name;
    assert !StartsWith(line[4..], "STREAM-INF") by {
      if |name| >= 14 {
        assert line[4..][..10] == name[4..][..10];
      } else {
        assert line[4..][|name| - 4] == ':';
        assert ':' !in "STREAM-INF";
      }
    }
    assert IndexOf(line, ':', 0) == |name| by {
      assert line[|name|] == ':';
      assert forall k :: 0 <= k < |name| ==> line[k] == name[k];
    }
  }

  /** A bare general tag name (no colon) parses to that name with a `nil` value. */
  lemma BareTagRoundTrip(name: string)
    requires StartsWith(name, "#EXT") && |name| > 4 && ':' !in name
    requires !StartsWith(name[4..], "STREAM-INF")
    ensures ParseGeneralTag(name) == Some(TagData(name, None))
  {
    assert IndexOf(name, ':', 0) == |name|;
  }

  predicate IsBlank(c: char) {
    c == ' ' || c == '\t'
  }

  /** The end of the run of spaces and tabs (`[ \t]*`) starting at `i`. */
  function SkipBlanks(s: string, i: nat): (r: nat)
    requires i <= |s|
    ensures i <= r <= |s| && (r == |s| || !IsBlank(s[r]))
    ensures forall k :: i <= k < r ==> IsBlank(s[k])
    decreases |s| - i
  {
    if i < |s| && IsBlank(s[i]) then SkipBlanks(s, i + 1) else i
  }

  /** The end of the run of decimal digits (`\d*`) starting at `i`. */
  function DigitRunEnd(s: string, i: nat): (r: nat)
    requires i <= |s|
    ensures i <= r <= |s| && (r == |s| || !IsDigit(s[r]))
    ensures forall k :: i <= k < r ==> IsDigit(s[k])
    decreases |s| - i
  {
    if i < |s| && IsDigit(s[i]) then DigitRunEnd(s, i + 1) else i
  }

  predicate AllDecimal(s: string) {
    forall k :: 0 <= k < |s| ==> IsDigit(s[k])
  }

  /** The numerals `-?\d+\.?\d*` accepts as a whole: an optional minus, digits, optionally a point and more digits. */
  predicate IsNumeral(s: string) {
    exists c :: 0 < c <= |s| && NumeralSplit(s, c)
  }

  /** The integer digits of numeral `s` end at `c`; a point and only digits follow. */
  predicate NumeralSplit(s: string, c: int) {
    var b := if s != [] && s[0] == '-' then 1 else 0;
    b < c <= |s| && AllDecimal(s[b..c]) && (c == |s| || (s[c] == '.' && AllDecimal(s[c + 1..])))
  }

  /**
   * Where the parts of `^#EXTINF:[ \t]*(-?\d+\.?\d*),?[ \t]*(.*)$` lie
   * in a matching line: the numeral spans `a` to `d` and the description
   * starts at `f`. The pattern matches as soon as one digit follows the
   * blanks and the optional minus sign.
   */
  function FileTagSpans(line: string): (r: Option<(nat, nat, nat)>)
    ensures r.Some? ==> 8 <= r.value.0 < r.value.1 <= r.value.2 <= |line|
    ensures r.Some? ==> r.value.2 == |line| || !IsBlank(line[r.value.2])
  {
    if !StartsWith(line, "#EXTINF:") then None
    else
      var a := SkipBlanks(line, 8);
      var b := if a < |line| && line[a] == '-' then a + 1 else a;
      var c := DigitRunEnd(line, b);
      if c == b then None
      else
        var d := if c < |line| && line[c] == '.' then DigitRunEnd(line, c + 1) else c;
        var e := if d < |line| && line[d] == ',' then d + 1 else d;
        Some((a, d, SkipBlanks(line, e)))
  }

  /** What the numeral group captures is a numeral. */
  lemma SpansHoldNumeral(line: string)
    requires FileTagSpans(line).Some?
    ensures var (a, d, _) := FileTagSpans(line).value; IsNumeral(line[a..d])
  {
    var a := SkipBlanks(line, 8);
    var b := if a < |line| && line[a] == '-' then a + 1 else a;
    var c := DigitRunEnd(line, b);
    var d := if c < |line| && line[c] == '.' then DigitRunEnd(line, c + 1) else c;
    NumeralOfRuns(line, a, b, c, d);
  }

  /** An optional `-`, a run of digits, and optionally `.` and more digits make a numeral. */
  lemma NumeralOfRuns(line: string, a: nat, b: nat, c: nat, d: nat)
    requires a <= b < c <= d <= |line|
    requires b == a || (b == a + 1 && line[a] == '-')
    requires forall k :: b <= k < c ==> IsDigit(line[k])
    requires d == c || (line[c] == '.' && forall k :: c + 1 <= k < d ==> IsDigit(line[k]))
    ensures NumeralSplit(line[a..d], c - a)
  {
    var numeral := line[a..d];
    assert numeral[0] == line[a];
    assert IsDigit(line[b]);
    SliceOfSlice(line, a, d, b - a, c - a);
    DigitsSlice(line, b, c);
    if c < d {
      SliceOfSlice(line, a, d, c - a + 1, d - a);
      DigitsSlice(line, c + 1, d);
    }
  }

  /**
   * `parse_file_tag`: the numeral after `#EXTINF:` and any blanks, then an
   * optional comma, blanks, and the rest of the line as the description
   * (so `#EXTINF:10abc` gives `10` and `abc`). Without a digit, `match`
   * gives `nil` and the parser fails.
   */
  function ParseFileTag(line: string): (r: Option<(string, string)>)
    ensures r.Some? <==> (StartsWith(line, "#EXTINF:") &&
      var a := SkipBlanks(line, 8);
      var b := if a < |line| && line[a] == '-' then a + 1 else a;
      b < |line| && IsDigit(line[b]))
    ensures r.Some? ==> IsNumeral(r.value.0)
    ensures r.Some? ==> |r.value.1| <= |line| && r.value.1 == line[|line| - |r.value.1|..]
    ensures r.Some? ==> r.value.1 == [] || !IsBlank(r.value.1[0])
  {
    match FileTagSpans(line)
    case None => None
    case Some((a, d, f)) =>
      SpansHoldNumeral(line);
      assert f < |line| ==> line[f..][0] == line[f];
      Some((line[a..d], line[f..]))
  }

  /** An `#EXTINF` line written as numeral, comma, description parses back to both. */
  lemma FileTagRoundTrip(numeral: string, description: string)
    requires IsNumeral(numeral)
    requires description == [] || !IsBlank(description[0])
    ensures ParseFileTag("#EXTINF:" + numeral + "," + description) == Some((numeral, description))
  {
    var line := "#EXTINF:" + numeral + "," + description;
    var n := |numeral|;
    RoundTripSpans(numeral, description);
    assert line[8..8 + n] == numeral;
    assert line[9 + n..] == description;
    ParseFileTagOfSpans(line, 8, 8 + n, 9 + n, numeral, description);
  }

  /** The parsed pair is the text between the spans. */
  lemma ParseFileTagOfSpans(line: string, a: nat, d: nat, f: nat, numeral: string, description: string)
    requires FileTagSpans(line) == Some((a, d, f))
    requires a <= d <= f <= |line| && line[a..d] == numeral && line[f..] == description
    ensures ParseFileTag(line) == Some((numeral, description))
  {
  }

  lemma RoundTripSpans(numeral: string, description: string)
    requires IsNumeral(numeral)
    requires description == [] || !IsBlank(description[0])
    ensures FileTagSpans("#EXTINF:" + numeral + "," + description) == Some((8, 8 + |numeral|, 9 + |numeral|))
  {
    var line := "#EXTINF:" + numeral + "," + description;
    var n := |numeral|;
    assert StartsWith(line, "#EXTINF:");
    assert forall k :: 0 <= k < n ==> line[8 + k] == numeral[k];
    assert line[8 + n] == ',';
    assert |line| == 9 + n + |description|;
    assert 9 + n < |line| ==> line[9 + n] == description[0];
    SpansOfLine(numeral, line);
  }

  /** The spans of a line that holds `numeral` from position 8 on, followed by a comma and no blank. */
  lemma SpansOfLine(numeral: string, line: string)
    requires IsNumeral(numeral)
    requires StartsWith(line, "#EXTINF:")
    requires |line| > 8 + |numeral| && line[8 + |numeral|] == ','
    requires forall k :: 0 <= k < |numeral| ==> line[8 + k] == numeral[k]
    requires 9 + |numeral| == |line| || !IsBlank(line[9 + |numeral|])
    ensures FileTagSpans(line) == Some((8, 8 + |numeral|, 9 + |numeral|))
  {
    var n := |numeral|;
    var c0 :| 0 < c0 <= n && NumeralSplit(numeral, c0);
    var b0 := if numeral[0] == '-' then 1 else 0;
    assert line[8] == numeral[0];
    assert !IsBlank(line[8]) by {
      DigitAt(numeral[b0..c0], 0);
      assert numeral[b0..c0][0] == numeral[b0];
    }
    SkipNoBlanks(line, 8);
    var c := NumeralDigits(numeral, line, b0, c0);
    assert (if c < |line| && line[c] == '.' then DigitRunEnd(line, c + 1) else c) == 8 + n by {
      if c0 < n {
        NumeralFraction(numeral, line, c0);
      }
    }
    SkipNoBlanks(line, 9 + n);
    SpansAt(line, n, 8 + b0, c);
  }

  /** `[ \t]*` matches nothing at `i` when no blank is there. */
  lemma SkipNoBlanks(s: string, i: nat)
    requires i <= |s| && (i == |s| || !IsBlank(s[i]))
    ensures SkipBlanks(s, i) == i
  {
  }

  /** The spans of an `#EXTINF` line whose numeral starts at 8 and ends right before a comma at `8 + n`. */
  lemma SpansAt(line: string, n: nat, b: nat, c: nat)
    requires StartsWith(line, "#EXTINF:")
    requires |line| > 8 + n && line[8 + n] == ','
    requires SkipBlanks(line, 8) == 8
    requires b == if line[8] == '-' then 9 else 8
    requires b < c && c == DigitRunEnd(line, b)
    requires (if c < |line| && line[c] == '.' then DigitRunEnd(line, c + 1) else c) == 8 + n
    requires SkipBlanks(line, 9 + n) == 9 + n
    ensures FileTagSpans(line) == Some((8, 8 + n, 9 + n))
  {
  }

  /** The digit run of the integer part ends where the numeral's split says. */
  lemma NumeralDigits(numeral: string, line: string, b0: nat, c0: nat) returns (c: nat)
    requires b0 < c0 <= |numeral| && NumeralSplit(numeral, c0)
    requires b0 == if numeral[0] == '-' then 1 else 0
    requires |line| > 8 + |numeral| && line[8 + |numeral|] == ','
    requires forall k :: 0 <= k < |numeral| ==> line[8 + k] == numeral[k]
    ensures c == 8 + c0 && c == DigitRunEnd(line, 8 + b0)
  {
    forall k | b0 <= k < c0 ensures IsDigit(numeral[k]) {
      assert numeral[b0..c0][k - b0] == numeral[k];
      DigitAt(numeral[b0..c0], k - b0);
    }
    assert !IsDigit(line[8 + c0]);
    forall k | 8 + b0 <= k < 8 + c0 ensures IsDigit(line[k]) {
      assert line[k] == numeral[k - 8];
    }
    DigitRunFrom(line, 8 + b0, 8 + c0);
    c := 8 + c0;
  }

  /** After the point, the digit run reaches the end of the numeral. */
  lemma NumeralFraction(numeral: string, line: string, c0: nat)
    requires 0 < c0 < |numeral| && NumeralSplit(numeral, c0)
    requires |line| > 8 + |numeral| && line[8 + |numeral|] == ','
    requires forall k :: 0 <= k < |numeral| ==> line[8 + k] == numeral[k]
    ensures numeral[c0] == '.' && DigitRunEnd(line, 9 + c0) == 8 + |numeral|
  {
    var n := |numeral|;
    forall k | c0 + 1 <= k < n ensures IsDigit(numeral[k]) {
      assert numeral[c0 + 1..][k - c0 - 1] == numeral[k];
      DigitAt(numeral[c0 + 1..], k - c0 - 1);
    }
    forall k | 9 + c0 <= k < 8 + n ensures IsDigit(line[k]) {
      assert line[k] == numeral[k - 8];
    }
    DigitRunFrom(line, 9 + c0, 8 + n);
  }

  lemma SliceOfSlice(s: string, i: nat, j: nat, k: nat, l: nat)
    requires i <= j <= |s| && k <= l <= j - i
    ensures s[i..j][k..l] == s[i + k..i + l]
  {
    forall m | 0 <= m < l - k ensures s[i..j][k..l][m] == s[i + k..i + l][m] {
    }
  }

  lemma DigitsSlice(s: string, i: nat, j: nat)
    requires i <= j <= |s|
    requires forall k :: i <= k < j ==> IsDigit(s[k])
    ensures AllDecimal(s[i..j])
  {
    assert forall k :: 0 <= k < j - i ==> s[i..j][k] == s[i + k];
  }

  lemma DigitAt(s: string, k: nat)
    requires AllDecimal(s) && k < |s|
    ensures IsDigit(s[k])
  {
  }

  lemma DigitRunFrom(s: string, i: nat, j: nat)
    requires i <= j < |s| && !IsDigit(s[j])
    requires forall k :: i <= k < j ==> IsDigit(s[k])
    ensures DigitRunEnd(s, i) == j
    decreases j - i
  {
    if i < j {
      DigitRunFrom(s, i + 1, j);
    }
  }

  /** `String#to_f` of a numeral: its sign times its integer part plus its fraction. */
  function NumeralValue(s: string): real
    requires IsNumeral(s)
  {
    var neg := s[0] == '-';
    var b := if neg then 1 else 0;
    var c := DigitRunEnd(s, b);
    var whole := DigitsValue(s[b..c], 10);
    var fraction := if c < |s| then s[c + 1..] else "";
    assert AllDigits(s[b..c], 10) by {
      assert forall k :: 0 <= k < c - b ==> IsDigit(s[b..c][k]);
    }
    var magnitude := whole as real + FractionValue(fraction);
    if neg then -magnitude else magnitude
  }

  /** The value of the digits after a decimal point. */
  function FractionValue(s: string): (r: real)
    ensures 0.0 <= r <= 1.0
  {
    if s == [] || !IsDigit(s[0]) then 0.0
    else ((s[0] as int - '0' as int) as real + FractionValue(s[1..])) / 10.0
  }

  /** `parse_stream_tag` fails unless the line starts with `#EXT-X-STREAM-INF:`. */
  function ParseStreamTag(line: string): (r: Option<seq<(string, string)>>)
    ensures r.Some? <==> StartsWith(line, "#EXT-X-STREAM-INF:")
  {
    if StartsWith(line, "#EXT-X-STREAM-INF:") then Some(ScanAttributes(line[18..], 0)) else None
  }

  /** The class `[A-Z-]`. */
  predicate IsKeyChar(c: char) {
    'A' <= c <= 'Z' || c == '-'
  }

  predicate IsKey(s: string) {
    s != [] && forall k :: 0 <= k < |s| ==> IsKeyChar(s[k])
  }

  /** The end of the run of key characters starting at `i`. */
  function KeyRunEnd(s: string, i: nat): (r: nat)
    requires i <= |s|
    ensures i <= r <= |s| && (r == |s| || !IsKeyChar(s[r]))
    ensures forall k :: i <= k < r ==> IsKeyChar(s[k])
    decreases |s| - i
  {
    if i < |s| && IsKeyChar(s[i]) then KeyRunEnd(s, i + 1) else i
  }

  /** The end of the run of `\s` characters starting at `i`. */
  function SkipSpace(s: string, i: nat): (r: nat)
    requires i <= |s|
    ensures i <= r <= |s| && (r == |s| || !IsRegexSpace(s[r]))
    ensures forall k :: i <= k < r ==> IsRegexSpace(s[k])
    decreases |s| - i
  {
    if i < |s| && IsRegexSpace(s[i]) then SkipSpace(s, i + 1) else i
  }

  /** No character of `t` is `c`. */
  predicate NoChar(t: string, c: char) {
    forall k :: 0 <= k < |t| ==> t[k] != c
  }

  /** `\s*=\s*`: one `=` with only white space around it. */
  predicate IsSeparator(t: string) {
    exists m :: 0 <= m < |t| && t[m] == '=' && AllRegexSpace(t[..m]) && AllRegexSpace(t[m + 1..])
  }

  /** The first alternative of the value group, `"[^"]*"`. */
  predicate QuotedValue(v: string) {
    |v| >= 2 && v[0] == '"' && v[|v| - 1] == '"' && NoChar(v[1..|v| - 1], '"')
  }

  /**
   * The second alternative, `[^,]*`, as it is taken for the span
   * `s[a..b]`: it runs to the next comma or the end, does not start with
   * white space, and is only taken at a `"` when no closing `"` follows.
   */
  predicate UnquotedValueAt(s: string, a: int, b: int) {
    && 0 <= a <= b <= |s|
    && NoChar(s[a..b], ',')
    && (b == |s| || s[b] == ',')
    && (a < |s| ==> !IsRegexSpace(s[a]))
    && (a < |s| && s[a] == '"' ==> NoChar(s[a + 1..], '"'))
  }

  /** `key`, a separator and `value` lie in order from `i` to `end`, and the value is one of the two alternatives. */
  predicate AttributeMatch(s: string, i: nat, key: string, value: string, end: nat) {
    && end <= |s| && i + |key| < end - |value|
    && s[i..i + |key|] == key && s[end - |value|..end] == value
    && IsSeparator(s[i + |key|..end - |value|])
    && (QuotedValue(value) || UnquotedValueAt(s, end - |value|, end))
  }

  /**
   * One match of `([A-Z-]+)\s*=\s*("[^"]*"|[^,]*)` starting exactly at
   * `i`: the key, the value as matched (quotes kept) and where the match
   * ends. Backtracking never helps: a shorter key is followed by a key
   * character, which is neither `\s` nor `=`; and at the value the second
   * alternative always matches, so the greedy `\s*` is never given back.
   */
  function AttributeAt(s: string, i: nat): (r: Option<(string, string, nat)>)
    requires i < |s|
    ensures r.Some? ==> i < r.value.2 <= |s| && IsKey(r.value.0) && StartsWith(s[i..], r.value.0)
    ensures r.Some? ==> AttributeMatch(s, i, r.value.0, r.value.1, r.value.2)
  {
    if !IsKeyChar(s[i]) then None
    else
      var e := KeyRunEnd(s, i);
      var w := SkipSpace(s, e);
      if w == |s| || s[w] != '=' then None
      else
        var v := SkipSpace(s, w + 1);
        var end := ValueEnd(s, v);
        AttributeMatchAt(s, i, e, w, v);
        Some((s[i..e], s[v..end], end))
  }

  /** Where the value group starting at `v` ends: after the closing quote of a quoted value, else at the next comma. */
  function ValueEnd(s: string, v: nat): (end: nat)
    requires v <= |s|
    ensures v <= end <= |s|
  {
    var q := if v < |s| && s[v] == '"' then IndexOf(s, '"', v + 1) else |s|;
    if q < |s| then q + 1 else IndexOf(s, ',', v)
  }

  /** The value group from a position past the white space is one of the two alternatives. */
  lemma ValueEndFacts(s: string, v: nat)
    requires v <= |s| && (v < |s| ==> !IsRegexSpace(s[v]))
    ensures QuotedValue(s[v..ValueEnd(s, v)]) || UnquotedValueAt(s, v, ValueEnd(s, v))
  {
    if v < |s| && s[v] == '"' && IndexOf(s, '"', v + 1) < |s| {
      QuotedValueEnd(s, v);
    } else {
      UnquotedValueEnd(s, v);
    }
  }

  /** At a `"` with a closing `"` after it, the value is the quoted string up to that quote. */
  lemma QuotedValueEnd(s: string, v: nat)
    requires v < |s| && s[v] == '"' && IndexOf(s, '"', v + 1) < |s|
    ensures QuotedValue(s[v..ValueEnd(s, v)])
  {
    var q := IndexOf(s, '"', v + 1);
    assert ValueEnd(s, v) == q + 1;
    QuotedSpan(s, v, ValueEnd(s, v));
  }

  /** Two quotes with none between them enclose a quoted value. */
  lemma QuotedSpan(s: string, v: nat, end: nat)
    requires v + 1 < end <= |s| && s[v] == '"' && s[end - 1] == '"'
    requires forall k :: v < k < end - 1 ==> s[k] != '"'
    ensures QuotedValue(s[v..end])
  {
    var t := s[v..end];
    var mid := t[1..|t| - 1];
    assert forall k :: 0 <= k < |mid| ==> mid[k] == s[v + 1 + k];
  }

  /** Anywhere else, the value runs to the next comma or the end. */
  lemma UnquotedValueEnd(s: string, v: nat)
    requires v <= |s| && (v < |s| ==> !IsRegexSpace(s[v]))
    requires !(v < |s| && s[v] == '"' && IndexOf(s, '"', v + 1) < |s|)
    ensures UnquotedValueAt(s, v, ValueEnd(s, v))
  {
    var end := IndexOf(s, ',', v);
    assert ValueEnd(s, v) == end;
    var run := s[v..end];
    assert forall k :: 0 <= k < |run| ==> run[k] == s[v + k];
    if v < |s| && s[v] == '"' {
      var after := s[v + 1..];
      assert forall k :: 0 <= k < |after| ==> after[k] == s[v + 1 + k];
    }
  }

  lemma AttributeMatchAt(s: string, i: nat, e: nat, w: nat, v: nat)
    requires i < |s| && IsKeyChar(s[i]) && e == KeyRunEnd(s, i) && w == SkipSpace(s, e)
    requires w < |s| && s[w] == '=' && v == SkipSpace(s, w + 1)
    ensures i < ValueEnd(s, v) && IsKey(s[i..e]) && StartsWith(s[i..], s[i..e])
    ensures AttributeMatch(s, i, s[i..e], s[v..ValueEnd(s, v)], ValueEnd(s, v))
  {
    assert s[i..][..e - i] == s[i..e];
    SeparatorBetween(s, e, w, v);
    ValueEndFacts(s, v);
    AttributeMatchOfSpans(s, i, e, v, ValueEnd(s, v));
  }

  /** A key span, a separator span and a value span, side by side, make a match. */
  lemma AttributeMatchOfSpans(s: string, i: nat, e: nat, v: nat, end: nat)
    requires i < e < v <= end <= |s|
    requires IsSeparator(s[e..v])
    requires QuotedValue(s[v..end]) || UnquotedValueAt(s, v, end)
    ensures AttributeMatch(s, i, s[i..e], s[v..end], end)
  {
    var key, value := s[i..e], s[v..end];
    assert i + |key| == e && end - |value| == v;
  }

  /** White space, `=`, white space: a separator. */
  lemma SeparatorBetween(s: string, e: nat, w: nat, v: nat)
    requires e <= w < v <= |s| && s[w] == '='
    requires forall k :: e <= k < w ==> IsRegexSpace(s[k])
    requires forall k :: w < k < v ==> IsRegexSpace(s[k])
    ensures IsSeparator(s[e..v])
  {
    var t := s[e..v];
    assert t[w - e] == '=';
    assert t[..w - e] == s[e..w];
    assert t[w - e + 1..] == s[w + 1..v];
  }

  /**
   * `String#scan` with the attribute pattern: every leftmost match, each
   * search resuming where the previous match ended.
   */
  function ScanAttributes(s: string, i: nat): (r: seq<(string, string)>)
    requires i <= |s|
    ensures forall k :: 0 <= k < |r| ==> IsKey(r[k].0)
    decreases |s| - i
  {
    if i == |s| then []
    else
      match AttributeAt(s, i)
      case None => ScanAttributes(s, i + 1)
      case Some((key, value, end)) => [(key, value)] + ScanAttributes(s, end)
  }

  /**
   * A value the writer of an attribute list can give: quoted (commas
   * allowed inside), or bare without commas or quotes and not starting
   * with white space.
   */
  predicate PlainAttributeValue(v: string) {
    QuotedValue(v) || (NoChar(v, ',') && NoChar(v, '"') && (v != [] ==> !IsRegexSpace(v[0])))
  }

  predicate WellFormedAttributes(pairs: seq<(string, string)>) {
    forall k :: 0 <= k < |pairs| ==> IsKey(pairs[k].0) && PlainAttributeValue(pairs[k].1)
  }

  /** `KEY=VALUE` pairs joined by commas, the attribute list of a stream line. */
  function AttributeList(pairs: seq<(string, string)>): string {
    if pairs == [] then ""
    else pairs[0].0 + "=" + pairs[0].1 + (if |pairs| == 1 then "" else "," + AttributeList(pairs[1..]))
  }

  /** `parse_stream_tag` gives back every key and value of a well-formed attribute list, in order. */
  lemma StreamTagRoundTrip(pairs: seq<(string, string)>)
    requires WellFormedAttributes(pairs)
    ensures ParseStreamTag("#EXT-X-STREAM-INF:" + AttributeList(pairs)) == Some(pairs)
  {
    var line := "#EXT-X-STREAM-INF:" + AttributeList(pairs);
    assert line[..18] == "#EXT-X-STREAM-INF:";
    assert line[18..] == AttributeList(pairs);
    assert pairs[0..] == pairs;
    ScanAttributesOfList(line[18..], 0, pairs, 0);
  }

  lemma {:induction false} ScanAttributesOfList(s: string, i: nat, pairs: seq<(string, string)>, j: nat)
    requires j <= |pairs| && i <= |s| && s[i..] == AttributeList(pairs[j..]) && WellFormedAttributes(pairs)
    ensures ScanAttributes(s, i) == pairs[j..]
    decreases |pairs| - j
  {
    if j == |pairs| {
      assert |s[i..]| == 0;
    } else {
      SuffixCons(pairs, j);
      var rest := if j + 1 == |pairs| then "" else "," + AttributeList(pairs[j + 1..]);
      var n := PairScan(s, i, pairs[j].0, pairs[j].1, rest);
      if j + 1 < |pairs| {
        ScanAttributesOfList(s, n + 1, pairs, j + 1);
      }
    }
  }

  /** `key=value` is scanned first; then come the end, or a comma and the rest. */
  lemma PairScan(s: string, i: nat, key: string, value: string, rest: string) returns (n: nat)
    requires i <= |s| && s[i..] == key + "=" + value + rest
    requires IsKey(key) && PlainAttributeValue(value) && (rest == [] || rest[0] == ',')
    ensures n <= |s| && ScanAttributes(s, i) == [(key, value)] + ScanAttributes(s, n)
    ensures rest == [] ==> n == |s| && ScanAttributes(s, n) == []
    ensures rest != [] ==> n < |s| && ScanAttributes(s, n) == ScanAttributes(s, n + 1) && s[n + 1..] == rest[1..]
  {
    AttributeAtOfPair(s, i, key, value, rest);
    n := i + |key| + 1 + |value|;
    ScanMatchStep(s, i, key, value, n);
    if rest != [] {
      RestOfList(s, i, n, key + "=" + value, rest);
      ScanSkipStep(s, n);
    }
  }

  /** A match at `i` is the first pair scanned, and the scan resumes where it ends. */
  lemma ScanMatchStep(s: string, i: nat, key: string, value: string, end: nat)
    requires i < |s| && AttributeAt(s, i) == Some((key, value, end))
    ensures end <= |s| && ScanAttributes(s, i) == [(key, value)] + ScanAttributes(s, end)
  {
  }

  /** No match starts at a comma, so the scan moves past it. */
  lemma ScanSkipStep(s: string, n: nat)
    requires n < |s| && s[n] == ','
    ensures ScanAttributes(s, n) == ScanAttributes(s, n + 1)
  {
  }

  /** After the first pair come a comma and the rest of the list. */
  lemma RestOfList(s: string, i: nat, n: nat, first: string, rest: string)
    requires i <= |s| && s[i..] == first + rest && n == i + |first| && rest != [] && rest[0] == ','
    ensures n < |s| && s[n] == ',' && s[n + 1..] == rest[1..]
  {
    assert s[n] == s[i..][n - i];
    assert s[n + 1..] == s[i..][n + 1 - i..];
  }

  /** The match at the start of `key=value` followed by nothing or a comma. */
  lemma AttributeAtOfPair(s: string, i: nat, key: string, value: string, rest: string)
    requires i <= |s| && s[i..] == key + "=" + value + rest
    requires IsKey(key) && PlainAttributeValue(value) && (rest == [] || rest[0] == ',')
    ensures i < |s|
    ensures AttributeAt(s, i) == Some((key, value, i + |key| + 1 + |value|))
  {
    PairLayout(s, i, key, value, rest);
    AttributeAtOfLayout(s, i, key, value);
  }

  /** Where the key, the `=`, the value and the comma of `key=value` + `rest` lie in `s`. */
  lemma PairLayout(s: string, i: nat, key: string, value: string, rest: string)
    requires i <= |s| && s[i..] == key + "=" + value + rest
    requires rest == [] || rest[0] == ','
    ensures i + |key| + 1 + |value| <= |s|
    ensures s[i..i + |key|] == key && s[i + |key|] == '='
    ensures s[i + |key| + 1..i + |key| + 1 + |value|] == value
    ensures i + |key| + 1 + |value| == |s| || s[i + |key| + 1 + |value|] == ','
  {
    var e := i + |key|;
    var n := e + 1 + |value|;
    MiddleOfConcat(key, "=" + value, rest);
    assert s[i..] == key + ("=" + value) + rest;
    SliceOfSuffix(s, i, 0, |key|);
    assert s[e] == s[i..][|key|];
    MiddleOfConcat(key + "=", value, rest);
    SliceOfSuffix(s, i, |key| + 1, |key| + 1 + |value|);
    if n < |s| {
      assert s[n] == s[i..][n - i];
    }
  }

  lemma AttributeAtOfLayout(s: string, i: nat, key: string, value: string)
    requires i + |key| + 1 + |value| <= |s| && IsKey(key) && PlainAttributeValue(value)
    requires s[i..i + |key|] == key && s[i + |key|] == '='
    requires s[i + |key| + 1..i + |key| + 1 + |value|] == value
    requires i + |key| + 1 + |value| == |s| || s[i + |key| + 1 + |value|] == ','
    ensures AttributeAt(s, i) == Some((key, value, i + |key| + 1 + |value|))
  {
    var e := i + |key|;
    var v := e + 1;
    KeyRunAt(s, i, key);
    assert SkipSpace(s, e) == e;
    ValueEndOfPlain(s, v, value);
    AttributeAtUnfold(s, i, e, v, i + |key| + 1 + |value|, key, value);
  }

  /** A key followed by `=` is the whole run of key characters. */
  lemma KeyRunAt(s: string, i: nat, key: string)
    requires i + |key| < |s| && IsKey(key) && s[i..i + |key|] == key && s[i + |key|] == '='
    ensures IsKeyChar(s[i]) && KeyRunEnd(s, i) == i + |key|
  {
    var e := i + |key|;
    assert s[i] == s[i..e][0];
    assert forall k :: i <= k < e ==> s[k] == s[i..e][k - i];
  }

  /** Where the key run, the `=` and the value end fall, `AttributeAt` reads them off. */
  lemma AttributeAtUnfold(s: string, i: nat, e: nat, v: nat, end: nat, key: string, value: string)
    requires i < e < |s| && IsKeyChar(s[i]) && KeyRunEnd(s, i) == e && SkipSpace(s, e) == e && s[e] == '='
    requires v <= |s| && SkipSpace(s, e + 1) == v && ValueEnd(s, v) == end
    requires s[i..e] == key && s[v..end] == value
    ensures AttributeAt(s, i) == Some((key, value, end))
  {
  }

  /** A well-formed value followed by nothing or a comma is matched whole. */
  lemma ValueEndOfPlain(s: string, v: nat, value: string)
    requires v + |value| <= |s| && s[v..v + |value|] == value && PlainAttributeValue(value)
    requires v + |value| == |s| || s[v + |value|] == ','
    ensures SkipSpace(s, v) == v && ValueEnd(s, v) == v + |value|
  {
    var n := v + |value|;
    assert forall k :: v <= k < n ==> s[k] == value[k - v];
    if QuotedValue(value) {
      assert IndexOf(s, '"', v + 1) == n - 1 by {
        assert forall k :: v + 1 <= k < n - 1 ==> s[k] == value[1..|value| - 1][k - v - 1];
      }
    } else {
      assert IndexOf(s, ',', v) == n;
    }
  }

  /** `v = $1 if v =~ /^"(.*)"$/`: drops one pair of enclosing double quotes. */
  function StripQuotes(v: string): (r: string)
    ensures |v| >= 2 && v[0] == '"' && v[|v| - 1] == '"' ==> v == "\"" + r + "\""
    ensures !(|v| >= 2 && v[0] == '"' && v[|v| - 1] == '"') ==> r == v
  {
    if |v| >= 2 && v[0] == '"' && v[|v| - 1] == '"' then v[1..|v| - 1] else v
  }

  function Downcase(s: string): (r: string)
    ensures |r| == |s|
  {
    seq(|s|, k requires 0 <= k < |s| => LowerChar(s[k]))
  }

  /** One character of `downcase`: `A`-`Z` become `a`-`z`, anything else stays. */
  function LowerChar(c: char): char {
    if 'A' <= c <= 'Z' then (c as int - 'A' as int + 'a' as int) as char else c
  }

  /** Two key characters that downcase alike are the same. */
  lemma LowerKeyChar(c1: char, c2: char)
    requires IsKeyChar(c1) && IsKeyChar(c2) && LowerChar(c1) == LowerChar(c2)
    ensures c1 == c2
  {
  }

  /** `String#sub('-', '_')`: replaces the first `-` only. */
  function SubFirstDash(s: string): (r: string)
    ensures |r| == |s|
  {
    var p := IndexOf(s, '-', 0);
    if p == |s| then s else s[..p] + "_" + s[p + 1..]
  }

  /** `k.to_s.downcase.sub('-', '_')`: the attribute name as a setter name. */
  function AttributeName(key: string): string {
    SubFirstDash(Downcase(key))
  }

  /** The four setters of `M3Uzi::Stream` the reader means to call. */
  const StreamAttributeNames: seq<string> := ["bandwidth", "program_id", "codecs", "resolution"]

  /** `stream.send("#{name}=", v)` for one of the four setters. */
  function SetStreamAttribute(s: VariantStream, name: string, v: string): VariantStream {
    if name == "bandwidth" then s.(bandwidth := Some(v))
    else if name == "program_id" then s.(programId := Some(v))
    else if name == "codecs" then s.(codecs := Some(v))
    else if name == "resolution" then s.(resolution := Some(v))
    else s
  }

  /**
   * The reader's attribute loop as intended: a pair whose name is one of
   * the four setters assigns its value, quotes stripped. Folding over the
   * pairs in order leaves every field with the value of the last pair of
   * its key, which is what `to_h` followed by the loop does.
   */
  function AssignAttributes(s: VariantStream, pairs: seq<(string, string)>): VariantStream
    decreases |pairs|
  {
    if pairs == [] then s
    else
      var name := AttributeName(pairs[0].0);
      var s' := if name in StreamAttributeNames then SetStreamAttribute(s, name, StripQuotes(pairs[0].1)) else s;
      AssignAttributes(s', pairs[1..])
  }

  /** The value of the last pair with this key, which is the one `to_h` keeps. */
  function LastValue(pairs: seq<(string, string)>, key: string): (r: Option<string>)
    ensures r.Some? ==> exists k :: 0 <= k < |pairs| && pairs[k] == (key, r.value) &&
                                    forall j :: k < j < |pairs| ==> pairs[j].0 != key
    ensures r.None? ==> forall k :: 0 <= k < |pairs| ==> pairs[k].0 != key
    decreases |pairs|
  {
    if pairs == [] then None
    else
      var rest := LastValue(pairs[1..], key);
      assert forall k :: 1 <= k < |pairs| ==> pairs[k] == pairs[1..][k - 1];
      if rest.Some? then
        ghost var k :| 0 <= k < |pairs[1..]| && pairs[1..][k] == (key, rest.value) &&
                       forall j :: k < j < |pairs[1..]| ==> pairs[1..][j].0 != key;
        assert pairs[k + 1] == (key, rest.value);
        assert forall j :: k + 1 < j < |pairs| ==> pairs[j].0 != key;
        rest
      else if pairs[0].0 == key then Some(pairs[0].1)
      else None
  }

  /** Different attribute keys give different setter names: `downcase` and the first-dash substitution lose nothing on `[A-Z-]+`. */
  lemma AttributeNameInjective(k1: string, k2: string)
    requires IsKey(k1) && IsKey(k2)
    requires AttributeName(k1) == AttributeName(k2)
    ensures k1 == k2
  {
    var d1, d2 := Downcase(k1), Downcase(k2);
    DowncaseKey(k1);
    DowncaseKey(k2);
    SubFirstDashFacts(d1);
    SubFirstDashFacts(d2);
    FirstUnderscore(d1);
    FirstUnderscore(d2);
    var p := IndexOf(d1, '-', 0);
    assert p == IndexOf(d2, '-', 0);
    forall k | 0 <= k < |k1| ensures k1[k] == k2[k] {
      DowncaseKeyChar(k1, k2, k);
    }
  }

  /** `sub` puts `_` where the first `-` was and changes nothing else. */
  lemma SubFirstDashFacts(d: string)
    ensures var p := IndexOf(d, '-', 0); var r := SubFirstDash(d);
      (forall k :: 0 <= k < |d| && k != p ==> r[k] == d[k]) && (p < |d| ==> r[p] == '_')
  {
    var p := IndexOf(d, '-', 0);
    if p < |d| {
      var r := d[..p] + "_" + d[p + 1..];
      assert SubFirstDash(d) == r;
      forall k | 0 <= k < |d| && k != p ensures r[k] == d[k] {
        if k < p {
          assert r[k] == d[..p][k];
        } else {
          assert r[k] == d[p + 1..][k - p - 1];
        }
      }
      assert r[p] == '_';
    }
  }

  /** Without `_` in the input, the first `_` of the result marks the first `-`. */
  lemma FirstUnderscore(d: string)
    requires forall k :: 0 <= k < |d| ==> d[k] != '_'
    ensures IndexOf(SubFirstDash(d), '_', 0) == IndexOf(d, '-', 0)
  {
    SubFirstDashFacts(d);
  }

  /** A downcased key has no `_`, and its `-` are where the key has them. */
  lemma DowncaseKey(key: string)
    requires IsKey(key)
    ensures forall k :: 0 <= k < |key| ==> Downcase(key)[k] != '_' && (Downcase(key)[k] == '-' <==> key[k] == '-')
  {
  }

  /** Downcasing loses nothing on key characters. */
  lemma DowncaseKeyChar(k1: string, k2: string, k: int)
    requires IsKey(k1) && IsKey(k2) && 0 <= k < |k1| == |k2|
    requires AttributeName(k1) == AttributeName(k2)
    requires IndexOf(Downcase(k1), '-', 0) == IndexOf(Downcase(k2), '-', 0)
    ensures k1[k] == k2[k]
  {
    var d1, d2 := Downcase(k1), Downcase(k2);
    if k == IndexOf(d1, '-', 0) {
      DowncaseKey(k1);
      DowncaseKey(k2);
      assert d1[k] == '-' && d2[k] == '-';
    } else {
      SubFirstDashFacts(d1);
      SubFirstDashFacts(d2);
      assert d1[k] == d2[k];
      assert d1[k] == LowerChar(k1[k]) && d2[k] == LowerChar(k2[k]);
      LowerKeyChar(k1[k], k2[k]);
    }
  }

  lemma BandwidthName()
    ensures IsKey("BANDWIDTH") && AttributeName("BANDWIDTH") == "bandwidth"
  {
    var d := Downcase("BANDWIDTH");
    assert d == "bandwidth";
    assert IndexOf(d, '-', 0) == |d|;
  }

  lemma ProgramIdName()
    ensures IsKey("PROGRAM-ID") && AttributeName("PROGRAM-ID") == "program_id"
  {
    var d := Downcase("PROGRAM-ID");
    assert d == "program-id";
    assert IndexOf(d, '-', 0) == 7;
  }

  lemma CodecsName()
    ensures IsKey("CODECS") && AttributeName("CODECS") == "codecs"
  {
    var d := Downcase("CODECS");
    assert d == "codecs";
    assert IndexOf(d, '-', 0) == |d|;
  }

  lemma ResolutionName()
    ensures IsKey("RESOLUTION") && AttributeName("RESOLUTION") == "resolution"
  {
    var d := Downcase("RESOLUTION");
    assert d == "resolution";
    assert IndexOf(d, '-', 0) == |d|;
  }

  /** Of the attribute keys `[A-Z-]+` can produce, exactly these name the four setters. */
  lemma AttributeNameOfKey(key: string)
    requires IsKey(key)
    ensures AttributeName(key) == "bandwidth" <==> key == "BANDWIDTH"
    ensures AttributeName(key) == "program_id" <==> key == "PROGRAM-ID"
    ensures AttributeName(key) == "codecs" <==> key == "CODECS"
    ensures AttributeName(key) == "resolution" <==> key == "RESOLUTION"
  {
    BandwidthName();
    SameSetterSameKey(key, "BANDWIDTH");
    ProgramIdName();
    SameSetterSameKey(key, "PROGRAM-ID");
    CodecsName();
    SameSetterSameKey(key, "CODECS");
    ResolutionName();
    SameSetterSameKey(key, "RESOLUTION");
  }

  lemma SameSetterSameKey(key: string, raw: string)
    requires IsKey(key) && IsKey(raw)
    ensures AttributeName(key) == AttributeName(raw) <==> key == raw
  {
    if AttributeName(key) == AttributeName(raw) {
      AttributeNameInjective(key, raw);
    }
  }

  /**
   * With the intended whitelist, each of the four fields ends up holding
   * the last value given for its attribute, quotes stripped, and keeps its
   * old value when the attribute is absent.
   */
  lemma {:induction false} AssignAttributesLastWins(s: VariantStream, pairs: seq<(string, string)>)
    requires forall k :: 0 <= k < |pairs| ==> IsKey(pairs[k].0)
    ensures var r := AssignAttributes(s, pairs);
      && r.path == s.path
      && r.bandwidth == (if LastValue(pairs, "BANDWIDTH").Some? then Some(StripQuotes(LastValue(pairs, "BANDWIDTH").value)) else s.bandwidth)
      && r.programId == (if LastValue(pairs, "PROGRAM-ID").Some? then Some(StripQuotes(LastValue(pairs, "PROGRAM-ID").value)) else s.programId)
      && r.codecs == (if LastValue(pairs, "CODECS").Some? then Some(StripQuotes(LastValue(pairs, "CODECS").value)) else s.codecs)
      && r.resolution == (if LastValue(pairs, "RESOLUTION").Some? then Some(StripQuotes(LastValue(pairs, "RESOLUTION").value)) else s.resolution)
    decreases |pairs|
  {
    if pairs != [] {
      AttributeNameOfKey(pairs[0].0);
      var name := AttributeName(pairs[0].0);
      var s' := if name in StreamAttributeNames then SetStreamAttribute(s, name, StripQuotes(pairs[0].1)) else s;
      AssignAttributesLastWins(s', pairs[1..]);
    }
  }

  /** A Ruby hash key or array element: a String or a Symbol, never equal to each other. */
  datatype RubyName = Str(chars: string) | Sym(symbolName: string)

  /** `[:bandwidth, :program_id, :codecs, :resolution]`: the whitelist as written, of Symbols. */
  const StreamAttributeSymbols: seq<RubyName> := [Sym("bandwidth"), Sym("program_id"), Sym("codecs"), Sym("resolution")]

  /**
   * The reader's attribute loop as written: the name is a String and the
   * whitelist holds Symbols, so `include?` is false for every pair and the
   * loop always reaches `next`.
   */
  function AssignAttributesAsWritten(s: VariantStream, pairs: seq<(string, string)>): VariantStream
    decreases |pairs|
  {
    if pairs == [] then s
    else
      var name := Str(AttributeName(pairs[0].0));
      var s' := if name in StreamAttributeSymbols then SetStreamAttribute(s, name.chars, StripQuotes(pairs[0].1)) else s;
      AssignAttributesAsWritten(s', pairs[1..])
  }

  /** As written, no attribute of any `#EXT-X-STREAM-INF` line ever reaches the stream. */
  lemma {:induction false} AsWrittenAssignsNothing(s: VariantStream, pairs: seq<(string, string)>)
    ensures AssignAttributesAsWritten(s, pairs) == s
    decreases |pairs|
  {
    if pairs != [] {
      AsWrittenAssignsNothing(s, pairs[1..]);
    }
  }

  lemma ScanOneAttribute(s: string)
    requires s == "BANDWIDTH=1280000"
    ensures ScanAttributes(s, 0) == [("BANDWIDTH", "1280000")]
  {
    var e := KeyRunEnd(s, 0);
    assert forall k :: 0 <= k < 9 ==> IsKeyChar(s[k]);
    assert !IsKeyChar(s[9]);
    assert e == 9;
    assert SkipSpace(s, 9) == 9;
    assert SkipSpace(s, 10) == 10;
    assert IndexOf(s, ',', 10) == 17;
    assert s[0..9] == "BANDWIDTH" && s[10..17] == "1280000";
    assert AttributeAt(s, 0) == Some(("BANDWIDTH", "1280000", 17));
  }

  /** `#EXT-X-STREAM-INF:BANDWIDTH=1280000` read as written leaves the bandwidth `nil`; as intended it is "1280000". */
  lemma BandwidthIsDropped()
    ensures var pairs := ParseStreamTag("#EXT-X-STREAM-INF:BANDWIDTH=1280000");
      && pairs == Some([("BANDWIDTH", "1280000")])
      && AssignAttributesAsWritten(NewStream(None, None), pairs.value).bandwidth == None
      && AssignAttributes(NewStream(None, None), pairs.value).bandwidth == Some("1280000")
  {
    BandwidthLine();
    AsWrittenAssignsNothing(NewStream(None, None), [("BANDWIDTH", "1280000")]);
    BandwidthAssigned();
  }

  lemma BandwidthLine()
    ensures ParseStreamTag("#EXT-X-STREAM-INF:BANDWIDTH=1280000") == Some([("BANDWIDTH", "1280000")])
  {
    var line := "#EXT-X-STREAM-INF:BANDWIDTH=1280000";
    assert StartsWith(line, "#EXT-X-STREAM-INF:");
    assert line[18..] == "BANDWIDTH=1280000";
    ScanOneAttribute(line[18..]);
  }

  lemma BandwidthAssigned()
    ensures AssignAttributes(NewStream(None, None), [("BANDWIDTH", "1280000")]).bandwidth == Some("1280000")
  {
    var pairs := [("BANDWIDTH", "1280000")];
    BandwidthName();
    assert StripQuotes("1280000") == "1280000";
    assert pairs[1..] == [];
  }

  /**
   * `path =~ /^\S+?:\/\/\S+?$/` (lib/m3uzi.rb:37): Ruby's `^` and `$`
   * anchor at line breaks, and `\S` never matches one, so the test holds
   * when some whole line of `s` matches.
   */
  predicate IsAbsoluteUri(s: string) {
    exists a, b :: 0 <= a <= b <= |s| && LineStart(s, a) && LineEnd(s, b) && UriLine(s[a..b])
  }

  /** Where `^` matches: the start of the string or just after a line feed. */
  predicate LineStart(s: string, a: int) {
    a == 0 || (1 <= a <= |s| && s[a - 1] == '\n')
  }

  /** Where `$` matches: the end of the string or just before a line feed. */
  predicate LineEnd(s: string, b: int) {
    b == |s| || (0 <= b < |s| && s[b] == '\n')
  }

  /** A line `\S+?:\/\/\S+?` matches: no white space, and `://` with at least one character on either side. */
  predicate UriLine(s: string) {
    && (forall k :: 0 <= k < |s| ==> !IsRegexSpace(s[k]))
    && exists k :: 1 <= k && k + 3 < |s| && SeparatorAt(s, k)
  }

  predicate SeparatorAt(s: string, k: int) {
    0 <= k && k + 3 <= |s| && s[k..k + 3] == "://"
  }

  /** For a single line, the test is whether that line matches. */
  lemma SingleLineAbsolute(s: string)
    requires '\n' !in s
    ensures IsAbsoluteUri(s) <==> UriLine(s)
  {
    if UriLine(s) {
      assert s[0..|s|] == s;
    }
    if IsAbsoluteUri(s) {
      var a, b :| 0 <= a <= b <= |s| && LineStart(s, a) && LineEnd(s, b) && UriLine(s[a..b]);
      assert a == 0 && b == |s|;
      assert s[a..b] == s;
    }
  }

  /** A matching line anywhere after the first makes the whole string count as absolute. */
  lemma LaterLineAbsolute(first: string, line: string)
    requires UriLine(line)
    ensures IsAbsoluteUri(first + "\n" + line)
  {
    var s := first + "\n" + line;
    var a := |first| + 1;
    assert s[a - 1] == '\n';
    assert s[a..|s|] == line;
  }

  /** `"a b\nhttp://h/x.m3u8"` counts as absolute, though its first line holds a space. */
  lemma AbsoluteOnSecondLine()
    ensures IsAbsoluteUri("a b" + "\n" + "http://h/x.m3u8")
    ensures !UriLine("a b")
  {
    var line := "http://h/x.m3u8";
    assert SeparatorAt(line, 4) by {
      assert line[4..7] == "://";
    }
    assert UriLine(line);
    LaterLineAbsolute("a b", line);
    assert IsRegexSpace("a b"[1]);
  }

  /** `scheme://rest` with no white space in either part is absolute. */
  lemma SchemeUriIsAbsolute(scheme: string, rest: string)
    requires scheme != [] && rest != []
    requires forall k :: 0 <= k < |scheme| ==> !IsRegexSpace(scheme[k])
    requires forall k :: 0 <= k < |rest| ==> !IsRegexSpace(rest[k])
    ensures IsAbsoluteUri(scheme + "://" + rest)
  {
    var s := scheme + "://" + rest;
    assert s[|scheme|..|scheme| + 3] == "://";
    assert SeparatorAt(s, |scheme|);
    assert forall k :: 0 <= k < |s| ==> s[k] == (if k < |scheme| then scheme[k] else if k < |scheme| + 3 then "://"[k - |scheme|] else rest[k - |scheme| - 3]);
    assert UriLine(s);
    assert s[0..|s|] == s;
  }

  /**
   * `M3Uzi.format_path`: an absolute reference is kept, any other is
   * resolved against the playlist's own location by `join` (`URI.join`).
   */
  function FormatPath(source: string, path: string, join: (string, string) -> string): (r: string)
    ensures IsAbsoluteUri(path) ==> r == path
    ensures !IsAbsoluteUri(path) ==> r == join(source, path)
  {
    if IsAbsoluteUri(path) then path else join(source, path)
  }
}
