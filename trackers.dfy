/**
 * The two trackers the writer runs over the files of a playlist
 * (lib/m3uzi.rb:142-204) and the IV formatter (:355-357). The key
 * tracker emits an `#EXT-X-KEY` line when the key URL or the IV in force
 * changes. The byte-range tracker emits an `#EXT-X-BYTERANGE` line for
 * every ranged file.
 */
module Trackers {
  import opened Wrappers
  import opened Text
  import opened Items

  /**
   * `@encryption_key_url`, `@encryption_iv` and `@encryption_sequence`. The
   * tracked URL is `nil` or a string; it never holds `:unset`.
   */
  datatype KeyState = KeyState(url: Option<string>, iv: Option<string>, sequence: nat)

  /** `reset_encryption_key_history`. */
  const KeyReset := KeyState(None, None, 0)

  /** Whether a file's key URL is `==` to the tracked one (`nil == nil`, or equal strings). */
  predicate SameKey(k: KeyUrl, tracked: Option<string>) {
    match k
    case Unset => false
    case NoKey => tracked.None?
    case Url(u) => tracked == Some(u)
  }

  /** The tracked form of a key URL that is not `:unset`. */
  function Tracked(k: KeyUrl): Option<string>
    requires !k.Unset?
  {
    match k
    case NoKey => None
    case Url(u) => Some(u)
  }

  /** `gsub('"', '%22')`. */
  function EscapeQuotes(s: string): (r: string)
    ensures '"' !in r
    ensures forall c :: c in s && c != '"' ==> c in r
    ensures forall c :: c in r ==> c in s || c in "%22"
  {
    if s == [] then []
    else (if s[0] == '"' then "%22" else [s[0]]) + EscapeQuotes(s[1..])
  }

  /** Each character is replaced on its own: a quote by `%22`, anything else by itself. */
  lemma EscapeQuotesOfChar(c: char)
    ensures EscapeQuotes([c]) == if c == '"' then "%22" else [c]
  {
  }

  /** The replacement works piece by piece, so a string's escaping is that of its characters in order. */
  lemma {:induction false} EscapeQuotesOfAppend(a: string, b: string)
    ensures EscapeQuotes(a + b) == EscapeQuotes(a) + EscapeQuotes(b)
  {
    if a == [] {
      assert a + b == b;
    } else {
      assert (a + b)[0] == a[0] && (a + b)[1..] == a[1..] + b;
      EscapeQuotesOfAppend(a[1..], b);
      ConcatAssoc(if a[0] == '"' then "%22" else [a[0]], EscapeQuotes(a[1..]), EscapeQuotes(b));
    }
  }

  /** `gsub(/[\r\n]/, '')`. */
  function RemoveLineBreaks(s: string): (r: string)
    ensures forall c :: c in r <==> c in s && c != '\r' && c != '\n'
  {
    if s == [] then []
    else (if s[0] == '\r' || s[0] == '\n' then [] else [s[0]]) + RemoveLineBreaks(s[1..])
  }

  /** The key URL as it is quoted in the key line: quotes escaped, line breaks removed, stripped. */
  function CleanUri(u: string): string {
    Strip(RemoveLineBreaks(EscapeQuotes(u)))
  }

  /** The quoted URI holds no quote, CR or LF, so it cannot end the attribute or the line early. */
  lemma CleanUriIsSafe(u: string)
    ensures '"' !in CleanUri(u) && '\r' !in CleanUri(u) && '\n' !in CleanUri(u)
    ensures forall c :: c in u && c != '"' && c != '\r' && c != '\n' && !IsStripSpace(c) ==> c in CleanUri(u)
  {
    StripChars(RemoveLineBreaks(EscapeQuotes(u)));
  }

  /** The `#EXT-X-KEY` line for the tracked URL and IV (:165-173). */
  function KeyLine(url: Option<string>, iv: Option<string>): string {
    if url.None? then "#EXT-X-KEY:METHOD=NONE" else AesKeyLine(CleanUri(url.value), iv)
  }

  /** The attributes `METHOD`, `URI` and (when set) `IV`, joined by commas. */
  function AesKeyLine(uri: string, iv: Option<string>): string {
    var attrs := ["METHOD=AES-128", "URI=\"" + uri + "\""] + (if iv.Some? then ["IV=" + iv.value] else []);
    "#EXT-X-KEY:" + Join(attrs, ",")
  }

  /** `Array#join(sep)`. */
  function Join(parts: seq<string>, sep: string): string {
    if parts == [] then ""
    else if |parts| == 1 then parts[0]
    else parts[0] + sep + Join(parts[1..], sep)
  }

  lemma JoinTwo(a: string, b: string, sep: string)
    ensures Join([a, b], sep) == a + sep + b
  {
    assert [a, b][1..] == [b];
  }

  lemma JoinThree(a: string, b: string, c: string, sep: string)
    ensures Join([a, b, c], sep) == a + sep + b + sep + c
  {
    assert [a, b, c][1..] == [b, c];
    JoinTwo(b, c, sep);
  }

  /**
   * A key line says `METHOD=NONE` exactly when no key URL is tracked;
   * otherwise it names AES-128, quotes a URI free of quotes and line
   * breaks, and ends with `,IV=` and the IV exactly when one is tracked.
   */
  lemma KeyLineShape(url: Option<string>, iv: Option<string>)
    ensures url.None? <==> KeyLine(url, iv) == "#EXT-X-KEY:METHOD=NONE"
    ensures url.Some? ==> exists uri: string ::
      '"' !in uri && '\r' !in uri && '\n' !in uri &&
      KeyLine(url, iv) == "#EXT-X-KEY:METHOD=AES-128,URI=\"" + uri + "\"" + (if iv.Some? then ",IV=" + iv.value else "")
  {
    if url.Some? {
      var uri := CleanUri(url.value);
      CleanUriIsSafe(url.value);
      AesKeyLineText(uri, iv);
    }
  }

  lemma AesKeyLineText(uri: string, iv: Option<string>)
    ensures AesKeyLine(uri, iv) == "#EXT-X-KEY:METHOD=AES-128,URI=\"" + uri + "\"" + (if iv.Some? then ",IV=" + iv.value else "")
    ensures AesKeyLine(uri, iv) != "#EXT-X-KEY:METHOD=NONE"
  {
    var q := "URI=\"" + uri + "\"";
    var lit := "#EXT-X-KEY:METHOD=AES-128,URI=\"";
    var quoted := lit + uri + "\"";
    var head := "METHOD=AES-128" + ",";
    assert "#EXT-X-KEY:" + head + "URI=\"" == lit;
    ConcatAssoc("#EXT-X-KEY:", head, q);
    ConcatAssoc("#EXT-X-KEY:" + head, "URI=\"" + uri, "\"");
    ConcatAssoc("#EXT-X-KEY:" + head, "URI=\"", uri);
    assert "#EXT-X-KEY:" + ("METHOD=AES-128" + "," + q) == quoted;
    if iv.Some? {
      assert ["METHOD=AES-128", q] + ["IV=" + iv.value] == ["METHOD=AES-128", q, "IV=" + iv.value];
      JoinThree("METHOD=AES-128", q, "IV=" + iv.value, ",");
      assert "#EXT-X-KEY:" + ("METHOD=AES-128" + "," + q + "," + ("IV=" + iv.value)) == quoted + (",IV=" + iv.value);
    } else {
      assert ["METHOD=AES-128", q] + [] == ["METHOD=AES-128", q];
      JoinTwo("METHOD=AES-128", q, ",");
      assert quoted + "" == quoted;
    }
    assert AesKeyLine(uri, iv)[18] == 'A';
  }

  /**
   * `generate_encryption_key_line`: the new tracker state and the line to
   * emit, if any. A file whose URL is not `:unset` and differs from the
   * tracked one replaces it; while a URL is tracked, a file whose IV
   * differs replaces the IV; either change emits the line for the new
   * state. The counter advances on every call. (The default IV the source
   * computes first is never used.)
   */
  function KeyStep(st: KeyState, f: MediaFile): (KeyState, Option<string>) {
    var urlChanged := !f.encryptionKeyUrl.Unset? && !SameKey(f.encryptionKeyUrl, st.url);
    var url := if urlChanged then Tracked(f.encryptionKeyUrl) else st.url;
    var ivChanged := url.Some? && f.encryptionIv != st.iv;
    var iv := if ivChanged then f.encryptionIv else st.iv;
    (KeyState(url, iv, st.sequence + 1), if urlChanged || ivChanged then Some(KeyLine(url, iv)) else None)
  }

  /**
   * Every call advances the counter by one. An emitted line describes the
   * state after the call. A file whose URL is `:unset` keeps the tracked URL.
   */
  lemma KeyStepFacts(st: KeyState, f: MediaFile)
    ensures var (st', line) := KeyStep(st, f);
      st'.sequence == st.sequence + 1 &&
      (line.Some? ==> line.value == KeyLine(st'.url, st'.iv)) &&
      (f.encryptionKeyUrl.Unset? ==> st'.url == st.url) &&
      (!f.encryptionKeyUrl.Unset? ==> SameKey(f.encryptionKeyUrl, st'.url)) &&
      (line.None? <==> st'.url == st.url && st'.iv == st.iv)
  {
  }

  /** The same file passed twice in a row emits nothing the second time. */
  lemma KeyStepRepeatSilent(st: KeyState, f: MediaFile)
    ensures var st1 := KeyStep(st, f).0;
      KeyStep(st1, f).1 == None && KeyStep(st1, f).0 == st1.(sequence := st1.sequence + 1)
  {
  }

  /**
   * Right after a reset the tracked URL is `nil`, which is also what an
   * explicit "no encryption" file holds: such a first file emits nothing.
   */
  lemma FirstExplicitNoneSilent(f: MediaFile)
    requires f.encryptionKeyUrl.NoKey?
    ensures KeyStep(KeyReset, f) == (KeyState(None, None, 1), None)
  {
  }

  /** The key tracker run over a sequence of files: the final state and the lines emitted. */
  function KeyFold(st: KeyState, files: seq<MediaFile>): (r: (KeyState, seq<string>))
    ensures r.0.sequence == st.sequence + |files|
    ensures |r.1| <= |files|
    decreases |files|
  {
    if files == [] then (st, [])
    else
      var (st1, line) := KeyStep(st, files[0]);
      var (st2, lines) := KeyFold(st1, files[1..]);
      (st2, (if line.Some? then [line.value] else []) + lines)
  }

  /** Whether a written line is a key line. */
  predicate IsKeyLine(line: string) {
    StartsWith(line, "#EXT-X-KEY:")
  }

  /** The key lines among `lines`, in order. */
  function KeyLines(lines: seq<string>): (r: seq<string>)
    ensures |r| <= |lines|
    ensures forall k :: 0 <= k < |r| ==> IsKeyLine(r[k])
  {
    if lines == [] then []
    else (if IsKeyLine(lines[0]) then [lines[0]] else []) + KeyLines(lines[1..])
  }

  /** Picking the key lines commutes with concatenation. */
  lemma {:induction false} KeyLinesOfAppend(a: seq<string>, b: seq<string>)
    ensures KeyLines(a + b) == KeyLines(a) + KeyLines(b)
  {
    if a == [] {
      assert a + b == b;
    } else {
      assert (a + b)[0] == a[0] && (a + b)[1..] == a[1..] + b;
      KeyLinesOfAppend(a[1..], b);
      var first := if IsKeyLine(a[0]) then [a[0]] else [];
      ConcatAssoc(first, KeyLines(a[1..]), KeyLines(b));
    }
  }

  /** Every line the key tracker emits is a key line. */
  lemma KeyStepEmitsKeyLine(st: KeyState, f: MediaFile)
    ensures KeyStep(st, f).1.Some? ==> IsKeyLine(KeyStep(st, f).1.value)
  {
  }

  /** No byte-range line is a key line: they differ at the eighth character. */
  lemma RangeLineNotKeyLine(prev: Option<int>, f: MediaFile)
    ensures RangeStep(prev, f).RangeLine? && RangeStep(prev, f).line.Some? ==> !IsKeyLine(RangeStep(prev, f).line.value)
  {
    var step := RangeStep(prev, f);
    if step.RangeLine? && step.line.Some? {
      var head := "#EXT-X-BYTERANGE:";
      var offset := RangeOffset(prev, f);
      var tail := IntToDecimal(f.byterangeOffset.GetOr(0)) + (if offset.Some? then "@" + IntToDecimal(offset.value) else "");
      assert step.line.value == head + tail;
      assert step.line.value[7] == 'B';
    }
  }

  /**
   * Files that all carry the same key URL (not `:unset`) and IV emit at
   * most one key line, for the first of them.
   */
  lemma {:induction false} SharedKeyEmitsOnce(st: KeyState, files: seq<MediaFile>)
    requires files != [] && !files[0].encryptionKeyUrl.Unset?
    requires forall k :: 0 <= k < |files| ==>
      files[k].encryptionKeyUrl == files[0].encryptionKeyUrl && files[k].encryptionIv == files[0].encryptionIv
    ensures KeyFold(st, files).1 == (match KeyStep(st, files[0]).1 case Some(l) => [l] case None => [])
  {
    var st1 := KeyStep(st, files[0]).0;
    SettledKeySilent(st1, files[0], files[1..]);
  }

  /** Once the tracker holds a file's URL and (when a URL is set) its IV, files like it emit nothing. */
  lemma {:induction false} SettledKeySilent(st: KeyState, f: MediaFile, files: seq<MediaFile>)
    requires !f.encryptionKeyUrl.Unset? && SameKey(f.encryptionKeyUrl, st.url)
    requires st.url.Some? ==> st.iv == f.encryptionIv
    requires forall k :: 0 <= k < |files| ==>
      files[k].encryptionKeyUrl == f.encryptionKeyUrl && files[k].encryptionIv == f.encryptionIv
    ensures KeyFold(st, files).1 == []
    decreases |files|
  {
    if files != [] {
      var st1 := KeyStep(st, files[0]).0;
      assert KeyStep(st, files[0]).1 == None;
      assert st1.url == st.url && st1.iv == st.iv;
      SettledKeySilent(st1, f, files[1..]);
    }
  }

  /** `format_iv`: `0x` and the number in hexadecimal, padded with zeros to 32 digits. */
  function FormatIv(n: nat): string {
    "0x" + RightJustify(NatToString(n, 16), 32, '0')
  }

  /**
   * A formatted IV starts with `0x`, its hexadecimal digits read back as
   * the number, and it is 34 characters long for any 128-bit number.
   */
  lemma FormatIvRoundTrip(n: nat)
    ensures var s := FormatIv(n);
      s[..2] == "0x" && AllDigits(s[2..], 16) && DigitsValue(s[2..], 16) == n
    ensures n < Power(16, 32) ==> |FormatIv(n)| == 34
  {
    var t := NatToString(n, 16);
    var padded := RightJustify(t, 32, '0');
    assert AllDigits(padded, 16) && DigitsValue(padded, 16) == n by {
      NatToStringRoundTrip(n, 16);
      RightJustifyZeros(t, 32);
      LeadingZerosValue(|padded| - |t|, t, 16);
    }
    assert FormatIv(n)[..2] == "0x" && FormatIv(n)[2..] == padded;
    if n < Power(16, 32) {
      FormatIvLength(n);
    }
  }

  lemma FormatIvLength(n: nat)
    requires n < Power(16, 32)
    ensures |FormatIv(n)| == 34
  {
    NatToStringLength(n, 16, 32);
  }

  /** `@prev_byterange_endpoint` after a call, and the line emitted; or the call raises. */
  datatype RangeOutcome = RangeLine(line: Option<string>, endpoint: Option<int>) | RangeRaised

  /**
   * The offset written after `@`: the file's own offset when it has one
   * that differs from where the previous range ended, 0 when no range
   * precedes, and `nil` (continue where the previous range ended) otherwise.
   */
  function RangeOffset(prev: Option<int>, f: MediaFile): Option<int> {
    if f.byterangeOffset.Some? && f.byterangeOffset != prev then f.byterangeOffset
    else if prev.None? then Some(0)
    else None
  }

  /**
   * `generate_byterange_line`, as written. The line prints the file's
   * offset (`byterange_offset.to_i`, 0 for `nil`), not its length. When the
   * offset is `nil`, computing the new endpoint as `nil + byterange`
   * raises NoMethodError, so a file that continues the previous range
   * ends the write. A file without a range emits nothing and ends the chain.
   */
  function RangeStep(prev: Option<int>, f: MediaFile): RangeOutcome {
    if f.byterange.None? then RangeLine(None, None)
    else
      var offset := RangeOffset(prev, f);
      var line := "#EXT-X-BYTERANGE:" + IntToDecimal(f.byterangeOffset.GetOr(0)) +
        (if offset.Some? then "@" + IntToDecimal(offset.value) else "");
      if offset.None? then RangeRaised
      else RangeLine(Some(line), Some(offset.value + f.byterange.value))
  }

  /**
   * The tracker raises exactly for a ranged file that follows a ranged
   * file and gives no offset or the offset where that range ended.
   */
  lemma RangeRaisesIffContiguous(prev: Option<int>, f: MediaFile)
    ensures RangeStep(prev, f).RangeRaised? <==>
      f.byterange.Some? && prev.Some? && (f.byterangeOffset.None? || f.byterangeOffset == prev)
  {
  }

  /** A file without a byte range emits nothing and clears the chain. */
  lemma NoRangeClearsChain(prev: Option<int>, f: MediaFile)
    requires f.byterange.None?
    ensures RangeStep(prev, f) == RangeLine(None, None)
  {
  }

  /**
   * A ranged file with a fresh offset `o` emits `#EXT-X-BYTERANGE:o@o`,
   * and the chain then ends at `o` plus the length.
   */
  lemma FreshOffsetLine(prev: Option<int>, f: MediaFile, o: int, len: int)
    requires f.byterange == Some(len) && f.byterangeOffset == Some(o) && prev != Some(o)
    ensures RangeStep(prev, f) == RangeLine(Some("#EXT-X-BYTERANGE:" + IntToDecimal(o) + "@" + IntToDecimal(o)), Some(o + len))
  {
    var head := "#EXT-X-BYTERANGE:" + IntToDecimal(o);
    assert head + ("@" + IntToDecimal(o)) == head + "@" + IntToDecimal(o);
  }

  /** A ranged file without an offset that starts a chain emits `#EXT-X-BYTERANGE:0@0`. */
  lemma ChainStartLine(f: MediaFile, len: int)
    requires f.byterange == Some(len) && f.byterangeOffset.None?
    ensures RangeStep(None, f) == RangeLine(Some("#EXT-X-BYTERANGE:0@0"), Some(len))
  {
    assert IntToDecimal(0) == "0" by {
      assert NatToString(0, 10) == [Digits[0]];
    }
    assert "#EXT-X-BYTERANGE:" + "0" + ("@" + "0") == "#EXT-X-BYTERANGE:0@0";
  }

  /** Whenever a line is emitted, the offset after `@` reads back as where the new chain starts. */
  lemma RangeLineOffsetReadsBack(prev: Option<int>, f: MediaFile)
    requires RangeStep(prev, f).RangeLine? && RangeStep(prev, f).line.Some?
    ensures var o := RangeOffset(prev, f).value;
      var s := IntToDecimal(o);
      RangeStep(prev, f).line.value == "#EXT-X-BYTERANGE:" + IntToDecimal(f.byterangeOffset.GetOr(0)) + "@" + s &&
      s != [] && (if s[0] == '-' then AllDigits(s[1..], 10) else AllDigits(s, 10)) &&
      RangeStep(prev, f).endpoint == Some(DecimalValue(s) + f.byterange.value)
  {
    var o := RangeOffset(prev, f).value;
    var s := IntToDecimal(o);
    assert RangeStep(prev, f).line.value == "#EXT-X-BYTERANGE:" + IntToDecimal(f.byterangeOffset.GetOr(0)) + "@" + s by {
      var head := "#EXT-X-BYTERANGE:" + IntToDecimal(f.byterangeOffset.GetOr(0));
      assert RangeStep(prev, f).line.value == head + ("@" + s);
      ConcatAssoc(head, "@", s);
    }
    assert RangeStep(prev, f).endpoint == Some(o + f.byterange.value);
    IntToDecimalRoundTrip(o);
  }
}
