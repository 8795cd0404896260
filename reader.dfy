/**
 * What `M3Uzi.read` (lib/m3uzi.rb:35-80) builds from the lines of a
 * playlist, as a function of the lines. A line the parsers cannot match
 * (`match` giving `nil` and then `values_at`, `[1]` or `strip` being
 * called on `nil`) raises NoMethodError. The loop rescues only
 * ArgumentError, so the first such line ends the read with an exception.
 * Lines are decoded characters here, so the ArgumentError an invalid byte
 * sequence raises in `type` (rescued, skipping the line) does not arise.
 */
module Reader {
  import opened Wrappers
  import opened Text
  import opened Items
  import opened LineParser
  import opened Headers
  import opened Version

  /** The parts of the new playlist the loop changes. */
  datatype ReadState = ReadState(headers: seq<TagData>, items: seq<Item>, final: bool)

  /** A fresh playlist: no tags, no items, `final_media_file` true. */
  const Start := ReadState([], [], true)

  /** The playlist read, or the index of the line whose parsing raised. */
  datatype ReadResult = ReadOk(state: ReadState) | ReadAborted(line: nat)

  /**
   * The path of the media file or stream an `#EXTINF` or stream line
   * announces: the next line, stripped, and resolved against the
   * playlist's own location when that is remote. `None` after the last
   * line, where `lines[i+1]` is `nil` and `strip` raises.
   */
  function NextPath(source: string, lines: seq<string>, i: nat, local: bool,
                    join: (string, string) -> string): (r: Option<string>)
    ensures r.Some? <==> i + 1 < |lines|
    ensures r.Some? && local ==> r.value == Strip(lines[i + 1])
    ensures r.Some? && !local ==> r.value == FormatPath(source, Strip(lines[i + 1]), join)
  {
    if i + 1 >= |lines| then None
    else
      var p := Strip(lines[i + 1]);
      Some(if local then p else FormatPath(source, p, join))
  }

  /** The file the `:info` branch adds: its path, the numeral as a Float, and a non-empty description or `nil`. */
  function ReadFile(path: string, numeral: string, description: string): (f: MediaFile)
    requires IsNumeral(numeral)
    ensures HasFloatDuration(f) && f.duration.value.ToReal() == NumeralValue(numeral)
    ensures f.description.None? <==> description == []
    ensures f.description.Some? ==> f.description.value == description
    ensures f.encryptionKeyUrl.Unset? && f.byterange.None?
  {
    NewFile(None, None).(path := Some(path), duration := Some(FloatDur(NumeralValue(numeral))),
      description := if |description| > 0 then Some(description) else None)
  }

  /** The stream the `:stream` branch adds: its path and the attributes of the line. */
  function ReadStream(path: string, pairs: seq<(string, string)>): VariantStream {
    AssignAttributes(NewStream(None, None).(path := Some(path)), pairs)
  }

  /** One turn of the loop over line `i`: the new state, or `None` when the line raises. */
  function ReadLine(source: string, lines: seq<string>, i: nat, local: bool,
                    join: (string, string) -> string, st: ReadState): Option<ReadState>
    requires i < |lines|
  {
    var line := lines[i];
    match Classify(line)
    case TagLine =>
      (match ParseGeneralTag(line)
       case None => None
       case Some(t) => Some(st.(headers := Upsert(st.headers, t))))
    case Info =>
      (match ParseFileTag(line)
       case None => None
       case Some((numeral, description)) =>
         match NextPath(source, lines, i, local, join)
         case None => None
         case Some(p) => Some(st.(items := st.items + [FileItem(ReadFile(p, numeral, description))], final := false)))
    case StreamInf =>
      (match ParseStreamTag(line)
       case None => None
       case Some(pairs) =>
         match NextPath(source, lines, i, local, join)
         case None => None
         case Some(p) => Some(st.(items := st.items + [StreamItem(ReadStream(p, pairs))])))
    case Final => Some(st.(final := true))
    case _ => Some(st)
  }

  /** The loop from line `i` on. */
  function ReadFrom(source: string, lines: seq<string>, i: nat, local: bool,
                    join: (string, string) -> string, st: ReadState): ReadResult
    requires i <= |lines|
    decreases |lines| - i
  {
    if i == |lines| then ReadOk(st)
    else
      match ReadLine(source, lines, i, local, join, st)
      case None => ReadAborted(i)
      case Some(st1) => ReadFrom(source, lines, i + 1, local, join, st1)
  }

  /** `M3Uzi.read`: a path with a scheme is remote, anything else local. */
  function Read(source: string, lines: seq<string>, join: (string, string) -> string): ReadResult {
    ReadFrom(source, lines, 0, !IsAbsoluteUri(source), join, Start)
  }

  /**
   * A blank line, a comment (`#` not followed by `EXT`) and a line not
   * starting with `#` (a path already taken by the line before it) leave
   * the playlist as it is.
   */
  lemma SkippedLinesChangeNothing(source: string, lines: seq<string>, i: nat, local: bool,
                                  join: (string, string) -> string, st: ReadState)
    requires i < |lines|
    requires AllRegexSpace(lines[i]) || !StartsWith(lines[i], "#EXT")
    ensures ReadLine(source, lines, i, local, join, st) == Some(st)
  {
  }

  /** Every item of a read playlist is a file or a stream: tags go to the header tags only. */
  predicate FilesAndStreams(items: seq<Item>) {
    forall k :: 0 <= k < |items| ==> items[k].FileItem? || items[k].StreamItem?
  }

  /** Every file of a read playlist has a Float duration. */
  predicate FloatDurations(items: seq<Item>) {
    forall k :: 0 <= k < |items| && items[k].FileItem? ==> HasFloatDuration(items[k].file)
  }

  lemma {:induction false} ReadKeepsItemShape(source: string, lines: seq<string>, i: nat, local: bool,
                                              join: (string, string) -> string, st: ReadState)
    requires i <= |lines|
    requires FilesAndStreams(st.items) && FloatDurations(st.items)
    ensures var r := ReadFrom(source, lines, i, local, join, st);
      r.ReadOk? ==> FilesAndStreams(r.state.items) && FloatDurations(r.state.items)
    decreases |lines| - i
  {
    if i < |lines| && ReadLine(source, lines, i, local, join, st).Some? {
      var st1 := ReadLine(source, lines, i, local, join, st).value;
      ReadLineKeepsShape(source, lines, i, local, join, st);
      ReadFromStep(source, lines, i, local, join, st);
      ReadKeepsItemShape(source, lines, i + 1, local, join, st1);
    }
  }

  /** One line keeps every item a file with a Float duration or a stream. */
  lemma ReadLineKeepsShape(source: string, lines: seq<string>, i: nat, local: bool,
                           join: (string, string) -> string, st: ReadState)
    requires i < |lines| && ReadLine(source, lines, i, local, join, st).Some?
    requires FilesAndStreams(st.items) && FloatDurations(st.items)
    ensures var items := ReadLine(source, lines, i, local, join, st).value.items;
      FilesAndStreams(items) && FloatDurations(items)
  {
    var st1 := ReadLine(source, lines, i, local, join, st).value;
    ReadLineItems(source, lines, i, local, join, st);
    if st1.items != st.items {
      var it :| st1.items == st.items + [it] && (it.StreamItem? || (it.FileItem? && HasFloatDuration(it.file)));
      ShapeOfAppend(st.items, it);
    }
  }

  /** A line that parses hands its state to the rest of the loop. */
  lemma ReadFromStep(source: string, lines: seq<string>, i: nat, local: bool,
                     join: (string, string) -> string, st: ReadState)
    requires i < |lines| && ReadLine(source, lines, i, local, join, st).Some?
    ensures ReadFrom(source, lines, i, local, join, st) ==
      ReadFrom(source, lines, i + 1, local, join, ReadLine(source, lines, i, local, join, st).value)
  {
  }

  /** Appending a stream or a file with a Float duration keeps both shapes. */
  lemma ShapeOfAppend(items: seq<Item>, it: Item)
    requires FilesAndStreams(items) && FloatDurations(items)
    requires it.StreamItem? || (it.FileItem? && HasFloatDuration(it.file))
    ensures FilesAndStreams(items + [it]) && FloatDurations(items + [it])
  {
  }

  /** A line adds at most one item: a stream, or a file with a Float duration. */
  lemma ReadLineItems(source: string, lines: seq<string>, i: nat, local: bool,
                      join: (string, string) -> string, st: ReadState)
    requires i < |lines| && ReadLine(source, lines, i, local, join, st).Some?
    ensures var items := ReadLine(source, lines, i, local, join, st).value.items;
      items == st.items ||
      exists it :: items == st.items + [it] && (it.StreamItem? || (it.FileItem? && HasFloatDuration(it.file)))
  {
  }

  /**
   * A read playlist holds no Tag items, so the version rule for `MEDIA`
   * and `I-FRAMES-ONLY` tags never fires on it; and since every file read
   * has a Float duration, one valid file is enough for version 3.
   */
  lemma ReadPlaylistVersion(source: string, lines: seq<string>, join: (string, string) -> string, valid: Item -> bool)
    requires Read(source, lines, join).ReadOk?
    ensures var items := Read(source, lines, join).state.items;
      (forall k :: 0 <= k < |items| ==> !items[k].TagItem?) &&
      ((exists k :: 0 <= k < |items| && IsValidFile(valid, items[k])) ==> InferVersion(valid, items) >= 3)
  {
    ReadKeepsItemShape(source, lines, 0, !IsAbsoluteUri(source), join, Start);
    var items := Read(source, lines, join).state.items;
    if k :| 0 <= k < |items| && IsValidFile(valid, items[k]) {
      FloatFileNeedsVersion3(valid, items, k);
    }
  }

  /** Line `k` is of kind `kind`. */
  predicate KindAt(lines: seq<string>, k: int, kind: LineKind) {
    0 <= k < |lines| && Classify(lines[k]) == kind
  }

  /** Some `#EXT-X-ENDLIST` line lies at or after `lo`. */
  predicate EndListFrom(lines: seq<string>, lo: int) {
    exists k :: lo <= k < |lines| && KindAt(lines, k, Final)
  }

  /** Every `#EXTINF` line at or after `lo` is followed later by an `#EXT-X-ENDLIST` line. */
  predicate InfosClosedFrom(lines: seq<string>, lo: int) {
    forall k :: lo <= k < |lines| && KindAt(lines, k, Info) ==> EndListFrom(lines, k + 1)
  }

  /**
   * `final_media_file` after the loop: `#EXTINF` clears it and
   * `#EXT-X-ENDLIST` sets it, so it ends true exactly when it was true or
   * an end-list line comes, and no `#EXTINF` line lacks a later end-list line.
   */
  lemma {:induction false} ReadFinalFlag(source: string, lines: seq<string>, i: nat, local: bool,
                                         join: (string, string) -> string, st: ReadState)
    requires i <= |lines|
    requires ReadFrom(source, lines, i, local, join, st).ReadOk?
    ensures ReadFrom(source, lines, i, local, join, st).state.final <==>
      (st.final || EndListFrom(lines, i)) && InfosClosedFrom(lines, i)
    decreases |lines| - i
  {
    if i < |lines| {
      var st1 := ReadLine(source, lines, i, local, join, st).value;
      ReadFinalFlag(source, lines, i + 1, local, join, st1);
      ReadLineFinal(source, lines, i, local, join, st);
      FinalFlagScanStep(lines, i);
    }
  }

  /** One line moves the flag only if it is an `#EXTINF` line (false) or an end-list line (true). */
  lemma ReadLineFinal(source: string, lines: seq<string>, i: nat, local: bool,
                      join: (string, string) -> string, st: ReadState)
    requires i < |lines| && ReadLine(source, lines, i, local, join, st).Some?
    ensures ReadLine(source, lines, i, local, join, st).value.final ==
      match Classify(lines[i]) case Final => true case Info => false case _ => st.final
  {
  }

  /** Peeling line `i` off the two scans. */
  lemma FinalFlagScanStep(lines: seq<string>, i: nat)
    requires i < |lines|
    ensures EndListFrom(lines, i) <==> KindAt(lines, i, Final) || EndListFrom(lines, i + 1)
    ensures InfosClosedFrom(lines, i) <==>
      (KindAt(lines, i, Info) ==> EndListFrom(lines, i + 1)) && InfosClosedFrom(lines, i + 1)
  {
    if EndListFrom(lines, i) && !KindAt(lines, i, Final) {
      var k :| i <= k < |lines| && KindAt(lines, k, Final);
      assert i + 1 <= k;
    }
  }
}
