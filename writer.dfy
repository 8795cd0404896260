/**
 * What `write_to_io` (lib/m3uzi.rb:82-124) writes, as functions of the
 * playlist: the automatic header lines, the stored header tags, the
 * items with the key and byte-range lines the trackers put before each
 * file, and the end-of-list marker. Each line is given without its `\n`.
 */
module Writer {
  import opened Wrappers
  import opened Text
  import opened Items
  import opened Version
  import opened Trackers
  import opened Headers

  /** The symbols `:live`, `:event` and `:vod`. */
  datatype PlaylistType = Live | Event | Vod

  /** `@playlist_type.to_s.upcase`. */
  function TypeName(t: PlaylistType): string {
    match t
    case Live => "LIVE"
    case Event => "EVENT"
    case Vod => "VOD"
  }

  /** The part of a playlist's state the writer reads. */
  datatype Snapshot = Snapshot(
    headerTags: seq<TagData>,
    items: seq<Item>,
    playlistType: PlaylistType,
    finalMediaFile: bool,
    initialMediaSequence: int,
    removedFileCount: nat)

  /** All lines written, or the lines written before an exception ended the write. */
  datatype WriteOutcome = Written(lines: seq<string>) | Raised(partial: seq<string>)

  /** The tags the writer may add itself, in the order it considers them. */
  const AutoHeaderNames: seq<string> :=
    ["#EXTM3U", "#EXT-X-VERSION", "#EXT-X-PLAYLIST-TYPE", "#EXT-X-MEDIA-SEQUENCE", "#EXT-X-TARGETDURATION"]

  /** `Float#ceil`. */
  function Ceil(x: real): (n: int)
    ensures (n - 1) as real < x <= n as real
  {
    if x.Floor as real == x then x.Floor else x.Floor + 1
  }

  /** `f.duration.to_f`: 0.0 for a file without a duration. */
  function ToF(f: MediaFile): real {
    if f.duration.Some? then f.duration.value.ToReal() else 0.0
  }

  /** `Array#max` of the durations. */
  function MaxToF(files: seq<MediaFile>): (m: real)
    requires files != []
    ensures forall k :: 0 <= k < |files| ==> ToF(files[k]) <= m
    ensures exists k :: 0 <= k < |files| && ToF(files[k]) == m
  {
    if |files| == 1 then ToF(files[0])
    else
      var rest := MaxToF(files[1..]);
      assert forall k :: 1 <= k < |files| ==> files[k] == files[1..][k - 1];
      if ToF(files[0]) >= rest then ToF(files[0]) else rest
  }

  /** The `#EXT-X-TARGETDURATION` value: the longest valid file, rounded up, or 10 with no valid file. */
  function TargetDuration(valid: Item -> bool, items: seq<Item>): int {
    var files := ValidFiles(valid, items);
    if files == [] then 10 else Ceil(MaxToF(files))
  }

  /**
   * The target duration is the least integer no valid file's duration
   * exceeds (10 when there is no valid file).
   */
  lemma TargetDurationBounds(valid: Item -> bool, items: seq<Item>)
    ensures var files := ValidFiles(valid, items);
      var t := TargetDuration(valid, items);
      (files == [] ==> t == 10) &&
      (forall k :: 0 <= k < |files| ==> ToF(files[k]) <= t as real) &&
      (files != [] ==> exists k :: 0 <= k < |files| && (t - 1) as real < ToF(files[k]))
  {
    var files := ValidFiles(valid, items);
    if files != [] {
      var m := MaxToF(files);
      var k :| 0 <= k < |files| && ToF(files[k]) == m;
      assert (TargetDuration(valid, items) - 1) as real < ToF(files[k]);
    }
  }

  /**
   * One turn of the header loop (:88-102): the line written for `tag`, if
   * any. A tag already stored in the header tags is skipped; otherwise
   * the `if`/`elsif` chain decides, falling through to the file test for
   * a playlist type tag of a live playlist.
   */
  function AutoHeaderLine(tag: string, s: Snapshot, version: int, valid: Item -> bool): Option<string> {
    if Includes(s.headerTags, tag) then None
    else if tag == "#EXTM3U" then Some("#EXTM3U")
    else if tag == "#EXT-X-VERSION" then
      if version > 1 then Some("#EXT-X-VERSION:" + IntToDecimal(version)) else None
    else if tag == "#EXT-X-PLAYLIST-TYPE" && s.playlistType in {Event, Vod} then
      Some("#EXT-X-PLAYLIST-TYPE:" + TypeName(s.playlistType))
    else if FileCount(s.items) > 0 then
      if tag == "#EXT-X-MEDIA-SEQUENCE" && s.playlistType == Live then
        Some("#EXT-X-MEDIA-SEQUENCE:" + IntToDecimal(s.initialMediaSequence + s.removedFileCount))
      else if tag == "#EXT-X-TARGETDURATION" then
        Some("#EXT-X-TARGETDURATION:" + IntToDecimal(TargetDuration(valid, s.items)))
      else None
    else None
  }

  /** An optional line as zero or one lines. */
  function Lines(line: Option<string>): seq<string> {
    if line.Some? then [line.value] else []
  }

  /** The header loop over `tags`. */
  function AutoHeaders(tags: seq<string>, s: Snapshot, version: int, valid: Item -> bool): seq<string> {
    if tags == [] then []
    else Lines(AutoHeaderLine(tags[0], s, version, valid)) + AutoHeaders(tags[1..], s, version, valid)
  }

  /** Peeling the header loop's next tag off a suffix of the tag list. */
  lemma AutoHeadersStep(tags: seq<string>, n: nat, s: Snapshot, version: int, valid: Item -> bool)
    requires n < |tags|
    ensures AutoHeaders(tags[n..], s, version, valid) ==
      Lines(AutoHeaderLine(tags[n], s, version, valid)) + AutoHeaders(tags[n + 1..], s, version, valid)
  {
    assert tags[n..][1..] == tags[n + 1..];
  }

  /**
   * The automatic headers, each by its own condition and in the fixed
   * order: `#EXTM3U` always; the version when above 1; the playlist type
   * for event and VOD playlists; the media sequence (the initial one plus
   * the files evicted) for a live playlist with files; the target
   * duration for a playlist with files. A tag stored by the user
   * suppresses its automatic line.
   */
  lemma AutoHeadersInOrder(s: Snapshot, version: int, valid: Item -> bool)
    ensures AutoHeaders(AutoHeaderNames, s, version, valid) ==
      (if !Includes(s.headerTags, "#EXTM3U") then ["#EXTM3U"] else []) +
      (if !Includes(s.headerTags, "#EXT-X-VERSION") && version > 1
       then ["#EXT-X-VERSION:" + IntToDecimal(version)] else []) +
      (if !Includes(s.headerTags, "#EXT-X-PLAYLIST-TYPE") && s.playlistType != Live
       then ["#EXT-X-PLAYLIST-TYPE:" + TypeName(s.playlistType)] else []) +
      (if !Includes(s.headerTags, "#EXT-X-MEDIA-SEQUENCE") && s.playlistType == Live && FileCount(s.items) > 0
       then ["#EXT-X-MEDIA-SEQUENCE:" + IntToDecimal(s.initialMediaSequence + s.removedFileCount)] else []) +
      (if !Includes(s.headerTags, "#EXT-X-TARGETDURATION") && FileCount(s.items) > 0
       then ["#EXT-X-TARGETDURATION:" + IntToDecimal(TargetDuration(valid, s.items))] else [])
  {
    var v := version;
    AutoHeadersOfFive(AutoHeaderNames, s, v, valid);
    ExtM3uLine(s, v, valid);
    VersionLine(s, v, valid);
    PlaylistTypeLine(s, v, valid);
    MediaSequenceLine(s, v, valid);
    TargetDurationLine(s, v, valid);
  }

  /** The header loop over five names, one turn at a time. */
  lemma AutoHeadersOfFive(names: seq<string>, s: Snapshot, version: int, valid: Item -> bool)
    requires |names| == 5
    ensures AutoHeaders(names, s, version, valid) ==
      Lines(AutoHeaderLine(names[0], s, version, valid)) + Lines(AutoHeaderLine(names[1], s, version, valid)) +
      Lines(AutoHeaderLine(names[2], s, version, valid)) + Lines(AutoHeaderLine(names[3], s, version, valid)) +
      Lines(AutoHeaderLine(names[4], s, version, valid))
  {
    var l0 := Lines(AutoHeaderLine(names[0], s, version, valid));
    var l1 := Lines(AutoHeaderLine(names[1], s, version, valid));
    var l2 := Lines(AutoHeaderLine(names[2], s, version, valid));
    var l3 := Lines(AutoHeaderLine(names[3], s, version, valid));
    var l4 := Lines(AutoHeaderLine(names[4], s, version, valid));
    var a5 := AutoHeaders(names[5..], s, version, valid);
    assert names[5..] == [] && a5 == [];
    AutoHeadersStep(names, 4, s, version, valid);
    var a4 := AutoHeaders(names[4..], s, version, valid);
    assert a4 == l4 by {
      assert a4 == l4 + a5;
    }
    AutoHeadersStep(names, 3, s, version, valid);
    var a3 := AutoHeaders(names[3..], s, version, valid);
    assert a3 == l3 + l4;
    AutoHeadersStep(names, 2, s, version, valid);
    var a2 := AutoHeaders(names[2..], s, version, valid);
    assert a2 == l2 + l3 + l4 by {
      assert a2 == l2 + a3;
      ConcatAssoc(l2, l3, l4);
    }
    AutoHeadersStep(names, 1, s, version, valid);
    var a1 := AutoHeaders(names[1..], s, version, valid);
    assert a1 == l1 + l2 + l3 + l4 by {
      assert a1 == l1 + a2;
      ConcatAssoc(l1, l2 + l3, l4);
      ConcatAssoc(l1, l2, l3);
    }
    AutoHeadersStep(names, 0, s, version, valid);
    assert names[0..] == names;
    assert AutoHeaders(names, s, version, valid) == l0 + a1;
    ConcatAssoc(l0, l1 + l2 + l3, l4);
    ConcatAssoc(l0, l1 + l2, l3);
    ConcatAssoc(l0, l1, l2);
  }

  lemma ExtM3uLine(s: Snapshot, version: int, valid: Item -> bool)
    ensures Lines(AutoHeaderLine(AutoHeaderNames[0], s, version, valid)) ==
      if !Includes(s.headerTags, "#EXTM3U") then ["#EXTM3U"] else []
  {
  }

  lemma VersionLine(s: Snapshot, version: int, valid: Item -> bool)
    ensures Lines(AutoHeaderLine(AutoHeaderNames[1], s, version, valid)) ==
      if !Includes(s.headerTags, "#EXT-X-VERSION") && version > 1 then ["#EXT-X-VERSION:" + IntToDecimal(version)] else []
  {
    assert AutoHeaderNames[1] != "#EXTM3U";
  }

  lemma PlaylistTypeLine(s: Snapshot, version: int, valid: Item -> bool)
    ensures Lines(AutoHeaderLine(AutoHeaderNames[2], s, version, valid)) ==
      if !Includes(s.headerTags, "#EXT-X-PLAYLIST-TYPE") && s.playlistType != Live
      then ["#EXT-X-PLAYLIST-TYPE:" + TypeName(s.playlistType)] else []
  {
    var tag := AutoHeaderNames[2];
    assert tag != "#EXTM3U" && tag != "#EXT-X-VERSION";
    assert tag != "#EXT-X-MEDIA-SEQUENCE" && tag != "#EXT-X-TARGETDURATION";
  }

  lemma MediaSequenceLine(s: Snapshot, version: int, valid: Item -> bool)
    ensures Lines(AutoHeaderLine(AutoHeaderNames[3], s, version, valid)) ==
      if !Includes(s.headerTags, "#EXT-X-MEDIA-SEQUENCE") && s.playlistType == Live && FileCount(s.items) > 0
      then ["#EXT-X-MEDIA-SEQUENCE:" + IntToDecimal(s.initialMediaSequence + s.removedFileCount)] else []
  {
    var tag := AutoHeaderNames[3];
    assert tag != "#EXTM3U" && tag != "#EXT-X-VERSION" && tag != "#EXT-X-PLAYLIST-TYPE";
  }

  lemma TargetDurationLine(s: Snapshot, version: int, valid: Item -> bool)
    ensures Lines(AutoHeaderLine(AutoHeaderNames[4], s, version, valid)) ==
      if !Includes(s.headerTags, "#EXT-X-TARGETDURATION") && FileCount(s.items) > 0
      then ["#EXT-X-TARGETDURATION:" + IntToDecimal(TargetDuration(valid, s.items))] else []
  {
    var tag := AutoHeaderNames[4];
    assert tag != "#EXTM3U" && tag != "#EXT-X-VERSION" && tag != "#EXT-X-PLAYLIST-TYPE";
    assert tag != "#EXT-X-MEDIA-SEQUENCE";
  }

  /** The stored header tags the writer copies (:105-107). */
  function UserHeaders(valid: Item -> bool, format: Item -> string, tags: seq<TagData>): (r: seq<string>)
    ensures |r| <= |tags|
  {
    if tags == [] then []
    else
      (if valid(TagItem(tags[0])) then [format(TagItem(tags[0]))] else []) +
      UserHeaders(valid, format, tags[1..])
  }

  /** The header lines are the valid stored tags, formatted, in insertion order. */
  lemma {:induction false} UserHeadersFormatValidTags(valid: Item -> bool, format: Item -> string, tags: seq<TagData>)
    ensures UserHeaders(valid, format, tags) == FormatValid(valid, format, TagItems(tags))
  {
    if tags != [] {
      var items := TagItems(tags);
      assert items[0] == TagItem(tags[0]) && items[1..] == TagItems(tags[1..]);
      UserHeadersFormatValidTags(valid, format, tags[1..]);
    }
  }

  /** The stored tags as playlist items, in insertion order. */
  function TagItems(tags: seq<TagData>): (r: seq<Item>)
    ensures |r| == |tags| && forall k :: 0 <= k < |tags| ==> r[k] == TagItem(tags[k])
  {
    if tags == [] then [] else [TagItem(tags[0])] + TagItems(tags[1..])
  }

  /** The item loop's result: its lines, whether it raised, and the trackers' final state. */
  datatype BodyResult = BodyResult(lines: seq<string>, raised: bool, key: KeyState, endpoint: Option<int>)

  /**
   * The item loop (:109-121): invalid items are skipped; before a valid
   * file come its key line and byte-range line, if any; then the item's
   * own `format`. A byte-range step that raises ends the loop there.
   */
  function Body(valid: Item -> bool, format: Item -> string, items: seq<Item>,
                key: KeyState, endpoint: Option<int>): (r: BodyResult)
    decreases |items|
  {
    if items == [] then BodyResult([], false, key, endpoint)
    else
      var it := items[0];
      if !valid(it) then Body(valid, format, items[1..], key, endpoint)
      else if it.FileItem? then
        var (key1, keyLine) := KeyStep(key, it.file);
        match RangeStep(endpoint, it.file)
        case RangeRaised => BodyResult(Lines(keyLine), true, key1, endpoint)
        case RangeLine(rangeLine, endpoint1) =>
          var rest := Body(valid, format, items[1..], key1, endpoint1);
          rest.(lines := Lines(keyLine) + Lines(rangeLine) + [format(it)] + rest.lines)
      else
        var rest := Body(valid, format, items[1..], key, endpoint);
        rest.(lines := [format(it)] + rest.lines)
  }

  /** Whether the playlist ends with `#EXT-X-ENDLIST` (:123). */
  predicate EndsList(s: Snapshot) {
    FileCount(s.items) > 0 && (s.finalMediaFile || s.playlistType == Vod)
  }

  /** Everything before the items. */
  function Head(valid: Item -> bool, format: Item -> string, s: Snapshot): seq<string> {
    AutoHeaders(AutoHeaderNames, s, InferVersion(valid, s.items), valid) + UserHeaders(valid, format, s.headerTags)
  }

  /** The whole write, with both trackers reset and the version recomputed first. */
  function Write(valid: Item -> bool, format: Item -> string, s: Snapshot): WriteOutcome {
    var body := Body(valid, format, s.items, KeyReset, None);
    var lines := Head(valid, format, s) + body.lines;
    if body.raised then Raised(lines)
    else Written(lines + (if EndsList(s) then ["#EXT-X-ENDLIST"] else []))
  }

  /** Unless the user stored an `#EXTM3U` tag, every write starts with `#EXTM3U`. */
  lemma WriteStartsWithExtM3U(valid: Item -> bool, format: Item -> string, s: Snapshot)
    requires !Includes(s.headerTags, "#EXTM3U")
    ensures var out := Write(valid, format, s);
      var lines := if out.Written? then out.lines else out.partial;
      lines != [] && lines[0] == "#EXTM3U"
  {
    AutoHeadersInOrder(s, InferVersion(valid, s.items), valid);
  }

  /**
   * A completed write ends with `#EXT-X-ENDLIST` when the playlist has a
   * file and is final or VOD; otherwise nothing follows the items.
   */
  lemma EndListIsLast(valid: Item -> bool, format: Item -> string, s: Snapshot)
    requires Write(valid, format, s).Written?
    ensures var lines := Write(valid, format, s).lines;
      var before := Head(valid, format, s) + Body(valid, format, s.items, KeyReset, None).lines;
      (EndsList(s) ==> |lines| == |before| + 1 && lines[|lines| - 1] == "#EXT-X-ENDLIST") &&
      (!EndsList(s) ==> lines == before)
  {
    var before := Head(valid, format, s) + Body(valid, format, s.items, KeyReset, None).lines;
    assert before + [] == before;
  }

  /**
   * When no byte-range step raises and no valid item formats as a key
   * line itself, the key lines among the item loop's lines are exactly
   * those the key tracker emits over the valid files, and the loop leaves
   * the tracker where that run ends.
   */
  lemma {:induction false} BodyKeyLines(valid: Item -> bool, format: Item -> string, items: seq<Item>,
                                        key: KeyState, endpoint: Option<int>)
    requires !Body(valid, format, items, key, endpoint).raised
    requires forall k :: 0 <= k < |items| && valid(items[k]) ==> !IsKeyLine(format(items[k]))
    ensures Body(valid, format, items, key, endpoint).key == KeyFold(key, ValidFiles(valid, items)).0
    ensures KeyLines(Body(valid, format, items, key, endpoint).lines) == KeyFold(key, ValidFiles(valid, items)).1
    decreases |items|
  {
    if items != [] {
      var it := items[0];
      assert forall k :: 0 <= k < |items[1..]| ==> items[1..][k] == items[k + 1];
      if valid(it) && it.FileItem? {
        var key1 := KeyStep(key, it.file).0;
        var endpoint1 := RangeStep(endpoint, it.file).endpoint;
        BodyKeyLines(valid, format, items[1..], key1, endpoint1);
        FileKeyLines(valid, format, items, key, endpoint);
      } else {
        BodyKeyLines(valid, format, items[1..], key, endpoint);
        if valid(it) {
          KeyLinesOfAppend([format(it)], Body(valid, format, items[1..], key, endpoint).lines);
          assert [format(it)][1..] == [];
        }
      }
    }
  }

  /** The key lines of one valid file's turn: its key line, if any, then those of the rest. */
  lemma FileKeyLines(valid: Item -> bool, format: Item -> string, items: seq<Item>,
                     key: KeyState, endpoint: Option<int>)
    requires items != [] && valid(items[0]) && items[0].FileItem? && !IsKeyLine(format(items[0]))
    requires !Body(valid, format, items, key, endpoint).raised
    ensures var (key1, keyLine) := KeyStep(key, items[0].file);
      var rest := Body(valid, format, items[1..], key1, RangeStep(endpoint, items[0].file).endpoint);
      !rest.raised && Body(valid, format, items, key, endpoint).key == rest.key &&
      KeyLines(Body(valid, format, items, key, endpoint).lines) == Lines(keyLine) + KeyLines(rest.lines) &&
      KeyFold(key, ValidFiles(valid, items)).0 == KeyFold(key1, ValidFiles(valid, items[1..])).0 &&
      KeyFold(key, ValidFiles(valid, items)).1 == Lines(keyLine) + KeyFold(key1, ValidFiles(valid, items[1..])).1
  {
    var it := items[0];
    var (key1, keyLine) := KeyStep(key, it.file);
    var step := RangeStep(endpoint, it.file);
    var rest := Body(valid, format, items[1..], key1, step.endpoint);
    assert ValidFiles(valid, items) == [it.file] + ValidFiles(valid, items[1..]);
    assert ([it.file] + ValidFiles(valid, items[1..]))[1..] == ValidFiles(valid, items[1..]);
    KeyStepEmitsKeyLine(key, it.file);
    RangeLineNotKeyLine(endpoint, it.file);
    var head := Lines(keyLine) + Lines(step.line) + [format(it)];
    KeyLinesOfAppend(head, rest.lines);
    KeyLinesOfAppend(Lines(keyLine) + Lines(step.line), [format(it)]);
    KeyLinesOfAppend(Lines(keyLine), Lines(step.line));
    assert [format(it)][1..] == [];
    if keyLine.Some? {
      assert [keyLine.value][1..] == [];
    }
    if step.line.Some? {
      assert [step.line.value][1..] == [];
    }
  }

  /** Without a valid ranged file the item loop never raises. */
  lemma {:induction false} NoRangesNeverRaise(valid: Item -> bool, format: Item -> string, items: seq<Item>,
                                              key: KeyState, endpoint: Option<int>)
    requires forall k :: 0 <= k < |items| && IsValidFile(valid, items[k]) ==> items[k].file.byterange.None?
    ensures !Body(valid, format, items, key, endpoint).raised
    decreases |items|
  {
    if items != [] {
      assert forall k :: 1 <= k < |items| ==> items[k] == items[1..][k - 1];
      var it := items[0];
      if valid(it) && it.FileItem? {
        var key1 := KeyStep(key, it.file).0;
        NoRangesNeverRaise(valid, format, items[1..], key1, None);
      } else {
        NoRangesNeverRaise(valid, format, items[1..], key, endpoint);
      }
    }
  }

  /** Formats every valid item, in order. */
  function FormatValid(valid: Item -> bool, format: Item -> string, items: seq<Item>): seq<string> {
    if items == [] then []
    else (if valid(items[0]) then [format(items[0])] else []) + FormatValid(valid, format, items[1..])
  }

  /**
   * A playlist without valid files (a master playlist of streams, say)
   * gets no key or byte-range lines: its body is each valid item formatted.
   */
  lemma {:induction false} BodyWithoutFiles(valid: Item -> bool, format: Item -> string, items: seq<Item>,
                                            key: KeyState, endpoint: Option<int>)
    requires forall k :: 0 <= k < |items| ==> !IsValidFile(valid, items[k])
    ensures Body(valid, format, items, key, endpoint) == BodyResult(FormatValid(valid, format, items), false, key, endpoint)
    decreases |items|
  {
    if items != [] {
      assert forall k :: 1 <= k < |items| ==> items[k] == items[1..][k - 1];
      BodyWithoutFiles(valid, format, items[1..], key, endpoint);
    }
  }

  /** The item loop over a non-empty list is its first turn followed by the rest. */
  lemma BodySplit(valid: Item -> bool, format: Item -> string, items: seq<Item>, key: KeyState, endpoint: Option<int>)
    requires items != []
    ensures var first := Body(valid, format, [items[0]], key, endpoint);
      var rest := Body(valid, format, items[1..], first.key, first.endpoint);
      Body(valid, format, items, key, endpoint) ==
        if first.raised then first else rest.(lines := first.lines + rest.lines)
  {
    var it := items[0];
    assert [it][1..] == [];
    if valid(it) && it.FileItem? {
      BodySplitFile(valid, format, items, key, endpoint);
    } else if valid(it) {
      var rest := Body(valid, format, items[1..], key, endpoint);
      assert Body(valid, format, [it], key, endpoint).lines == [format(it)] + [];
    }
  }

  /** `BodySplit` for a valid file at the head. */
  lemma BodySplitFile(valid: Item -> bool, format: Item -> string, items: seq<Item>, key: KeyState, endpoint: Option<int>)
    requires items != [] && valid(items[0]) && items[0].FileItem?
    ensures var first := Body(valid, format, [items[0]], key, endpoint);
      var rest := Body(valid, format, items[1..], first.key, first.endpoint);
      Body(valid, format, items, key, endpoint) ==
        if first.raised then first else rest.(lines := first.lines + rest.lines)
  {
    var it := items[0];
    assert [it][1..] == [];
    var (key1, keyLine) := KeyStep(key, it.file);
    match RangeStep(endpoint, it.file)
    case RangeRaised =>
    case RangeLine(rangeLine, endpoint1) =>
      var own := Lines(keyLine) + Lines(rangeLine) + [format(it)];
      assert Body(valid, format, [it], key, endpoint) == BodyResult(own + [], false, key1, endpoint1);
      assert own + [] == own;
  }
}
