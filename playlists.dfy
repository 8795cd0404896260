/**
 * The `M3Uzi` class (lib/m3uzi.rb:9-375): a playlist object whose
 * methods change its fields in place. Each method is proved against the
 * functions of the other modules: the eviction loop against
 * `Window.Evict`, the version check against `Version.InferVersion`, the
 * two trackers against `Trackers.KeyStep` and `Trackers.RangeStep`, the
 * writer against `Writer.Write` and the reader against `Reader.Read`.
 */
module Playlists {
  import opened Wrappers
  import opened Text
  import opened Items
  import opened LineParser
  import opened Version
  import opened Window
  import opened Trackers
  import opened Headers
  import opened Writer
  import opened Reader

  class M3Uzi {
    /** `valid?` and `format` of the item classes. */
    const valid: Item -> bool
    const format: Item -> string

    /** `@header_tags`, a hash from tag name to tag, in insertion order. */
    var headerTags: seq<TagData>
    var playlistItems: seq<Item>
    var playlistType: PlaylistType
    var finalMediaFile: bool
    var version: int
    var initialMediaSequence: int
    var slidingWindowDuration: Option<real>
    var removedFileCount: nat

    /** The key tracker. */
    var encryptionKeyUrl: Option<string>
    var encryptionIv: Option<string>
    var encryptionSequence: nat

    /** The byte-range tracker. */
    var prevByterangeEndpoint: Option<int>

    /** The tag names are distinct, as hash keys are, and a window, when set, is not negative. */
    ghost predicate Valid()
      reads this
    {
      DistinctNames(headerTags) &&
      (slidingWindowDuration.Some? ==> slidingWindowDuration.value >= 0.0)
    }

    /** The fields the writer reads. */
    function Snap(): Snapshot
      reads this
    {
      Snapshot(headerTags, playlistItems, playlistType, finalMediaFile, initialMediaSequence, removedFileCount)
    }

    /** The key tracker's fields. */
    function KeyTracker(): KeyState
      reads this
    {
      KeyState(encryptionKeyUrl, encryptionIv, encryptionSequence)
    }

    /** The fields the reader sets. */
    ghost function ReadFields(): ReadState
      reads this
    {
      ReadState(headerTags, playlistItems, finalMediaFile)
    }

    /** `initialize` (:19-29). */
    constructor (valid: Item -> bool, format: Item -> string)
      ensures Valid() && this.valid == valid && this.format == format
      ensures headerTags == [] && playlistItems == [] && playlistType == Live
      ensures finalMediaFile && version == 1 && initialMediaSequence == 0
      ensures slidingWindowDuration == None && removedFileCount == 0
      ensures KeyTracker() == KeyReset && prevByterangeEndpoint == None
    {
      this.valid := valid;
      this.format := format;
      headerTags := [];
      playlistItems := [];
      finalMediaFile := true;
      version := 1;
      initialMediaSequence := 0;
      slidingWindowDuration := None;
      removedFileCount := 0;
      playlistType := Live;
      encryptionKeyUrl := None;
      encryptionIv := None;
      encryptionSequence := 0;
      prevByterangeEndpoint := None;
    }

    /**
     * What `cleanup_sliding_window` leaves, given the items and count it
     * started from: nothing happens without a window or for a playlist
     * that is not live; the total raises when a valid file has no
     * duration; otherwise the oldest valid files are evicted and counted.
     */
    ghost predicate CleanedUp(before: seq<Item>, removedBefore: nat, raised: bool)
      reads this
      requires Valid()
    {
      if slidingWindowDuration.None? || playlistType != Live then
        playlistItems == before && removedFileCount == removedBefore && !raised
      else if TotalDuration(valid, before).None? then
        playlistItems == before && removedFileCount == removedBefore && raised
      else
        var (rest, k) := Evict(valid, before, slidingWindowDuration.value);
        playlistItems == rest && removedFileCount == removedBefore + k && !raised
    }

    /**
     * `cleanup_sliding_window` (:363-370), with the total recomputed on
     * every test. Afterwards the valid files fit the window.
     */
    method CleanupSlidingWindow() returns (raised: bool)
      requires Valid()
      modifies this
      ensures Valid() && CleanedUp(old(playlistItems), old(removedFileCount), raised)
      ensures !raised && slidingWindowDuration.Some? && playlistType == Live ==>
        SumDurations(ValidFiles(valid, playlistItems)) <= slidingWindowDuration.value
      ensures headerTags == old(headerTags) && playlistType == old(playlistType)
      ensures finalMediaFile == old(finalMediaFile) && version == old(version)
      ensures initialMediaSequence == old(initialMediaSequence)
      ensures slidingWindowDuration == old(slidingWindowDuration)
      ensures KeyTracker() == old(KeyTracker()) && prevByterangeEndpoint == old(prevByterangeEndpoint)
    {
      if slidingWindowDuration.None? || playlistType != Live {
        return false;
      }
      var window := slidingWindowDuration.value;
      if TotalDuration(valid, playlistItems).None? {
        return true;
      }
      ghost var target := Evict(valid, playlistItems, window);
      var items, removed := playlistItems, removedFileCount;
      while SumDurations(ValidFiles(valid, items)) > window
        invariant Evict(valid, items, window).0 == target.0
        invariant removed + Evict(valid, items, window).1 == removedFileCount + target.1
        decreases |ValidFiles(valid, items)|
      {
        items := RemoveFirstValidFile(valid, items);
        removed := removed + 1;
      }
      EvictNothingWhenFitting(valid, items, window);
      playlistItems, removedFileCount := items, removed;
      return false;
    }

    /** `add_file` (:211-218) with the file its block has filled in. */
    method AddFile(f: MediaFile) returns (raised: bool)
      requires Valid()
      modifies this
      ensures Valid() && CleanedUp(old(playlistItems) + [FileItem(f)], old(removedFileCount), raised)
      ensures headerTags == old(headerTags) && playlistType == old(playlistType)
      ensures finalMediaFile == old(finalMediaFile) && version == old(version)
      ensures initialMediaSequence == old(initialMediaSequence)
      ensures slidingWindowDuration == old(slidingWindowDuration)
      ensures KeyTracker() == old(KeyTracker()) && prevByterangeEndpoint == old(prevByterangeEndpoint)
    {
      playlistItems := playlistItems + [FileItem(f)];
      raised := CleanupSlidingWindow();
    }

    /** `add_stream` (:229-235) with the stream its block has filled in. */
    method AddStream(s: VariantStream)
      requires Valid()
      modifies this
      ensures Valid() && playlistItems == old(playlistItems) + [StreamItem(s)]
      ensures FileCount(playlistItems) == FileCount(old(playlistItems))
      ensures ValidFiles(valid, playlistItems) == ValidFiles(valid, old(playlistItems))
      ensures headerTags == old(headerTags) && playlistType == old(playlistType)
      ensures finalMediaFile == old(finalMediaFile) && version == old(version)
      ensures initialMediaSequence == old(initialMediaSequence) && removedFileCount == old(removedFileCount)
      ensures slidingWindowDuration == old(slidingWindowDuration)
      ensures KeyTracker() == old(KeyTracker()) && prevByterangeEndpoint == old(prevByterangeEndpoint)
    {
      ValidFilesOfAppend(valid, playlistItems, [StreamItem(s)]);
      FileCountOfAppend(playlistItems, [StreamItem(s)]);
      playlistItems := playlistItems + [StreamItem(s)];
    }

    /** `add_comment` (:272-277). */
    method AddComment(text: Option<string>)
      requires Valid()
      modifies this
      ensures Valid() && playlistItems == old(playlistItems) + [CommentItem(text)]
      ensures FileCount(playlistItems) == FileCount(old(playlistItems))
      ensures ValidFiles(valid, playlistItems) == ValidFiles(valid, old(playlistItems))
      ensures headerTags == old(headerTags) && playlistType == old(playlistType)
      ensures finalMediaFile == old(finalMediaFile) && version == old(version)
      ensures initialMediaSequence == old(initialMediaSequence) && removedFileCount == old(removedFileCount)
      ensures slidingWindowDuration == old(slidingWindowDuration)
      ensures KeyTracker() == old(KeyTracker()) && prevByterangeEndpoint == old(prevByterangeEndpoint)
    {
      ValidFilesOfAppend(valid, playlistItems, [CommentItem(text)]);
      FileCountOfAppend(playlistItems, [CommentItem(text)]);
      playlistItems := playlistItems + [CommentItem(text)];
    }

    /**
     * `add_tag` (:246-252) with the tag its block has filled in: a tag
     * with a name already stored replaces that one in its place, a new
     * name is appended, and the name then looks up the new tag.
     */
    method AddTag(t: TagData)
      requires Valid()
      modifies this
      ensures Valid() && headerTags == Upsert(old(headerTags), t)
      ensures forall k :: 0 <= k < |old(headerTags)| && old(headerTags)[k].name == t.name ==>
        headerTags == old(headerTags)[k := t]
      ensures !Includes(old(headerTags), t.name) ==> headerTags == old(headerTags) + [t]
      ensures Lookup(headerTags, t.name) == Some(t)
      ensures playlistItems == old(playlistItems) && playlistType == old(playlistType)
      ensures finalMediaFile == old(finalMediaFile) && version == old(version)
      ensures initialMediaSequence == old(initialMediaSequence) && removedFileCount == old(removedFileCount)
      ensures slidingWindowDuration == old(slidingWindowDuration)
      ensures KeyTracker() == old(KeyTracker()) && prevByterangeEndpoint == old(prevByterangeEndpoint)
    {
      UpsertKeepsNamesDistinct(headerTags, t);
      UpsertLookup(headerTags, t, t.name);
      forall k | 0 <= k < |headerTags| && headerTags[k].name == t.name
        ensures Upsert(headerTags, t) == headerTags[k := t]
      {
        UpsertReplacesInPlace(headerTags, t, k);
      }
      if !Includes(headerTags, t.name) {
        UpsertAppendsNew(headerTags, t);
      }
      headerTags := Upsert(headerTags, t);
    }

    /**
     * `check_version_restrictions` (:283-313): start at 1, then raise the
     * version for each rule whose `detect` finds an item.
     */
    method CheckVersionRestrictions() returns (v: int)
      modifies this
      ensures v == version && version == InferVersion(valid, playlistItems)
      ensures Snap() == old(Snap()) && slidingWindowDuration == old(slidingWindowDuration)
      ensures KeyTracker() == old(KeyTracker()) && prevByterangeEndpoint == old(prevByterangeEndpoint)
    {
      var items := playlistItems;
      var customIv := exists i :: 0 <= i < |items| && IsValidFile(valid, items[i]) && UsesCustomIv(items[i].file);
      var floatDuration := exists i :: 0 <= i < |items| && IsValidFile(valid, items[i]) && HasFloatDuration(items[i].file);
      var ranged := exists i :: 0 <= i < |items| && IsValidFile(valid, items[i]) && HasByterange(items[i].file);
      var version4Tag := exists i :: 0 <= i < |items| && items[i].TagItem? && valid(items[i]) && IsVersion4Tag(items[i].tag);
      v := 1;
      if customIv && v < 2 {
        v := 2;
      }
      if floatDuration && v < 3 {
        v := 3;
      }
      if ranged && v < 4 {
        v := 4;
      }
      if version4Tag && v < 4 {
        v := 4;
      }
      VersionRules(valid, items);
      version := v;
    }

    /** `reset_encryption_key_history` (:142-146). */
    method ResetEncryptionKeyHistory()
      modifies this
      ensures KeyTracker() == KeyReset
      ensures Snap() == old(Snap()) && version == old(version) && slidingWindowDuration == old(slidingWindowDuration)
      ensures prevByterangeEndpoint == old(prevByterangeEndpoint)
    {
      encryptionKeyUrl := None;
      encryptionIv := None;
      encryptionSequence := 0;
    }

    /**
     * `generate_encryption_key_line` (:148-177): a file whose key URL is
     * set and differs from the tracked one replaces it; while a URL is
     * tracked, a different IV replaces the tracked IV; either change gives
     * the key line for the new state. The sequence advances on every call.
     */
    method GenerateEncryptionKeyLine(f: MediaFile) returns (line: Option<string>)
      modifies this
      ensures (KeyTracker(), line) == KeyStep(old(KeyTracker()), f)
      ensures Snap() == old(Snap()) && version == old(version) && slidingWindowDuration == old(slidingWindowDuration)
      ensures prevByterangeEndpoint == old(prevByterangeEndpoint)
    {
      var generate := false;
      if !f.encryptionKeyUrl.Unset? && !SameKey(f.encryptionKeyUrl, encryptionKeyUrl) {
        encryptionKeyUrl := Tracked(f.encryptionKeyUrl);
        generate := true;
      }
      if encryptionKeyUrl.Some? && f.encryptionIv != encryptionIv {
        encryptionIv := f.encryptionIv;
        generate := true;
      }
      encryptionSequence := encryptionSequence + 1;
      if generate {
        line := Some(KeyLine(encryptionKeyUrl, encryptionIv));
      } else {
        line := None;
      }
    }

    /** `reset_byterange_history` (:179-181). */
    method ResetByterangeHistory()
      modifies this
      ensures prevByterangeEndpoint == None
      ensures Snap() == old(Snap()) && version == old(version) && slidingWindowDuration == old(slidingWindowDuration)
      ensures KeyTracker() == old(KeyTracker())
    {
      prevByterangeEndpoint := None;
    }

    /**
     * `generate_byterange_line` (:183-204): the line and the new endpoint
     * `Trackers.RangeStep` gives, or `raised` with the endpoint left as it
     * was when the new endpoint would be `nil + byterange`.
     */
    method GenerateByterangeLine(f: MediaFile) returns (line: Option<string>, raised: bool)
      modifies this
      ensures match RangeStep(old(prevByterangeEndpoint), f)
        case RangeRaised => raised && line.None? && prevByterangeEndpoint == old(prevByterangeEndpoint)
        case RangeLine(l, e) => !raised && line == l && prevByterangeEndpoint == e
      ensures Snap() == old(Snap()) && version == old(version) && slidingWindowDuration == old(slidingWindowDuration)
      ensures KeyTracker() == old(KeyTracker())
    {
      line := None;
      if f.byterange.Some? {
        var offset: Option<int>;
        if f.byterangeOffset.Some? && f.byterangeOffset != prevByterangeEndpoint {
          offset := f.byterangeOffset;
        } else if prevByterangeEndpoint.None? {
          offset := Some(0);
        } else {
          offset := None;
        }
        var text := "#EXT-X-BYTERANGE:" + IntToDecimal(f.byterangeOffset.GetOr(0));
        if offset.Some? {
          text := text + ("@" + IntToDecimal(offset.value));
        }
        if offset.None? {
          return None, true;
        }
        line := Some(text);
        prevByterangeEndpoint := Some(offset.value + f.byterange.value);
      } else {
        prevByterangeEndpoint := None;
      }
      raised := false;
    }

    /** One turn of the header loop (:88-102): the line for `tag`, appended to `lines`. */
    method WriteAutoHeader(tag: string, lines: seq<string>) returns (out: seq<string>)
      ensures out == lines + Lines(AutoHeaderLine(tag, Snap(), version, valid))
    {
      out := lines;
      if Includes(headerTags, tag) {
        return;
      }
      if tag == "#EXTM3U" {
        out := out + ["#EXTM3U"];
      } else if tag == "#EXT-X-VERSION" {
        if version > 1 {
          out := out + ["#EXT-X-VERSION:" + IntToDecimal(version)];
        }
      } else if tag == "#EXT-X-PLAYLIST-TYPE" && playlistType in {Event, Vod} {
        out := out + ["#EXT-X-PLAYLIST-TYPE:" + TypeName(playlistType)];
      } else if FileCount(playlistItems) > 0 {
        if tag == "#EXT-X-MEDIA-SEQUENCE" && playlistType == Live {
          out := out + ["#EXT-X-MEDIA-SEQUENCE:" + IntToDecimal(initialMediaSequence + removedFileCount)];
        } else if tag == "#EXT-X-TARGETDURATION" {
          out := out + ["#EXT-X-TARGETDURATION:" + IntToDecimal(TargetDuration(valid, playlistItems))];
        }
      }
    }

    /** The header loop (:87-103) over `names`: the automatic header lines, in order. */
    method WriteAutoHeaders(names: seq<string>) returns (lines: seq<string>)
      ensures lines == AutoHeaders(names, Snap(), version, valid)
    {
      lines := [];
      for n := 0 to |names|
        invariant lines + AutoHeaders(names[n..], Snap(), version, valid) == AutoHeaders(names, Snap(), version, valid)
      {
        ghost var before := lines;
        ghost var rest := AutoHeaders(names[n + 1..], Snap(), version, valid);
        AutoHeadersStep(names, n, Snap(), version, valid);
        lines := WriteAutoHeader(names[n], lines);
        assert lines + rest == before + (Lines(AutoHeaderLine(names[n], Snap(), version, valid)) + rest);
      }
    }

    /** The loop over the stored tags (:105-107), appending the valid ones formatted. */
    method WriteUserHeaders(lines: seq<string>) returns (out: seq<string>)
      ensures out == lines + UserHeaders(valid, format, headerTags)
    {
      out := lines;
      for k := 0 to |headerTags|
        invariant out + UserHeaders(valid, format, headerTags[k..]) == lines + UserHeaders(valid, format, headerTags)
      {
        assert headerTags[k..][1..] == headerTags[k + 1..];
        var tag := TagItem(headerTags[k]);
        if valid(tag) {
          out := out + [format(tag)];
        }
      }
    }

    /**
     * One turn of the item loop (:110-120) for `item`: nothing for an
     * invalid item; for a valid file, its key line and byte-range line
     * (or `raised`, ending the loop); then the item formatted.
     */
    method WriteItem(item: Item) returns (lines: seq<string>, raised: bool)
      modifies this
      ensures var step := Body(valid, format, [item], old(KeyTracker()), old(prevByterangeEndpoint));
        lines == step.lines && raised == step.raised &&
        KeyTracker() == step.key && prevByterangeEndpoint == step.endpoint
      ensures Snap() == old(Snap()) && version == old(version) && slidingWindowDuration == old(slidingWindowDuration)
    {
      lines := [];
      raised := false;
      if !valid(item) {
        return;
      }
      if item.FileItem? {
        var keyLine := GenerateEncryptionKeyLine(item.file);
        lines := lines + Lines(keyLine);
        var rangeLine;
        rangeLine, raised := GenerateByterangeLine(item.file);
        if raised {
          return;
        }
        lines := lines + Lines(rangeLine);
      }
      lines := lines + [format(item)];
    }

    /** The item loop (:109-121), from the trackers' current state. */
    method WriteItems() returns (lines: seq<string>, raised: bool)
      modifies this
      ensures var body := Body(valid, format, playlistItems, old(KeyTracker()), old(prevByterangeEndpoint));
        lines == body.lines && raised == body.raised &&
        KeyTracker() == body.key && prevByterangeEndpoint == body.endpoint
      ensures Snap() == old(Snap()) && version == old(version) && slidingWindowDuration == old(slidingWindowDuration)
    {
      ghost var target := Body(valid, format, playlistItems, KeyTracker(), prevByterangeEndpoint);
      lines := [];
      raised := false;
      var k := 0;
      while k < |playlistItems|
        invariant 0 <= k <= |playlistItems|
        invariant Snap() == old(Snap()) && version == old(version) && slidingWindowDuration == old(slidingWindowDuration)
        invariant var rest := Body(valid, format, playlistItems[k..], KeyTracker(), prevByterangeEndpoint);
          lines + rest.lines == target.lines && rest.raised == target.raised &&
          rest.key == target.key && rest.endpoint == target.endpoint
      {
        ghost var before := lines;
        ghost var whole := Body(valid, format, playlistItems[k..], KeyTracker(), prevByterangeEndpoint);
        BodySplit(valid, format, playlistItems[k..], KeyTracker(), prevByterangeEndpoint);
        assert playlistItems[k..][0] == playlistItems[k];
        assert playlistItems[k..][1..] == playlistItems[k + 1..];
        var more, stop := WriteItem(playlistItems[k]);
        lines := lines + more;
        if stop {
          raised := true;
          return;
        }
        ghost var rest := Body(valid, format, playlistItems[k + 1..], KeyTracker(), prevByterangeEndpoint);
        assert whole == rest.(lines := more + rest.lines);
        assert lines + rest.lines == before + whole.lines;
        k := k + 1;
      }
      assert playlistItems[k..] == [];
    }

    /**
     * `write_to_io` (:82-124), with the lines it writes returned instead
     * of sent to a stream. The output and the trackers' final state are
     * those of `Writer.Write`; the version is recomputed and kept.
     */
    method WriteToIo() returns (out: WriteOutcome)
      modifies this
      ensures out == Write(valid, format, old(Snap()))
      ensures Snap() == old(Snap()) && slidingWindowDuration == old(slidingWindowDuration)
      ensures version == InferVersion(valid, playlistItems)
      ensures var body := Body(valid, format, playlistItems, KeyReset, None);
        KeyTracker() == body.key && prevByterangeEndpoint == body.endpoint
    {
      ResetEncryptionKeyHistory();
      ResetByterangeHistory();
      var _ := CheckVersionRestrictions();
      var lines := WriteAutoHeaders(AutoHeaderNames);
      lines := WriteUserHeaders(lines);
      var body, raised := WriteItems();
      lines := lines + body;
      if raised {
        return Raised(lines);
      }
      if FileCount(playlistItems) > 0 && (finalMediaFile || playlistType == Vod) {
        lines := lines + ["#EXT-X-ENDLIST"];
      }
      return Written(lines);
    }

    /**
     * One turn of the loop of `M3Uzi.read` (:42-75) over line `i`, on this
     * playlist: `ok` is false when the line raises; otherwise the tags,
     * items and final flag are those `Reader.ReadLine` gives.
     */
    method ReadLineInto(source: string, lines: seq<string>, i: nat, local: bool,
                        join: (string, string) -> string) returns (ok: bool)
      requires i < |lines| && Valid() && slidingWindowDuration == None
      modifies this
      ensures var next := ReadLine(source, lines, i, local, join, old(ReadFields()));
        (ok <==> next.Some?) && (ok ==> ReadFields() == next.value)
      ensures Valid() && playlistType == old(playlistType) && version == old(version)
      ensures initialMediaSequence == old(initialMediaSequence) && removedFileCount == old(removedFileCount)
      ensures slidingWindowDuration == None
    {
      var line := lines[i];
      match Classify(line) {
        case TagLine =>
          var parsed := ParseGeneralTag(line);
          if parsed.None? {
            return false;
          }
          AddTag(parsed.value);
        case Info =>
          var parsed := ParseFileTag(line);
          if parsed.None? {
            return false;
          }
          var (numeral, description) := parsed.value;
          var path := NextPath(source, lines, i, local, join);
          if path.None? {
            return false;
          }
          var _ := AddFile(ReadFile(path.value, numeral, description));
          finalMediaFile := false;
        case StreamInf =>
          var parsed := ParseStreamTag(line);
          if parsed.None? {
            return false;
          }
          var path := NextPath(source, lines, i, local, join);
          if path.None? {
            return false;
          }
          AddStream(ReadStream(path.value, parsed.value));
        case Final =>
          finalMediaFile := true;
        case _ =>
      }
      return true;
    }

    /**
     * `M3Uzi.read` (:35-80) over the lines of the playlist at `source`.
     * It gives the playlist `Reader.Read` describes, with every other field
     * as a new playlist has it, or nothing when a line raises.
     */
    static method Read(source: string, lines: seq<string>, join: (string, string) -> string,
                       valid: Item -> bool, format: Item -> string) returns (m: Option<M3Uzi>)
      ensures var r := Reader.Read(source, lines, join);
        (m.Some? <==> r.ReadOk?) &&
        (m.Some? ==>
          fresh(m.value) && m.value.Valid() && m.value.ReadFields() == r.state &&
          m.value.valid == valid && m.value.format == format && m.value.playlistType == Live &&
          m.value.version == 1 && m.value.initialMediaSequence == 0 &&
          m.value.slidingWindowDuration == None && m.value.removedFileCount == 0)
    {
      var m3u := new M3Uzi(valid, format);
      var local := !IsAbsoluteUri(source);
      ghost var target := Reader.Read(source, lines, join);
      var i := 0;
      while i < |lines|
        invariant 0 <= i <= |lines|
        invariant fresh(m3u) && m3u.Valid() && m3u.valid == valid && m3u.format == format
        invariant m3u.playlistType == Live && m3u.version == 1 && m3u.initialMediaSequence == 0
        invariant m3u.slidingWindowDuration == None && m3u.removedFileCount == 0
        invariant ReadFrom(source, lines, i, local, join, m3u.ReadFields()) == target
      {
        var ok := m3u.ReadLineInto(source, lines, i, local, join);
        if !ok {
          return None;
        }
        i := i + 1;
      }
      return Some(m3u);
    }
  }

  /**
   * The four `detect` tests of `check_version_restrictions` are the
   * three thresholds of `Version.Triggered`, the two version 4 rules
   * together.
   */
  lemma VersionRules(valid: Item -> bool, items: seq<Item>)
    ensures Triggered(valid, items, 2) <==>
      exists i :: 0 <= i < |items| && IsValidFile(valid, items[i]) && UsesCustomIv(items[i].file)
    ensures Triggered(valid, items, 3) <==>
      exists i :: 0 <= i < |items| && IsValidFile(valid, items[i]) && HasFloatDuration(items[i].file)
    ensures Triggered(valid, items, 4) <==>
      (exists i :: 0 <= i < |items| && IsValidFile(valid, items[i]) && HasByterange(items[i].file)) ||
      (exists i :: 0 <= i < |items| && items[i].TagItem? && valid(items[i]) && IsVersion4Tag(items[i].tag))
  {
  }
}
