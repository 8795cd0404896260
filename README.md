# m3uzi in Dafny

A model of the Ruby library m3uzi, which reads and writes HLS playlists (RFC 8216). The model covers `lib/m3uzi.rb` and the kind dispatch of `lib/m3uzi/item.rb`. It has these parts:

- **Items** (`items.dfy`): the four item classes with their fields, and `Item#valid?`, `Item#type` and the `file?`/`stream?`/`tag?`/`comment?` predicates. It also has `items(M3UFile)` and `valid_items(M3UFile)`.
- **Line classifier and parsers** (`line_parser.dfy`):
  - `M3Uzi.type`;
  - `parse_general_tag`, `parse_file_tag` and `parse_stream_tag`. Each regular expression is written out as the scan it performs;
  - the `scheme://` test of `read` and `format_path`;
  - the stream-attribute loop of `read`.
- **Reader** (`reader.dfy`): the loop of `M3Uzi.read` as a function of the playlist's lines.
- **Header tags** (`headers.dfy`): `@header_tags`, a Ruby Hash. It is modelled as a sequence of tags with distinct names. Storing under an existing name keeps that name's position.
- **Sliding window** (`window.dfy`):
  - `total_duration`;
  - `cleanup_sliding_window`, whose eviction removes the oldest valid files until the rest fit the window.
- **Version** (`version.dfy`): `check_version_restrictions`.
- **Trackers** (`trackers.dfy`):
  - the encryption-key tracker, which emits `#EXT-X-KEY` lines (section 4.3.2.4 of RFC 8216);
  - the byte-range tracker, which emits `#EXT-X-BYTERANGE` lines (section 4.3.2.2 of RFC 8216);
  - `format_iv`.
- **Writer** (`writer.dfy`): what `write_to_io` writes, as a function of the playlist:
  - the automatic header lines;
  - the stored tags;
  - the items, with the tracker lines before each file;
  - `#EXT-X-ENDLIST`.
- **Playlist class** (`playlists.dfy`): `class M3Uzi`, whose fields are the instance variables of the Ruby class.
  - The `add_*` methods, the cleanup loop, the version check, both tracker pairs, `write_to_io` and `read` are methods that update those fields.
  - Each method is proved against the functions above.
- **Support** (`text.dfy`, `wrappers.dfy`): Ruby's `strip`, `Integer#to_s` in bases 10 and 16, and `rjust`, plus an option type for `nil`.

Behaviours of the code that the model keeps as written:

- **Parse failures in `read`.** A line the parsers cannot match fails with a `NoMethodError`: `values_at`, `[1]` or `strip` is called on `nil`. The loop rescues only `ArgumentError`, so the first such line ends the read with an exception. The model returns the index of that line instead of skipping it.
- **Remote paths.** Ruby's `^` and `$` match at line breaks, so a path counts as remote when any one of its lines is `scheme://rest` without white space.
- **Byte-range line.** The line prints `byterange_offset.to_i` before the `@`, not the length (lib/m3uzi.rb:195). A ranged file that continues the previous range computes `nil + byterange` and raises (lib/m3uzi.rb:198). The write then ends after the key line of that file.
- **Version rules.**
  - The version 2 rule tests truthiness, so a `:unset` key URL counts as a key URL.
  - The version 3 rule tests the class `Float`, not the value.
  - The `MEDIA`/`I-FRAMES-ONLY` rule scans the playlist items. `add_tag` never puts tags there, so a playlist that is read never triggers that rule.
- **Key tracker.** The key tracker starts at `nil`, the same value as an explicit "no encryption" file. Such a first file emits no line.

Two behaviours are modelled as evidently intended rather than as written. Each has a line under Left out and a row under Findings:

- **Stream attributes.** The whitelist compares a String with Symbols, so as written no attribute is ever assigned. The reader assigns the four whitelisted attributes. See the `Reader.ReadStream` line under Left out.
- **Sliding window.** `cleanup_sliding_window` memoises the total. The model recomputes it on every test. See the `Playlists.M3Uzi.CleanupSlidingWindow` line under Left out.

## Model

| member | source | states |
|---|---|---|
| Items.BaseValid | lib/m3uzi/item.rb:3-5 | `valid?` is true for every item unless a subclass overrides it |
| Items.TypeSeparatesClasses | lib/m3uzi/item.rb:23-34 | each of the four classes has a kind, and two objects share a kind exactly when they are of the same class |
| Items.KindPredicatesExclusive | lib/m3uzi/item.rb:7-21 | each of `file?`, `stream?`, `tag?` and `comment?` holds exactly for objects of its class, so at most one holds |
| Items.OtherClassHasNoKind | lib/m3uzi/item.rb:23-34 | for any other class `type` is `nil` and none of the four predicates holds |
| Items.FileCount | lib/m3uzi.rb:130-132 | `items(M3UFile).length` is at most the number of items, and zero exactly when no item is a file |
| Items.ValidFiles | lib/m3uzi.rb:134-136 | `valid_items(M3UFile)` holds exactly the files the `valid` test accepts |
| Items.ValidFilesOfAppend | lib/m3uzi.rb:134-136 | the valid files of two lists put together are the valid files of each, in order |
| Items.FileCountOfAppend | lib/m3uzi.rb:130-132 | the file count of two lists put together is the sum of their counts |
| Text.Strip | lib/m3uzi.rb:52 | `strip` keeps the middle of the string; all it cuts is white space or NUL, and the result neither starts nor ends with either |
| Text.StripChars | lib/m3uzi.rb:170 | `strip` adds no character and keeps every character that is not white space |
| Text.NatToStringRoundTrip | lib/m3uzi.rb:356 | `to_s(base)` gives digits of that base that read back as the number, with no leading zero unless the number is 0 |
| Text.NatToStringLength | lib/m3uzi.rb:356 | a number below base to the k has at most k digits |
| Text.IntToDecimalRoundTrip | lib/m3uzi.rb:97 | every integer interpolated into a line reads back as itself, sign included |
| Text.RightJustify | lib/m3uzi.rb:356 | `rjust` pads on the left up to the width and never truncates |
| Text.LeadingZerosValue | lib/m3uzi.rb:356 | zeros put in front of a digit string do not change its value |
| LineParser.Classify | lib/m3uzi.rb:323-340 | each kind holds exactly when its own prefix test does and no earlier rule matches, so every line has exactly one kind; a line is a file line exactly when it is not blank and does not start with `#` |
| LineParser.PrefixFacts | lib/m3uzi.rb:323-340 | how the seven patterns overlap: a longer prefix implies the shorter ones, and the stream-inf and end-list prefixes exclude `#EXTINF` and each other |
| LineParser.ParseGeneralTag | lib/m3uzi.rb:342-344 | parsing succeeds exactly on `#EXT` followed by a character other than `:` and not by `STREAM-INF`; the name is a colon-free prefix, and the value is the non-empty rest after the first colon, or `nil` |
| LineParser.GeneralTagRoundTrip | lib/m3uzi.rb:342-344 | `name:value` parses back to that name and value |
| LineParser.BareTagRoundTrip | lib/m3uzi.rb:342-344 | a name without a colon parses to that name with a `nil` value |
| LineParser.FileTagSpans | lib/m3uzi.rb:347 | the numeral and description groups lie after `#EXTINF:` in order, and the description starts with no blank |
| LineParser.SpansHoldNumeral | lib/m3uzi.rb:347 | the numeral group captures an optional minus sign, digits, and an optional point with more digits |
| LineParser.ParseFileTag | lib/m3uzi.rb:346-348 | parsing succeeds exactly when a digit follows `#EXTINF:`, the blanks and an optional minus; the numeral is a signed decimal, and the description is a suffix of the line that starts with no blank |
| LineParser.FileTagRoundTrip | lib/m3uzi.rb:346-348 | `#EXTINF:` + numeral + `,` + description parses back to both |
| LineParser.FractionValue | lib/m3uzi.rb:53 | the digits after the point add a fraction between 0 and 1 |
| LineParser.ParseStreamTag | lib/m3uzi.rb:350-353 | parsing succeeds exactly on lines starting with `#EXT-X-STREAM-INF:` |
| LineParser.StreamTagRoundTrip | lib/m3uzi.rb:350-353 | `#EXT-X-STREAM-INF:` followed by `K1=V1,…,Kn=Vn` parses back to exactly those pairs, in order, when each key is `[A-Z-]+` and each value is quoted without inner quotes or holds no comma, no quote and no leading blank |
| LineParser.AttributeAt | lib/m3uzi.rb:352 | one match of the attribute pattern: a `[A-Z-]+` key at the match start, then `=` with only white space around it, then the value, which ends where the match ends; the value is either a quoted string without inner quotes, or a comma-free run that does not start with a blank and stops at a comma or the end of the line |
| LineParser.ScanAttributes | lib/m3uzi.rb:352 | every key that `scan` returns is a run of `[A-Z-]` |
| LineParser.ScanOneAttribute | lib/m3uzi.rb:352 | `BANDWIDTH=1280000` scans to the single pair (`BANDWIDTH`, `1280000`) |
| LineParser.StripQuotes | lib/m3uzi.rb:64 | one pair of enclosing double quotes is dropped, and any other value is kept |
| LineParser.LastValue | lib/m3uzi.rb:61 | `to_h` keeps, for each key, the value of the last pair with that key, and none for an absent key |
| LineParser.AttributeNameInjective | lib/m3uzi.rb:62 | `downcase.sub('-', '_')` maps different `[A-Z-]+` keys to different names |
| LineParser.AttributeNameOfKey | lib/m3uzi.rb:62-63 | the four setter names come exactly from `BANDWIDTH`, `PROGRAM-ID`, `CODECS` and `RESOLUTION` |
| LineParser.AssignAttributesLastWins | lib/m3uzi.rb:61-66 | with the intended whitelist, each of the four fields holds the last value given for its attribute, quotes stripped, and keeps its old value otherwise; the path is untouched |
| LineParser.AsWrittenAssignsNothing | lib/m3uzi.rb:61-66 | as written, no attribute ever reaches the stream |
| LineParser.BandwidthIsDropped | lib/m3uzi.rb:58-66 | `#EXT-X-STREAM-INF:BANDWIDTH=1280000` leaves the bandwidth `nil` as written, and gives `1280000` as intended |
| LineParser.SchemeUriIsAbsolute | lib/m3uzi.rb:37 | `scheme://rest` without white space is absolute |
| LineParser.SingleLineAbsolute | lib/m3uzi.rb:37 | for a string without a line feed, the test holds exactly when the whole string is `\S+://\S+` |
| LineParser.LaterLineAbsolute | lib/m3uzi.rb:37 | a matching line after a line feed makes the whole string count as remote, whatever comes before |
| LineParser.AbsoluteOnSecondLine | lib/m3uzi.rb:37 | `"a b\nhttp://h/x.m3u8"` counts as remote although its first line holds a space |
| LineParser.FormatPath | lib/m3uzi.rb:359-361 | an absolute path is kept, and any other path is joined to the source |
| Reader.NextPath | lib/m3uzi.rb:52 | the path is the next line stripped for a local playlist, and that line passed through `format_path` for a remote one; reading past the last line fails |
| Reader.ReadFile | lib/m3uzi.rb:50-55 | the file read has a Float duration equal to the numeral's value, and its description is `nil` exactly when it is empty |
| Reader.SkippedLinesChangeNothing | lib/m3uzi.rb:70-71 | blank lines, comments and path lines leave the playlist as it was |
| Reader.ReadLineItems | lib/m3uzi.rb:43-67 | one line adds at most one item: a stream, or a file with a Float duration |
| Reader.ReadLineKeepsShape | lib/m3uzi.rb:40-77 | one line keeps every item a stream or a Float-duration file |
| Reader.ReadKeepsItemShape | lib/m3uzi.rb:40-77 | every item of a read playlist is a stream or a file with a Float duration |
| Reader.ReadPlaylistVersion | lib/m3uzi.rb:53 | a read playlist has no Tag items, and one valid file is enough for version 3 |
| Reader.ReadLineFinal | lib/m3uzi.rb:56 | only `#EXTINF` lines (false) and end-list lines (true) move `final_media_file` |
| Reader.ReadFinalFlag | lib/m3uzi.rb:68-69 | after the loop `final_media_file` is true exactly when it started true or an end-list line comes, and every `#EXTINF` line has an end-list line after it |
| Headers.Upsert | lib/m3uzi.rb:251 | storing grows the hash by one exactly when the name is new |
| Headers.UpsertReplacesInPlace | lib/m3uzi.rb:251 | storing under an existing name replaces that tag where it stands |
| Headers.UpsertAppendsNew | lib/m3uzi.rb:251 | a new name is appended at the end |
| Headers.UpsertKeepsNamesDistinct | lib/m3uzi.rb:251 | names stay distinct |
| Headers.UpsertLookup | lib/m3uzi.rb:251 | the stored name then looks up the new tag, and every other name looks up what it did before |
| Headers.UpsertNames | lib/m3uzi.rb:251 | the key order is kept, and a new key is appended |
| Headers.Lookup | lib/m3uzi.rb:88 | a name is found exactly when the hash includes it, and the tag found has that name |
| Window.Contribution | lib/m3uzi.rb:317 | a file adds exactly its duration to the total when that duration is positive, and nothing otherwise |
| Window.SumDurations | lib/m3uzi.rb:316-318 | the total is never negative, and positive only with files |
| Window.TotalDuration | lib/m3uzi.rb:315-319 | the total is `nil` (it raises) exactly when a valid file has no duration, and is otherwise non-negative |
| Window.RemoveFirstValidFile | lib/m3uzi.rb:366-367 | `detect` plus `delete` removes the first valid file and keeps every other item in order; without a valid file nothing changes |
| Window.FirstValidFile | lib/m3uzi.rb:366 | `detect` finds the index of a valid file with no valid file before it, or the length when there is none |
| Window.RemoveFirstValidFileAt | lib/m3uzi.rb:366-367 | the result is the items before the file `detect` found followed by the items after it |
| Window.DropAfterRemove | lib/m3uzi.rb:365-368 | one turn of the loop and then k more remove the first k + 1 valid files |
| Window.EvictDropsOldest | lib/m3uzi.rb:363-369 | eviction deletes the first k valid files where they stand and keeps every other item in order, for the k it reports |
| Window.EvictKeepsShortestFittingSuffix | lib/m3uzi.rb:363-369 | eviction leaves the items with the k oldest valid files deleted and nothing else changed, for the least k that makes the rest fit the window |
| Window.EvictFitsWindow | lib/m3uzi.rb:365-368 | afterwards the valid files fit, and each removed file is counted once |
| Window.EvictNothingWhenFitting | lib/m3uzi.rb:365 | a playlist that fits is left alone |
| Window.RemovingFirstDropsItsContribution | lib/m3uzi.rb:365-367 | each turn lowers the total by the removed file's contribution |
| Window.MemoLetsWindowOverflow | lib/m3uzi.rb:316 | with the memoised total, two ten-second files stay in a 15-second window; recomputing evicts one |
| Window.MemoSpinsForever | lib/m3uzi.rb:316 | with the memoised total, a ten-second file in a 5-second window makes the loop run forever; recomputing evicts it |
| Version.InferVersion | lib/m3uzi.rb:283-313 | the version is in 1..4, is 1 exactly when no rule fires, and is otherwise the highest version a rule asks for |
| Version.VersionMonotone | lib/m3uzi.rb:283-313 | adding items never lowers the version |
| Version.VersionOneWithoutFeatures | lib/m3uzi.rb:283-313 | with no valid file and no valid `MEDIA`/`I-FRAMES-ONLY` tag the version is 1 |
| Version.NoTagItemsNoTagRule | lib/m3uzi.rb:301-306 | without Tag items, version 4 comes exactly from a valid ranged file |
| Version.FloatFileNeedsVersion3 | lib/m3uzi.rb:296-298 | one valid file with a Float duration gives version 3 or more |
| Playlists.VersionRules | lib/m3uzi.rb:291-306 | the four `detect` tests are the version 2, 3 and 4 rules |
| Trackers.EscapeQuotes | lib/m3uzi.rb:170 | no `"` is left, and every other character is kept |
| Trackers.EscapeQuotesOfChar | lib/m3uzi.rb:170 | a `"` becomes `%22` and any other character stays itself |
| Trackers.EscapeQuotesOfAppend | lib/m3uzi.rb:170 | the escaping of a string is the escapings of its pieces, in order |
| Trackers.RemoveLineBreaks | lib/m3uzi.rb:170 | exactly the CR and LF characters are removed |
| Trackers.CleanUriIsSafe | lib/m3uzi.rb:170 | the quoted URI holds no `"`, CR or LF, and keeps every other non-space character |
| Trackers.KeyLineShape | lib/m3uzi.rb:165-176 | the line is `METHOD=NONE` exactly when no URL is tracked; otherwise it is `METHOD=AES-128` with a safe quoted URI, plus `,IV=` exactly when an IV is tracked |
| Trackers.AesKeyLineText | lib/m3uzi.rb:169-172 | the joined attributes spell `METHOD=AES-128,URI="…"[,IV=…]` |
| Trackers.KeyStepFacts | lib/m3uzi.rb:148-177 | each call advances the sequence by one; an emitted line describes the new state; `:unset` keeps the tracked URL, and any other URL is then tracked; no line is emitted exactly when URL and IV are unchanged |
| Trackers.KeyStepRepeatSilent | lib/m3uzi.rb:148-177 | the same file twice in a row emits nothing the second time |
| Trackers.FirstExplicitNoneSilent | lib/m3uzi.rb:143-158 | after a reset, an explicit "no encryption" file emits nothing |
| Trackers.KeyFold | lib/m3uzi.rb:109-118 | over a run of files the sequence advances once per file, with at most one line per file |
| Trackers.KeyLinesOfAppend | lib/m3uzi.rb:109-121 | the key lines of two runs of output are those of each, in order |
| Trackers.KeyStepEmitsKeyLine | lib/m3uzi.rb:165-176 | every line the key tracker emits starts with `#EXT-X-KEY:` |
| Trackers.RangeLineNotKeyLine | lib/m3uzi.rb:195-198 | no byte-range line starts with `#EXT-X-KEY:` |
| Trackers.SharedKeyEmitsOnce | lib/m3uzi.rb:148-177 | files that share a key URL and IV emit at most one key line, for the first of them |
| Trackers.SettledKeySilent | lib/m3uzi.rb:153-161 | once the tracker holds a file's URL and IV, files like it emit nothing |
| Trackers.FormatIvRoundTrip | lib/m3uzi.rb:355-357 | `format_iv` is `0x` followed by hex digits that read back as the number, and is 34 characters for any 128-bit number |
| Trackers.RangeRaisesIffContiguous | lib/m3uzi.rb:186-198 | the tracker raises exactly for a ranged file after a ranged file whose offset is absent or equal to the previous endpoint |
| Trackers.NoRangeClearsChain | lib/m3uzi.rb:199-200 | a file without a range emits nothing and clears the endpoint |
| Trackers.FreshOffsetLine | lib/m3uzi.rb:187-198 | a fresh offset o emits `#EXT-X-BYTERANGE:o@o`, and the endpoint becomes o plus the length |
| Trackers.ChainStartLine | lib/m3uzi.rb:189-198 | a ranged file with no offset at the start of a chain emits `#EXT-X-BYTERANGE:0@0` |
| Trackers.RangeLineOffsetReadsBack | lib/m3uzi.rb:195-198 | the number after `@` reads back as the offset the new endpoint is counted from |
| Writer.Ceil | lib/m3uzi.rb:100 | `ceil` is the least integer not below the value |
| Writer.MaxToF | lib/m3uzi.rb:99 | `max` bounds every duration and is one of them |
| Writer.TargetDurationBounds | lib/m3uzi.rb:99-100 | the target duration is 10 without valid files, and otherwise the least integer no valid file's duration exceeds |
| Writer.AutoHeadersStep | lib/m3uzi.rb:87-103 | the header loop writes one tag's line and then those of the rest |
| Writer.AutoHeadersOfFive | lib/m3uzi.rb:87 | the header loop over five names writes their lines in that order |
| Writer.AutoHeadersInOrder | lib/m3uzi.rb:87-103 | the header lines, in order, each under its own condition: `#EXTM3U` always; the version above 1; the type for event and VOD; the media sequence (initial plus evicted) for live playlists with files; the target duration with files; each suppressed by a stored tag of that name |
| Writer.ExtM3uLine | lib/m3uzi.rb:89-90 | `#EXTM3U` is written unless stored |
| Writer.VersionLine | lib/m3uzi.rb:91-92 | the version line appears only above 1 |
| Writer.PlaylistTypeLine | lib/m3uzi.rb:93-94 | the type line appears only for event and VOD |
| Writer.MediaSequenceLine | lib/m3uzi.rb:95-97 | the media sequence is initial plus evicted, only for live playlists with files |
| Writer.TargetDurationLine | lib/m3uzi.rb:95-100 | the target duration line appears only with files |
| Writer.UserHeaders | lib/m3uzi.rb:105-107 | at most one line per stored tag |
| Writer.UserHeadersFormatValidTags | lib/m3uzi.rb:105-107 | the header lines are the valid stored tags, formatted, in insertion order |
| Writer.WriteStartsWithExtM3U | lib/m3uzi.rb:87-90 | unless stored by the user, `#EXTM3U` is the first line, even of a write that raises |
| Writer.EndListIsLast | lib/m3uzi.rb:123 | `#EXT-X-ENDLIST` is the last line exactly when there is a file and the playlist is final or VOD; otherwise nothing follows the items |
| Writer.NoRangesNeverRaise | lib/m3uzi.rb:109-121 | without a valid ranged file the write never raises |
| Writer.BodyWithoutFiles | lib/m3uzi.rb:109-121 | without valid files no tracker line appears: the body is each valid item formatted |
| Writer.BodySplit | lib/m3uzi.rb:109-121 | the item loop is its first turn followed by the rest, and stops at a turn that raises |
| Writer.BodyKeyLines | lib/m3uzi.rb:109-121 | when no byte-range step raises and no valid item formats as a key line, the key lines written are exactly those the key tracker emits over the valid files, in order, and the tracker ends where that run ends |
| Writer.FileKeyLines | lib/m3uzi.rb:110-120 | a valid file's turn contributes its key line, if any, and no other key line |
| Playlists.M3Uzi.constructor | lib/m3uzi.rb:19-29 | a new playlist: no tags or items, live, final, version 1, sequence 0, no window, nothing removed |
| Playlists.M3Uzi.CleanupSlidingWindow | lib/m3uzi.rb:363-370 | without a window or for a non-live playlist nothing changes; a valid file without a duration raises; otherwise exactly `Window.Evict`'s files are removed and counted, and the valid files then fit the window |
| Playlists.M3Uzi.AddFile | lib/m3uzi.rb:211-218 | the file is appended and the window cleaned up as above; no other field changes |
| Playlists.M3Uzi.AddStream | lib/m3uzi.rb:229-235 | the stream is appended; the files and valid files are unchanged |
| Playlists.M3Uzi.AddComment | lib/m3uzi.rb:272-277 | the comment is appended; the files and valid files are unchanged |
| Playlists.M3Uzi.AddTag | lib/m3uzi.rb:246-252 | the tag replaces a same-named tag in place or is appended, and its name then looks it up |
| Playlists.M3Uzi.CheckVersionRestrictions | lib/m3uzi.rb:283-313 | sets and returns `Version.InferVersion` of the items; nothing else changes |
| Playlists.M3Uzi.ResetEncryptionKeyHistory | lib/m3uzi.rb:142-146 | the key tracker is reset |
| Playlists.M3Uzi.GenerateEncryptionKeyLine | lib/m3uzi.rb:148-177 | the new tracker state and the line are `Trackers.KeyStep`'s |
| Playlists.M3Uzi.ResetByterangeHistory | lib/m3uzi.rb:179-181 | the endpoint is cleared |
| Playlists.M3Uzi.GenerateByterangeLine | lib/m3uzi.rb:183-204 | the line and endpoint are `Trackers.RangeStep`'s, or the call raises with the endpoint unchanged |
| Playlists.M3Uzi.WriteAutoHeader | lib/m3uzi.rb:88-102 | one turn of the header loop appends `Writer.AutoHeaderLine`'s line |
| Playlists.M3Uzi.WriteAutoHeaders | lib/m3uzi.rb:87-103 | the header loop writes `Writer.AutoHeaders` |
| Playlists.M3Uzi.WriteUserHeaders | lib/m3uzi.rb:105-107 | the stored tags loop writes `Writer.UserHeaders` |
| Playlists.M3Uzi.WriteItem | lib/m3uzi.rb:110-120 | one turn of the item loop: its lines, whether it raised, and the trackers after it, as `Writer.Body` of that item gives |
| Playlists.M3Uzi.WriteItems | lib/m3uzi.rb:109-121 | the item loop writes `Writer.Body` and leaves the trackers in its final state |
| Playlists.M3Uzi.WriteToIo | lib/m3uzi.rb:82-124 | the output is `Writer.Write` of the playlist; the version is recomputed and kept; the trackers end as the item loop leaves them |
| Playlists.M3Uzi.ReadLineInto | lib/m3uzi.rb:42-76 | one turn of the read loop fails exactly when `Reader.ReadLine` does, and otherwise leaves the tags, items and final flag it gives |
| Playlists.M3Uzi.Read | lib/m3uzi.rb:35-80 | `read` gives a fresh playlist exactly when `Reader.Read` succeeds, holding the tags, items and flag it gives, with every other field as new |

## Left out

- File and network I/O (`open(path).readlines`, `write`, the `io_stream <<` sink): lines come in and go out as `seq<string>` without their `\n`.
- `URI.join` in `format_path` is a library call: it is the parameter `join`.
- Floating point: durations, `to_f`, `ceil` and the eviction sums are exact reals, not IEEE doubles.
- `$stderr.puts` and the exception classes: a read that raises gives `None` (the index of the failing line in `Reader.ReadFrom`), and a write that raises gives the lines written before it.
- `valid?` and `format` of the Tag, M3UFile, Stream and Comment classes live in files that are not part of this model. They are the parameters `valid` and `format`.
- `Item#type` reads the class name; here it is the datatype's constructor.
- `[]` calls a `tags` method that the shown code does not define. `[]=` and `<<` only forward to `add_tag` and `add_comment`. `filenames` and `stream_names` only map over `items`. None of the five is modelled.
- `add_file`, `add_stream`, `add_tag` and `add_comment` take the item as their block leaves it; the optional positional arguments and the block itself are not modelled separately.
- `add_tag` with a `nil` name (its defaults) is not modelled: tag names are strings.
- A negative `sliding_window_duration`: the class invariant asks for a window that is not negative. With a negative window the Ruby loop never ends, even with a recomputed total.
- Playlists.M3Uzi.CleanupSlidingWindow: recomputes the total on every test instead of memoising it (see Findings), so it states the intended eviction, not the stuck or runaway loop of the code as written.
- Playlists.M3Uzi.constructor: starts the key tracker at its reset values, whereas Ruby leaves `@encryption_sequence` `nil` until `write_to_io` resets it; a call to `generate_encryption_key_line` before any reset raises in Ruby and is not modelled.
- Reader.ReadStream: assigns the four whitelisted attributes, as evidently intended; as written (lib/m3uzi.rb:63) no attribute is assigned and every stream keeps `nil` attributes (see Findings, where the as-written loop is modelled too).
- Playlists.M3Uzi.ReadLineInto: builds its streams with `Reader.ReadStream`, so it assigns the whitelisted attributes that the code as written drops.
- Playlists.M3Uzi.Read: builds its streams with `Reader.ReadStream`, so it assigns the whitelisted attributes that the code as written drops.
- Invalid byte sequences: lines are sequences of decoded characters. In Ruby a line with an invalid byte sequence makes the pattern tests of `type` raise `ArgumentError`, which the loop rescues (lib/m3uzi.rb:73-75), so that line is skipped. The model has no such line.
- The `default_iv` computed at lib/m3uzi.rb:151 is never used and is not modelled.
- Ruby integers are unbounded, as Dafny's are; no width is modelled.

## Findings

| source | as written | input that shows it | evidently intended | confidence | as-written member | corrected member |
|---|---|---|---|---|---|---|
| lib/m3uzi.rb:63 | the attribute name is a String and the whitelist holds Symbols, so `include?` is always false and no stream attribute is ever assigned | `#EXT-X-STREAM-INF:BANDWIDTH=1280000` followed by a path line: the stream's bandwidth stays `nil` | the four attributes `BANDWIDTH`, `PROGRAM-ID`, `CODECS` and `RESOLUTION` are assigned, quotes stripped | high; not executed | LineParser.AssignAttributesAsWritten, LineParser.AsWrittenAssignsNothing, LineParser.BandwidthIsDropped | LineParser.AssignAttributes, LineParser.AssignAttributesLastWins |
| lib/m3uzi.rb:316 | `@total_duration ||=` remembers the first total and nothing clears it, so the eviction loop tests a stale total | a live playlist with a 15-second window and two ten-second files keeps both (20 seconds); with a 5-second window, adding one ten-second file never returns | the total recomputed on each test, evicting the oldest valid files until the rest fit | high; not executed | Window.CleanupWithMemo, Window.MemoLetsWindowOverflow, Window.MemoSpinsForever | Window.Evict, Window.EvictKeepsShortestFittingSuffix, Playlists.M3Uzi.CleanupSlidingWindow |
