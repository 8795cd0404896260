/**
 * The playlist items (lib/m3uzi/item.rb and the four item classes built on
 * it). The item classes' own files are not part of this model: their
 * fields are listed here as the playlist code reads and writes them, and
 * their `valid?` and `format` overrides are parameters of the playlist.
 */
module Items {
  import opened Wrappers

  /**
   * A file's `encryption_key_url`: the symbol `:unset` (never specified),
   * `nil` (encryption explicitly switched off) or a key URL.
   */
  datatype KeyUrl = Unset | NoKey | Url(url: string)

  /** A duration as Ruby holds it: an Integer or a Float (the version rules test the class). */
  datatype Duration = IntDur(whole: int) | FloatDur(float: real) {

    /** `Numeric#to_f`. */
    function ToReal(): real {
      match this
      case IntDur(n) => n as real
      case FloatDur(r) => r
    }
  }

  /** An `M3Uzi::Tag`: a directive name such as `#EXT-X-ALLOW-CACHE` and an optional value. */
  datatype TagData = TagData(name: string, value: Option<string>)

  /** An `M3Uzi::M3UFile` (a media segment). */
  datatype MediaFile = MediaFile(
    path: Option<string>,
    duration: Option<Duration>,
    description: Option<string>,
    encryptionKeyUrl: KeyUrl,
    encryptionIv: Option<string>,
    byterange: Option<int>,
    byterangeOffset: Option<int>)

  /** An `M3Uzi::Stream` (a variant stream of a master playlist). */
  datatype VariantStream = VariantStream(
    path: Option<string>,
    bandwidth: Option<string>,
    programId: Option<string>,
    codecs: Option<string>,
    resolution: Option<string>)

  /**
   * An object of a subclass of `M3Uzi::Item`. `OtherItem` stands for a
   * subclass outside the four the library defines.
   */
  datatype Item =
    | TagItem(tag: TagData)
    | FileItem(file: MediaFile)
    | StreamItem(stream: VariantStream)
    | CommentItem(text: Option<string>)
    | OtherItem(className: string)

  /** The symbols `:file`, `:stream`, `:tag` and `:comment`. */
  datatype Kind = FileKind | StreamKind | TagKind | CommentKind

  /** `Item#valid?` as the base class defines it, before any subclass overrides it. */
  function BaseValid(it: Item): (b: bool)
    ensures b
  {
    true
  }

  /** `Item#type`: the kind named after the object's class, `nil` for any other class. */
  function Type(it: Item): Option<Kind> {
    match it
    case FileItem(_) => Some(FileKind)
    case StreamItem(_) => Some(StreamKind)
    case TagItem(_) => Some(TagKind)
    case CommentItem(_) => Some(CommentKind)
    case OtherItem(_) => None
  }

  predicate IsFile(it: Item) {
    Type(it) == Some(FileKind)
  }

  predicate IsStream(it: Item) {
    Type(it) == Some(StreamKind)
  }

  predicate IsTag(it: Item) {
    Type(it) == Some(TagKind)
  }

  predicate IsComment(it: Item) {
    Type(it) == Some(CommentKind)
  }

  /** Objects of two different item classes among the four never share a kind. */
  lemma TypeSeparatesClasses(a: Item, b: Item)
    requires !a.OtherItem? && !b.OtherItem?
    ensures Type(a).Some?
    ensures Type(a) == Type(b) <==>
      (a.FileItem? && b.FileItem?) || (a.StreamItem? && b.StreamItem?) ||
      (a.TagItem? && b.TagItem?) || (a.CommentItem? && b.CommentItem?)
  {
  }

  /** `file?` holds exactly of files, and likewise for the other three: at most one holds. */
  lemma KindPredicatesExclusive(it: Item)
    ensures IsFile(it) <==> it.FileItem?
    ensures IsStream(it) <==> it.StreamItem?
    ensures IsTag(it) <==> it.TagItem?
    ensures IsComment(it) <==> it.CommentItem?
    ensures (if IsFile(it) then 1 else 0) + (if IsStream(it) then 1 else 0) +
            (if IsTag(it) then 1 else 0) + (if IsComment(it) then 1 else 0) <= 1
  {
  }

  /** An object of any other class has no kind, and none of the four predicates holds. */
  lemma OtherClassHasNoKind(it: Item)
    requires it.OtherItem?
    ensures Type(it) == None
    ensures !IsFile(it) && !IsStream(it) && !IsTag(it) && !IsComment(it)
  {
  }

  /**
   * `M3UFile.new` with the path and duration `add_file` is given. The other
   * fields start as the (unshown) class initialises them: the key URL
   * `:unset`, everything else `nil`.
   */
  function NewFile(path: Option<string>, duration: Option<Duration>): MediaFile {
    MediaFile(path, duration, None, Unset, None, None, None)
  }

  /** `Stream.new` with the path and bandwidth `add_stream` is given. */
  function NewStream(path: Option<string>, bandwidth: Option<string>): VariantStream {
    VariantStream(path, bandwidth, None, None, None)
  }

  /** An item `valid_items(M3UFile)` selects: a file its class calls valid. */
  predicate IsValidFile(valid: Item -> bool, it: Item) {
    it.FileItem? && valid(it)
  }

  /** `items(M3UFile).length`: how many files the playlist holds, valid or not. */
  function FileCount(items: seq<Item>): (n: nat)
    ensures n <= |items|
    ensures n == 0 <==> forall i :: 0 <= i < |items| ==> !items[i].FileItem?
  {
    if items == [] then 0 else (if items[0].FileItem? then 1 else 0) + FileCount(items[1..])
  }

  /** `valid_items(M3UFile)`: the valid files, in playlist order. */
  function ValidFiles(valid: Item -> bool, items: seq<Item>): (r: seq<MediaFile>)
    ensures |r| <= |items|
    ensures forall f :: f in r <==> exists i :: 0 <= i < |items| && IsValidFile(valid, items[i]) && items[i].file == f
  {
    if items == [] then []
    else
      var rest := ValidFiles(valid, items[1..]);
      assert forall i :: 0 < i < |items| ==> items[i] == items[1..][i - 1];
      if IsValidFile(valid, items[0]) then [items[0].file] + rest else rest
  }

  /** The items that are not valid files, in playlist order. */
  function OtherItems(valid: Item -> bool, items: seq<Item>): (r: seq<Item>)
    ensures forall it :: it in r <==> it in items && !IsValidFile(valid, it)
  {
    if items == [] then []
    else
      var rest := OtherItems(valid, items[1..]);
      assert forall it :: it in items <==> it == items[0] || it in items[1..];
      if IsValidFile(valid, items[0]) then rest else [items[0]] + rest
  }

  /** Splitting a playlist splits its valid files the same way. */
  lemma {:induction false} ValidFilesOfAppend(valid: Item -> bool, a: seq<Item>, b: seq<Item>)
    ensures ValidFiles(valid, a + b) == ValidFiles(valid, a) + ValidFiles(valid, b)
    decreases |a|
  {
    if a == [] {
      assert a + b == b;
    } else {
      assert (a + b)[1..] == a[1..] + b;
      ValidFilesOfAppend(valid, a[1..], b);
    }
  }

  /** Splitting a playlist splits its other items the same way. */
  lemma {:induction false} OtherItemsOfAppend(valid: Item -> bool, a: seq<Item>, b: seq<Item>)
    ensures OtherItems(valid, a + b) == OtherItems(valid, a) + OtherItems(valid, b)
    decreases |a|
  {
    if a == [] {
      assert a + b == b;
    } else {
      assert (a + b)[1..] == a[1..] + b;
      OtherItemsOfAppend(valid, a[1..], b);
    }
  }

  /** Splitting a playlist splits its file count the same way. */
  lemma {:induction false} FileCountOfAppend(a: seq<Item>, b: seq<Item>)
    ensures FileCount(a + b) == FileCount(a) + FileCount(b)
    decreases |a|
  {
    if a == [] {
      assert a + b == b;
    } else {
      assert (a + b)[1..] == a[1..] + b;
      FileCountOfAppend(a[1..], b);
    }
  }
}
