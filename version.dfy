/**
 * `check_version_restrictions` (lib/m3uzi.rb:283-313): the protocol
 * version the writer announces. It starts at 1 and is raised to 2, 3
 * or 4 by the first item that needs a feature of that version.
 */
module Version {
  import opened Wrappers
  import opened Items

  /**
   * A file with a key URL and an IV (the version 2 rule). Ruby's `&&` tests
   * truthiness, so the symbol `:unset` counts as a key URL; only `nil` does not.
   */
  predicate UsesCustomIv(f: MediaFile) {
    f.encryptionKeyUrl != NoKey && f.encryptionIv.Some?
  }

  /** A duration of class Float (the version 3 rule tests the class, not the value). */
  predicate HasFloatDuration(f: MediaFile) {
    f.duration.Some? && f.duration.value.FloatDur?
  }

  /** A file with a byte range (a version 4 rule). */
  predicate HasByterange(f: MediaFile) {
    f.byterange.Some?
  }

  /** A tag named `MEDIA` or `I-FRAMES-ONLY` (the other version 4 rule). */
  predicate IsVersion4Tag(t: TagData) {
    t.name == "MEDIA" || t.name == "I-FRAMES-ONLY"
  }

  /** Whether item `it` needs version `threshold` (2, 3 or 4) by one of the four rules. */
  predicate Needs(valid: Item -> bool, it: Item, threshold: int) {
    valid(it) &&
    match it
    case FileItem(f) =>
      (threshold == 2 && UsesCustomIv(f)) || (threshold == 3 && HasFloatDuration(f)) ||
      (threshold == 4 && HasByterange(f))
    case TagItem(t) => threshold == 4 && IsVersion4Tag(t)
    case _ => false
  }

  /** Some item of the playlist needs version `threshold` (the `detect` calls). */
  predicate Triggered(valid: Item -> bool, items: seq<Item>, threshold: int) {
    exists i :: 0 <= i < |items| && Needs(valid, items[i], threshold)
  }

  /**
   * The version, computed as the source does: start at 1, then raise it to
   * 2, 3 and 4 in turn when the rule for that version fires and the
   * version is still below it. The result is the highest version any rule
   * asks for, or 1 when none fires.
   */
  function InferVersion(valid: Item -> bool, items: seq<Item>): (v: int)
    ensures 1 <= v <= 4
    ensures v == 1 <==> forall t :: 2 <= t <= 4 ==> !Triggered(valid, items, t)
    ensures v > 1 ==> Triggered(valid, items, v)
    ensures forall t :: 2 <= t <= 4 && Triggered(valid, items, t) ==> t <= v
  {
    var v1 := 1;
    var v2 := if Triggered(valid, items, 2) && v1 < 2 then 2 else v1;
    var v3 := if Triggered(valid, items, 3) && v2 < 3 then 3 else v2;
    var v4 := if Triggered(valid, items, 4) && v3 < 4 then 4 else v3;
    v4
  }

  /** Appending items never lowers the version. */
  lemma VersionMonotone(valid: Item -> bool, items: seq<Item>, more: seq<Item>)
    ensures InferVersion(valid, items) <= InferVersion(valid, items + more)
  {
    var v := InferVersion(valid, items);
    if v > 1 {
      var i :| 0 <= i < |items| && Needs(valid, items[i], v);
      assert (items + more)[i] == items[i];
      assert Triggered(valid, items + more, v);
    }
  }

  /** With no valid file and no valid `MEDIA` or `I-FRAMES-ONLY` tag, the version is 1. */
  lemma VersionOneWithoutFeatures(valid: Item -> bool, items: seq<Item>)
    requires forall i :: 0 <= i < |items| ==> !IsValidFile(valid, items[i])
    requires forall i :: 0 <= i < |items| && items[i].TagItem? && valid(items[i]) ==> !IsVersion4Tag(items[i].tag)
    ensures InferVersion(valid, items) == 1
  {
    forall t | 2 <= t <= 4 ensures !Triggered(valid, items, t) {
      forall i | 0 <= i < |items| ensures !Needs(valid, items[i], t) {
        assert !IsValidFile(valid, items[i]);
      }
    }
  }

  /**
   * Without Tag items in the playlist the tag rule never fires: only a
   * ranged valid file can ask for version 4.
   */
  lemma NoTagItemsNoTagRule(valid: Item -> bool, items: seq<Item>)
    requires forall i :: 0 <= i < |items| ==> !items[i].TagItem?
    ensures InferVersion(valid, items) == 4 <==>
      exists i :: 0 <= i < |items| && IsValidFile(valid, items[i]) && HasByterange(items[i].file)
  {
    if InferVersion(valid, items) == 4 {
      var i :| 0 <= i < |items| && Needs(valid, items[i], 4);
      assert IsValidFile(valid, items[i]) && HasByterange(items[i].file);
    }
  }

  /** One valid file with a Float duration is enough for version 3 or more. */
  lemma FloatFileNeedsVersion3(valid: Item -> bool, items: seq<Item>, i: nat)
    requires i < |items| && IsValidFile(valid, items[i]) && HasFloatDuration(items[i].file)
    ensures InferVersion(valid, items) >= 3
  {
    assert Needs(valid, items[i], 3);
  }
}
