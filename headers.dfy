/**
 * `@header_tags` (lib/m3uzi.rb:20, :246-252): a Ruby Hash from tag name
 * to tag. Ruby hashes keep their keys in insertion order, and storing
 * under a key that is already present replaces the value where it is.
 * The map is modelled as a sequence of tags with distinct names.
 */
module Headers {
  import opened Wrappers
  import opened Items

  /** No two tags share a name, as in a hash keyed by name. */
  predicate DistinctNames(tags: seq<TagData>) {
    forall a, b :: 0 <= a < b < |tags| ==> tags[a].name != tags[b].name
  }

  /** `Hash#include?(name)`. */
  predicate Includes(tags: seq<TagData>, name: string) {
    exists k :: 0 <= k < |tags| && tags[k].name == name
  }

  /** `Hash#keys`. */
  function Names(tags: seq<TagData>): (r: seq<string>)
    ensures |r| == |tags| && forall k :: 0 <= k < |tags| ==> r[k] == tags[k].name
  {
    if tags == [] then [] else [tags[0].name] + Names(tags[1..])
  }

  /** `Hash#[](name)`: the tag stored under `name`, or `nil`. */
  function Lookup(tags: seq<TagData>, name: string): (r: Option<TagData>)
    ensures r.Some? <==> Includes(tags, name)
    ensures r.Some? ==> r.value in tags && r.value.name == name
  {
    if tags == [] then None
    else if tags[0].name == name then Some(tags[0])
    else
      var rest := Lookup(tags[1..], name);
      assert Includes(tags, name) <==> Includes(tags[1..], name) by {
        assert forall k :: 0 < k < |tags| ==> tags[k] == tags[1..][k - 1];
      }
      rest
  }

  /** `@header_tags[tag.name] = tag`. */
  function Upsert(tags: seq<TagData>, t: TagData): (r: seq<TagData>)
    ensures |r| == if Includes(tags, t.name) then |tags| else |tags| + 1
  {
    if tags == [] then [t]
    else if tags[0].name == t.name then [t] + tags[1..]
    else
      assert Includes(tags, t.name) <==> Includes(tags[1..], t.name) by {
        assert forall k :: 0 < k < |tags| ==> tags[k] == tags[1..][k - 1];
      }
      [tags[0]] + Upsert(tags[1..], t)
  }

  /** Storing under a name already present replaces that tag in its place. */
  lemma {:induction false} UpsertReplacesInPlace(tags: seq<TagData>, t: TagData, k: nat)
    requires DistinctNames(tags) && k < |tags| && tags[k].name == t.name
    ensures Upsert(tags, t) == tags[k := t]
    decreases k
  {
    if k > 0 {
      assert tags[0].name != t.name;
      UpsertReplacesInPlace(tags[1..], t, k - 1);
      assert [tags[0]] + tags[1..][k - 1 := t] == tags[k := t];
    }
  }

  /** A new name goes at the end. */
  lemma {:induction false} UpsertAppendsNew(tags: seq<TagData>, t: TagData)
    requires !Includes(tags, t.name)
    ensures Upsert(tags, t) == tags + [t]
    decreases |tags|
  {
    if tags != [] {
      assert tags[0].name != t.name;
      assert !Includes(tags[1..], t.name) by {
        assert forall k :: 0 < k < |tags| ==> tags[k] == tags[1..][k - 1];
      }
      UpsertAppendsNew(tags[1..], t);
      assert [tags[0]] + (tags[1..] + [t]) == tags + [t];
    }
  }

  /** Storing keeps the names distinct. */
  lemma UpsertKeepsNamesDistinct(tags: seq<TagData>, t: TagData)
    requires DistinctNames(tags)
    ensures DistinctNames(Upsert(tags, t))
  {
    if Includes(tags, t.name) {
      var k :| 0 <= k < |tags| && tags[k].name == t.name;
      UpsertReplacesInPlace(tags, t, k);
    } else {
      UpsertAppendsNew(tags, t);
    }
  }

  /** After storing `t`, looking up its name gives `t`, and every other name gives what it gave before. */
  lemma {:induction false} UpsertLookup(tags: seq<TagData>, t: TagData, name: string)
    ensures Lookup(Upsert(tags, t), name) == if name == t.name then Some(t) else Lookup(tags, name)
    decreases |tags|
  {
    if tags != [] && tags[0].name != t.name {
      var r := Upsert(tags, t);
      assert r[1..] == Upsert(tags[1..], t);
      UpsertLookup(tags[1..], t, name);
    }
  }

  /** Storing never reorders the names: an old name keeps its place and a new one is appended. */
  lemma UpsertNames(tags: seq<TagData>, t: TagData)
    requires DistinctNames(tags)
    ensures Names(Upsert(tags, t)) == if Includes(tags, t.name) then Names(tags) else Names(tags) + [t.name]
  {
    if Includes(tags, t.name) {
      var k :| 0 <= k < |tags| && tags[k].name == t.name;
      UpsertReplacesInPlace(tags, t, k);
    } else {
      UpsertAppendsNew(tags, t);
    }
  }
}
