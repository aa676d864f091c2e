/**
 Copying tags from related posts (set_tags_from_relations): every tag of
 every related post whose category passes the filter is appended, in order,
 to the current post's tag list.
 */
module RelationTags {

  /** A tag of a related post as the server returns it. */
  datatype RelationTag = RelationTag(name: string, category: string)

  /**
   The filter as written: `not category == 'default' or not category == 'meta'`.
   No category equals both strings, so the filter passes every tag, including
   the `default` and `meta` ones the comment above it means to skip.
   */
  function CopiesRelationTag(category: string): (copied: bool)
    ensures copied
  {
    !(category == "default") || !(category == "meta")
  }

  /** The names of `tags`, in order (no filtering). */
  function Names(tags: seq<RelationTag>): seq<string> {
    if |tags| == 0 then [] else [tags[0].name] + Names(tags[1..])
  }

  /** The names of all tags of all related posts, post by post. */
  function AllNames(related: seq<seq<RelationTag>>): seq<string> {
    if |related| == 0 then [] else Names(related[0]) + AllNames(related[1..])
  }

  /** The inner loop: appends the names of one related post's tags that pass the filter. */
  function AppendRelationTags(tags: seq<string>, relationTags: seq<RelationTag>): (r: seq<string>)
    ensures r == tags + Names(relationTags)
    decreases |relationTags|
  {
    if |relationTags| == 0 then tags
    else
      var t := relationTags[0];
      var next := if CopiesRelationTag(t.category) then tags + [t.name] else tags;
      var r := AppendRelationTags(next, relationTags[1..]);
      assert tags + Names(relationTags) == tags + [t.name] + Names(relationTags[1..]);
      r
  }

  /**
   The outer loop over the post's relations; `related` holds the tag lists of
   the related posts as fetched from the server, in relation order.
   */
  function SetTagsFromRelations(tags: seq<string>, related: seq<seq<RelationTag>>): (r: seq<string>)
    ensures r == tags + AllNames(related)
    decreases |related|
  {
    if |related| == 0 then tags
    else
      var r := SetTagsFromRelations(AppendRelationTags(tags, related[0]), related[1..]);
      assert tags + AllNames(related) == tags + Names(related[0]) + AllNames(related[1..]);
      r
  }

  /** In particular a related post's `meta` and `default` tags are copied too. */
  lemma MetaAndDefaultTagsCopied(tags: seq<string>, related: seq<seq<RelationTag>>, k: int, j: int)
    requires 0 <= k < |related| && 0 <= j < |related[k]|
    ensures related[k][j].name in SetTagsFromRelations(tags, related)
  {
    NamesContain(related[k], j);
    AllNamesContain(related, k, related[k][j].name);
  }

  lemma {:induction false} NamesContain(tags: seq<RelationTag>, j: int)
    requires 0 <= j < |tags|
    ensures tags[j].name in Names(tags)
    decreases j
  {
    if j > 0 {
      NamesContain(tags[1..], j - 1);
    }
  }

  lemma {:induction false} AllNamesContain(related: seq<seq<RelationTag>>, k: int, name: string)
    requires 0 <= k < |related| && name in Names(related[k])
    ensures name in AllNames(related)
    decreases k
  {
    if k > 0 {
      AllNamesContain(related[1..], k - 1, name);
    }
  }
}
