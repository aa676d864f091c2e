/**
 Tag lists of a post: the set-union merge of existing, discovered and
 user-added tags, and the removal of the user's --remove-tags, both as the
 tagging loop performs them on Python lists.
 */
module TagLists {
  import opened Common

  /** No tag occurs twice. */
  predicate NoDup(s: seq<string>) {
    forall i, j :: 0 <= i < j < |s| ==> s[i] != s[j]
  }

  /**
   The elements of `s`, each once, in order of first occurrence. Python's
   `list(set().union(...))` returns them in hash order instead; the model fixes
   one order, and NoDupPermutation shows all such listings are permutations
   of each other.
   */
  function Dedup(s: seq<string>): (r: seq<string>)
    ensures NoDup(r)
    ensures forall x :: x in r <==> x in s
    decreases |s|
  {
    if |s| == 0 then []
    else
      var d := Dedup(s[..|s| - 1]);
      var last := s[|s| - 1];
      assert s == s[..|s| - 1] + [last];
      if last in d then d else d + [last]
  }

  /** The elements of the optional user tag list, none when it is absent. */
  function OrNone(add: Option<seq<string>>): seq<string> {
    match add
    case Some(l) => l
    case None => []
  }

  /**
   `list(set().union(post.tags, tags, add_tags))`, or without `add_tags` when
   the user gave none: a duplicate-free list holding exactly the existing,
   discovered and added tags.
   */
  function Merge(existing: seq<string>, found: seq<string>, add: Option<seq<string>>): (r: seq<string>)
    ensures NoDup(r)
    ensures forall x :: x in r <==> x in existing || x in found || x in OrNone(add)
  {
    var all := if add.Some? then existing + found + add.value else existing + found;
    Dedup(all)
  }

  /** A duplicate-free list holds each of its elements exactly once. */
  lemma {:induction false} NoDupCounts(s: seq<string>, x: string)
    requires NoDup(s)
    ensures multiset(s)[x] == if x in s then 1 else 0
    decreases |s|
  {
    if |s| > 0 {
      assert s == [s[0]] + s[1..];
      assert NoDup(s[1..]) by {
        forall i, j | 0 <= i < j < |s[1..]| ensures s[1..][i] != s[1..][j] {
          assert s[1..][i] == s[i + 1] && s[1..][j] == s[j + 1];
        }
      }
      assert s[0] !in s[1..] by {
        forall k | 0 <= k < |s[1..]| ensures s[1..][k] != s[0] {
          assert s[1..][k] == s[k + 1];
        }
      }
      NoDupCounts(s[1..], x);
    }
  }

  /**
   Two duplicate-free lists with the same members are permutations of each
   other: whatever order Python's set iteration picks, the merged list is a
   rearrangement of Merge's.
   */
  lemma NoDupPermutation(a: seq<string>, b: seq<string>)
    requires NoDup(a) && NoDup(b)
    requires forall x :: x in a <==> x in b
    ensures multiset(a) == multiset(b)
  {
    forall x ensures multiset(a)[x] == multiset(b)[x] {
      NoDupCounts(a, x);
      NoDupCounts(b, x);
    }
  }

  /** Python's `s.remove(x)`: drops the first occurrence; it raises when `x` is absent. */
  function RemoveFirst(s: seq<string>, x: string): (r: seq<string>)
    requires x in s
    ensures |r| == |s| - 1
    decreases |s|
  {
    if s[0] == x then s[1..]
    else
      assert x in s[1..] by { assert s == [s[0]] + s[1..]; }
      [s[0]] + RemoveFirst(s[1..], x)
  }

  /** Removing drops exactly one copy of `x` and keeps everything else. */
  lemma {:induction false} RemoveFirstDropsOne(s: seq<string>, x: string)
    requires x in s
    ensures multiset(RemoveFirst(s, x)) == multiset(s) - multiset{x}
    decreases |s|
  {
    assert s == [s[0]] + s[1..];
    if s[0] != x {
      assert x in s[1..];
      RemoveFirstDropsOne(s[1..], x);
    }
  }

  /** The elements of `s` not listed in `drop`, in their original order. */
  function FilterOut(s: seq<string>, drop: seq<string>): (r: seq<string>)
    ensures forall x :: x in r <==> x in s && x !in drop
    ensures NoDup(s) ==> NoDup(r)
    decreases |s|
  {
    if |s| == 0 then []
    else
      var rest := FilterOut(s[1..], drop);
      assert forall x :: x in s <==> x == s[0] || x in s[1..];
      assert NoDup(s) ==> NoDup(rest) && s[0] !in rest by {
        if NoDup(s) {
          assert forall i, j :: 0 <= i < j < |s[1..]| ==> s[1..][i] == s[i + 1] && s[1..][j] == s[j + 1];
          assert forall k :: 0 <= k < |s[1..]| ==> s[1..][k] == s[k + 1];
        }
      }
      if s[0] in drop then rest else [s[0]] + rest
  }

  /** On a duplicate-free list, removing the first occurrence of `x` filters `x` out. */
  lemma {:induction false} RemoveFirstFilters(s: seq<string>, x: string)
    requires NoDup(s) && x in s
    ensures RemoveFirst(s, x) == FilterOut(s, [x])
    decreases |s|
  {
    if s[0] == x {
      assert x !in s[1..] by {
        forall k | 0 <= k < |s[1..]| ensures s[1..][k] != x {
          assert s[1..][k] == s[k + 1];
        }
      }
      FilterOutNothing(s[1..], [x]);
    } else {
      assert NoDup(s[1..]) by {
        forall i, j | 0 <= i < j < |s[1..]| ensures s[1..][i] != s[1..][j] {
          assert s[1..][i] == s[i + 1] && s[1..][j] == s[j + 1];
        }
      }
      assert x in s[1..] by { assert s == [s[0]] + s[1..]; }
      RemoveFirstFilters(s[1..], x);
    }
  }

  /** Filtering out tags that are not there changes nothing. */
  lemma {:induction false} FilterOutNothing(s: seq<string>, drop: seq<string>)
    requires forall x :: x in drop ==> x !in s
    ensures FilterOut(s, drop) == s
    decreases |s|
  {
    if |s| > 0 {
      assert s[0] in s;
      assert forall x :: x in s[1..] ==> x in s;
      FilterOutNothing(s[1..], drop);
      assert [s[0]] + s[1..] == s;
    }
  }

  /** Filtering in two rounds is filtering once by both lists. */
  lemma {:induction false} FilterOutTwice(s: seq<string>, a: seq<string>, b: seq<string>)
    ensures FilterOut(FilterOut(s, a), b) == FilterOut(s, a + b)
    decreases |s|
  {
    if |s| > 0 {
      FilterOutTwice(s[1..], a, b);
      assert s[0] in a + b <==> s[0] in a || s[0] in b;
    }
  }

  /**
   `[post.tags.remove(tag) for tag in remove_tags if tag in post.tags]`: each
   listed tag, in turn, loses its first occurrence if it still has one. On a
   duplicate-free list this keeps exactly the tags that are not listed, in
   their original order.
   */
  function RemoveTags(tags: seq<string>, drop: seq<string>): (r: seq<string>)
    ensures NoDup(tags) ==> r == FilterOut(tags, drop)
    decreases |drop|
  {
    if |drop| == 0 then
      assert NoDup(tags) ==> FilterOut(tags, drop) == tags by {
        if NoDup(tags) { FilterOutNothing(tags, drop); }
      }
      tags
    else
      var x := drop[0];
      var next := if x in tags then RemoveFirst(tags, x) else tags;
      var r := RemoveTags(next, drop[1..]);
      assert NoDup(tags) ==> r == FilterOut(tags, drop) by {
        if NoDup(tags) {
          if x in tags {
            RemoveFirstFilters(tags, x);
          } else {
            FilterOutNothing(tags, [x]);
          }
          assert next == FilterOut(tags, [x]);
          FilterOutTwice(tags, [x], drop[1..]);
          assert [x] + drop[1..] == drop;
        }
      }
      r
  }
}
