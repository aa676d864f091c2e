/**
 Removal of the placeholder tags `deepbooru` and `tagme` before a post is
 updated. The source removes them from the list it is iterating over, so the
 element that follows a removed placeholder moves into the slot the iterator
 has already visited and is never examined.
 */
module Placeholders {
  import opened TagLists

  predicate IsPlaceholder(tag: string) {
    tag == "deepbooru" || tag == "tagme"
  }

  /** The tags that are not placeholders, in order. */
  function Others(s: seq<string>): (r: seq<string>)
    ensures forall x :: x in r <==> x in s && !IsPlaceholder(x)
    decreases |s|
  {
    if |s| == 0 then []
    else
      var rest := Others(s[1..]);
      assert forall x :: x in s <==> x == s[0] || x in s[1..];
      if IsPlaceholder(s[0]) then rest else [s[0]] + rest
  }

  /**
   What remove-while-iterating leaves of a duplicate-free list: a placeholder
   is dropped and the element after it is kept unexamined.
   */
  function Sweep(s: seq<string>): seq<string>
    decreases |s|
  {
    if |s| == 0 then []
    else if IsPlaceholder(s[0]) then
      if |s| == 1 then [] else [s[1]] + Sweep(s[2..])
    else [s[0]] + Sweep(s[1..])
  }

  /**
   `[tags.remove(tag) for tag in tags if tag == 'deepbooru' or tag == 'tagme']`
   step by step: Python's list iterator reads position `i` of the current list
   and advances, while `remove` deletes the first occurrence of the tag.
   */
  method RemovePlaceholders(tags: seq<string>) returns (r: seq<string>)
    ensures Others(r) == Others(tags)
    ensures NoDup(tags) ==> r == Sweep(tags)
  {
    r := tags;
    var i := 0;
    while i < |r|
      invariant 0 <= i <= |r| + 1
      invariant SweepState(tags, r, i)
      decreases |r| + 1 - i
    {
      var tag := r[i];
      i := i + 1;
      if IsPlaceholder(tag) {
        RemovalKeepsState(tags, r, i - 1);
        r := RemoveFirst(r, tag);
      } else {
        SkipKeepsState(tags, r, i - 1);
      }
    }
    assert Min(i, |r|) == |r| && r[..|r|] == r;
  }

  /**
   The loop invariant of RemovePlaceholders: the other tags are untouched and,
   for a duplicate-free input, the visited prefix followed by the sweep of the
   rest is the sweep of the input.
   */
  ghost predicate SweepState(tags: seq<string>, r: seq<string>, i: int)
    requires 0 <= i
  {
    && Others(r) == Others(tags)
    && (NoDup(tags) ==> NoDup(r) && Sweep(tags) == r[..Min(i, |r|)] + Sweep(r[Min(i, |r|)..]))
  }

  lemma RemovalKeepsState(tags: seq<string>, r: seq<string>, i: int)
    requires 0 <= i < |r| && IsPlaceholder(r[i])
    requires SweepState(tags, r, i)
    ensures SweepState(tags, RemoveFirst(r, r[i]), i + 1)
  {
    RemovingPlaceholderKeepsOthers(r, r[i]);
    if NoDup(tags) {
      assert Min(i, |r|) == i;
      RemoveFirstFilters(r, r[i]);
      assert r[i] !in r[..i] by {
        assert forall k :: 0 <= k < i ==> r[k] != r[i];
      }
      RemoveFirstAt(r, i);
      SweepStepRemoved(r, i);
    }
  }

  lemma SkipKeepsState(tags: seq<string>, r: seq<string>, i: int)
    requires 0 <= i < |r| && !IsPlaceholder(r[i])
    requires SweepState(tags, r, i)
    ensures SweepState(tags, r, i + 1)
  {
    if NoDup(tags) {
      assert Min(i, |r|) == i && Min(i + 1, |r|) == i + 1;
      SweepSkip(r, i);
    }
  }

  /** Visiting a tag that is not a placeholder moves it into the visited prefix. */
  lemma SweepSkip(r: seq<string>, i: int)
    requires 0 <= i < |r| && !IsPlaceholder(r[i])
    ensures r[..i] + Sweep(r[i..]) == r[..i + 1] + Sweep(r[i + 1..])
  {
    var t := r[i..];
    assert t[0] == r[i] && t[1..] == r[i + 1..];
    assert r[..i + 1] == r[..i] + [r[i]];
  }

  function Min(a: int, b: int): int {
    if a < b then a else b
  }

  /** Removing a placeholder leaves the other tags as they were. */
  lemma {:induction false} RemovingPlaceholderKeepsOthers(s: seq<string>, x: string)
    requires x in s && IsPlaceholder(x)
    ensures Others(RemoveFirst(s, x)) == Others(s)
    decreases |s|
  {
    if s[0] != x {
      assert x in s[1..] by { assert s == [s[0]] + s[1..]; }
      RemovingPlaceholderKeepsOthers(s[1..], x);
      assert RemoveFirst(s, x)[1..] == RemoveFirst(s[1..], x);
    }
  }

  /** Removing an element whose first occurrence is at `i` removes position `i`. */
  lemma {:induction false} RemoveFirstAt(s: seq<string>, i: int)
    requires 0 <= i < |s| && s[i] !in s[..i]
    ensures RemoveFirst(s, s[i]) == s[..i] + s[i + 1..]
    decreases i
  {
    if i > 0 {
      var tail := s[1..];
      assert s[0] in s[..i];
      assert tail[i - 1] == s[i];
      assert tail[..i - 1] == s[1..i];
      assert s[i] !in tail[..i - 1] by {
        assert forall y :: y in s[1..i] ==> y in s[..i];
      }
      RemoveFirstAt(tail, i - 1);
      assert tail[i..] == s[i + 1..];
      assert [s[0]] + s[1..i] == s[..i];
    } else {
      assert s[..0] + s[1..] == s[1..];
    }
  }

  /** One iteration that removes the placeholder at position `i` keeps the loop invariant. */
  lemma SweepStepRemoved(r: seq<string>, i: int)
    requires 0 <= i < |r| && IsPlaceholder(r[i])
    ensures var r' := r[..i] + r[i + 1..];
      r[..i] + Sweep(r[i..]) == r'[..Min(i + 1, |r'|)] + Sweep(r'[Min(i + 1, |r'|)..])
  {
    var r' := r[..i] + r[i + 1..];
    assert r[i..] == [r[i]] + r[i + 1..];
    if i + 1 < |r| {
      assert r'[..i + 1] == r[..i] + [r[i + 1]];
      assert r'[i + 1..] == r[i + 2..];
      assert r[i..][2..] == r[i + 2..];
    } else {
      assert r'[..i] == r[..i];
      assert r'[i..] == [];
    }
  }

  /** The sweep drops nothing but placeholders and keeps the other tags in order. */
  lemma {:induction false} SweepKeepsOthers(s: seq<string>)
    ensures Others(Sweep(s)) == Others(s)
    decreases |s|
  {
    if |s| > 1 && IsPlaceholder(s[0]) {
      SweepKeepsOthers(s[2..]);
      assert s[1..][1..] == s[2..];
    } else if |s| > 0 {
      SweepKeepsOthers(s[1..]);
    }
  }

  /** The sweep keeps only elements of its input and introduces no duplicates. */
  lemma {:induction false} SweepSublist(s: seq<string>)
    requires NoDup(s)
    ensures forall x :: x in Sweep(s) ==> x in s
    ensures NoDup(Sweep(s))
    decreases |s|
  {
    if |s| == 0 {
    } else {
      var k := if IsPlaceholder(s[0]) then 2 else 1;
      if k <= |s| {
        var tail := s[k..];
        assert NoDup(tail) by {
          forall a, b | 0 <= a < b < |tail| ensures tail[a] != tail[b] {
            assert tail[a] == s[a + k] && tail[b] == s[b + k];
          }
        }
        SweepSublist(tail);
        assert forall x :: x in tail ==> x in s by {
          forall x | x in tail ensures x in s {
            var j :| 0 <= j < |tail| && tail[j] == x;
            assert s[j + k] == x;
          }
        }
        var kept := s[k - 1];
        assert kept !in tail by {
          forall j | 0 <= j < |tail| ensures tail[j] != kept {
            assert tail[j] == s[j + k];
          }
        }
      }
    }
  }

  /**
   If the duplicate-free list does not hold both placeholders, the one it
   holds (if any) is removed.
   */
  lemma {:induction false} SweepRemovesSinglePlaceholder(s: seq<string>)
    requires NoDup(s)
    requires !("deepbooru" in s && "tagme" in s)
    ensures forall x :: x in Sweep(s) ==> !IsPlaceholder(x)
    decreases |s|
  {
    if |s| == 0 {
    } else {
      var k := if IsPlaceholder(s[0]) then 2 else 1;
      if k <= |s| {
        var tail := s[k..];
        assert NoDup(tail) by {
          forall a, b | 0 <= a < b < |tail| ensures tail[a] != tail[b] {
            assert tail[a] == s[a + k] && tail[b] == s[b + k];
          }
        }
        assert forall x :: x in tail ==> x in s by {
          forall x | x in tail ensures x in s {
            var j :| 0 <= j < |tail| && tail[j] == x;
            assert s[j + k] == x;
          }
        }
        SweepRemovesSinglePlaceholder(tail);
        if k == 2 {
          assert s[0] != s[1];
          assert !IsPlaceholder(s[1]);
        }
      }
    }
  }

  /**
   Two adjacent placeholders after placeholder-free tags: the first is
   removed and the second survives the sweep.
   */
  lemma {:induction false} AdjacentPlaceholderSurvives(before: seq<string>, pair: seq<string>, after: seq<string>)
    requires forall x :: x in before ==> !IsPlaceholder(x)
    requires pair == ["deepbooru", "tagme"] || pair == ["tagme", "deepbooru"]
    ensures Sweep(before + pair + after) == before + [pair[1]] + Sweep(after)
    decreases |before|
  {
    var s := before + pair + after;
    if |before| == 0 {
      assert s == [pair[0], pair[1]] + after;
      assert s[2..] == after;
    } else {
      assert s[0] == before[0] && !IsPlaceholder(s[0]);
      assert s[1..] == before[1..] + pair + after;
      AdjacentPlaceholderSurvives(before[1..], pair, after);
      assert [before[0]] + before[1..] == before;
    }
  }
}
