/**
 Command-line handling of the auto-tagger: the query must not filter by post
 type, and the tag lists given with --add-tags and --remove-tags are
 comma-separated.
 */
module Args {
  import opened Common

  /** The search token the post server reserves for filtering by post type. */
  const TypeToken: string := "type:"

  const Comma: char := ','

  /** `t` sits in `s` starting at index `i`. */
  ghost predicate OccursAt(t: string, s: string, i: int) {
    0 <= i <= |s| - |t| && s[i..i + |t|] == t
  }

  /** `t` occurs as a contiguous piece of `s` (Python's `t in s` on strings). */
  ghost predicate IsSubstring(t: string, s: string) {
    exists i :: OccursAt(t, s, i)
  }

  /** Executable substring test, scanning `s` from the left. */
  function Occurs(t: string, s: string): (b: bool)
    ensures b <==> IsSubstring(t, s)
    decreases |s|
  {
    if |s| < |t| then false
    else if s[..|t|] == t then assert OccursAt(t, s, 0); true
    else
      var b := Occurs(t, s[1..]);
      assert b ==> IsSubstring(t, s) by {
        if b {
          var i :| OccursAt(t, s[1..], i);
          assert s[i + 1..i + 1 + |t|] == s[1..][i..i + |t|];
          assert OccursAt(t, s, i + 1);
        }
      }
      assert IsSubstring(t, s) ==> b by {
        if IsSubstring(t, s) {
          var i :| OccursAt(t, s, i);
          assert i != 0;
          assert s[1..][i - 1..i - 1 + |t|] == s[i..i + |t|];
          assert OccursAt(t, s[1..], i - 1);
        }
      }
      b
  }

  /** Python's `sep.join(parts)`. */
  function Join(parts: seq<string>, sep: char): string {
    if |parts| == 0 then ""
    else if |parts| == 1 then parts[0]
    else parts[0] + [sep] + Join(parts[1..], sep)
  }

  /**
   Python's `s.split(sep)` with an explicit separator: the pieces between
   separators, including empty ones, so there is always at least one piece.
   */
  function Split(s: string, sep: char): (parts: seq<string>)
    ensures |parts| >= 1
    ensures forall k :: 0 <= k < |parts| ==> sep !in parts[k]
    ensures Join(parts, sep) == s
    decreases |s|
  {
    if |s| == 0 then [""]
    else
      var rest := Split(s[1..], sep);
      if s[0] == sep then
        assert [sep] + s[1..] == s;
        [""] + rest
      else
        var parts := [[s[0]] + rest[0]] + rest[1..];
        assert parts[1..] == rest[1..];
        assert Join(parts, sep) == [s[0]] + Join(rest, sep);
        assert [s[0]] + s[1..] == s;
        parts
  }

  /** Splitting a comma-free-pieces join gives the pieces back. */
  lemma {:induction false} SplitJoin(parts: seq<string>, sep: char)
    requires |parts| >= 1
    requires forall k :: 0 <= k < |parts| ==> sep !in parts[k]
    ensures Split(Join(parts, sep), sep) == parts
    decreases |parts|, |parts[0]|
  {
    if |parts| == 1 {
      SplitPiece(parts[0], sep);
    } else if |parts[0]| == 0 {
      var tail := Join(parts[1..], sep);
      assert Join(parts, sep) == [sep] + tail;
      assert (Join(parts, sep))[1..] == tail;
      SplitJoin(parts[1..], sep);
      assert [""] + parts[1..] == parts;
    } else {
      var c := parts[0][0];
      var shorter := [parts[0][1..]] + parts[1..];
      assert shorter[1..] == parts[1..];
      assert Join(shorter, sep) == parts[0][1..] + [sep] + Join(parts[1..], sep);
      assert Join(parts, sep) == [c] + Join(shorter, sep) by {
        assert parts[0] == [c] + parts[0][1..];
      }
      assert c != sep by { assert parts[0][0] in parts[0]; }
      SplitJoin(shorter, sep);
      assert (Join(parts, sep))[1..] == Join(shorter, sep);
      assert [[c] + shorter[0]] + shorter[1..] == parts by {
        assert [c] + parts[0][1..] == parts[0];
      }
    }
  }

  /** A piece without the separator splits into itself. */
  lemma {:induction false} SplitPiece(s: string, sep: char)
    requires sep !in s
    ensures Split(s, sep) == [s]
    decreases |s|
  {
    if |s| > 0 {
      assert sep !in s[1..] by {
        forall k | 0 <= k < |s[1..]| ensures s[1..][k] != sep {
          assert s[1..][k] == s[k + 1];
        }
      }
      SplitPiece(s[1..], sep);
      assert [s[0]] + s[1..] == s;
    }
  }

  /** The raw command-line values the auto-tagger reads (the Sankaku URL is not modelled). */
  datatype CliArgs = CliArgs(query: string, addTags: Option<string>, removeTags: Option<string>)

  /** The values returned to the tagging loop. */
  datatype ParsedArgs = ParsedArgs(
    query: string,
    addTags: Option<seq<string>>,
    removeTags: Option<seq<string>>,
    /** the query contains a single quote, which only triggers a logged warning */
    quoteWarning: bool)

  datatype UsageError = TypeTokenInQuery

  /**
   A tag-list argument: split on commas when present and non-empty; an absent
   or empty argument is no list at all (both are falsy in Python and every
   later use tests the value for truth first).
   */
  function TagListArg(raw: Option<string>): (r: Option<seq<string>>)
    ensures r.Some? <==> raw.Some? && raw.value != ""
    ensures r.Some? ==> |r.value| >= 1 && Join(r.value, Comma) == raw.value
    ensures r.Some? ==> forall k :: 0 <= k < |r.value| ==> Comma !in r.value[k]
  {
    match raw
    case Some(s) => if s != "" then Some(Split(s, Comma)) else None
    case None => None
  }

  /** The checks and conversions of parse_args after argparse has run. */
  function ParseArgs(a: CliArgs): (r: Result<ParsedArgs, UsageError>)
    ensures r.Failure? <==> IsSubstring(TypeToken, a.query)
    ensures r.Success? ==> r.value.query == a.query
    ensures r.Success? ==> r.value.addTags == TagListArg(a.addTags)
    ensures r.Success? ==> r.value.removeTags == TagListArg(a.removeTags)
    ensures r.Success? ==> (r.value.quoteWarning <==> '\'' in a.query)
  {
    if Occurs(TypeToken, a.query) then Failure(TypeTokenInQuery)
    else Success(ParsedArgs(a.query, TagListArg(a.addTags), TagListArg(a.removeTags), '\'' in a.query))
  }
}
