/**
 The tagging loop of the auto-tagger: for every post matching the query it
 asks SauceNAO and/or Deepbooru for tags, merges them into the post's tags,
 strips the user's remove-tags and the placeholder tags, and pushes the post
 back to the server when anything was found. The server, SauceNAO and
 Deepbooru are replaced by the values they answered with.
 */
module Tagger {
  import opened Common
  import opened Args
  import opened Quota
  import opened TagLists
  import opened Placeholders
  import opened RelationTags

  /** The configuration switches the loop reads. */
  datatype Config = Config(
    saucenaoEnabled: bool,
    deepbooruEnabled: bool,
    /** run Deepbooru even when SauceNAO found tags */
    deepbooruForced: bool,
    /** SauceNAO can fetch the image from the server itself */
    serverPublic: bool)

  /**
   A post as fetched from the server; `related` holds the tags of the posts it
   has relations to, one list per relation, as the server returns them.
   */
  datatype Post = Post(id: nat, tags: seq<string>, safety: string, related: seq<seq<RelationTag>>)

  /**
   What SauceNAO answered for a post: the raw tags, the same tags after
   sanitize_tags (which is not part of this model), the rating, and the calls
   left in the short and long windows.
   */
  datatype SauceResponse = SauceResponse(
    tags: seq<string>,
    sanitized: seq<string>,
    rating: string,
    limitShort: int,
    limitLong: int)

  datatype DeepbooruResponse = DeepbooruResponse(tags: seq<string>, rating: string)

  /** One post of the query result together with the answers its collaborators give. */
  datatype PostInput = PostInput(post: Post, sauce: SauceResponse, deepbooru: DeepbooruResponse)

  /** The statistics counters the loop bumps. */
  datatype Stats = Stats(tagged: int, deepbooru: int, untagged: int)

  /** What carries over from one post to the next. */
  datatype RunState = RunState(
    stats: Stats,
    /** the configuration flag, which the loop may switch off */
    saucenaoEnabled: bool,
    /** the posts pushed back to the server, in order */
    updates: seq<Post>)

  /** The user's --add-tags and --remove-tags lists. */
  datatype TagOptions = TagOptions(add: Option<seq<string>>, remove: Option<seq<string>>)

  /**
   Exceptions that end the run through the catch-all around main:
   ClassifierNotLoaded when Deepbooru is forced but never loaded (`deepbooru`
   is unbound), NoTempFile when the loop deletes the temporary file of a post
   it never downloaded (`os.path.exists(None)` raises TypeError).
   */
  datatype Fault = ClassifierNotLoaded | NoTempFile

  datatype StepResult =
    | Next(state: RunState, limitReached: bool, backoff: bool, stop: bool)
    | Crash(fault: Fault, state: RunState)

  /** The sanitized SauceNAO tags of the post, none when SauceNAO is off. */
  function SearchTags(st: RunState, input: PostInput): seq<string> {
    if st.saucenaoEnabled then input.sauce.sanitized else []
  }

  /** Deepbooru is asked when SauceNAO found nothing, or always when forced. */
  predicate ClassifierRuns(cfg: Config, st: RunState, input: PostInput) {
    (|SearchTags(st, input)| == 0 && cfg.deepbooruEnabled) || cfg.deepbooruForced
  }

  /** The `tags` the loop ends the post with: Deepbooru's if it ran, else SauceNAO's. */
  function FoundTags(cfg: Config, st: RunState, input: PostInput): seq<string> {
    if ClassifierRuns(cfg, st, input) then input.deepbooru.tags else SearchTags(st, input)
  }

  /** The image is downloaded when the server is private or Deepbooru needs pixels. */
  predicate Downloaded(cfg: Config) {
    !cfg.serverPublic || cfg.deepbooruEnabled
  }

  /**
   Every tag the post can end up with: its own, the ones SauceNAO and
   Deepbooru found, the ones copied from related posts, and the user's.
   */
  function Discovered(cfg: Config, st: RunState, input: PostInput, opts: TagOptions): seq<string> {
    var classify := ClassifierRuns(cfg, st, input);
    input.post.tags + SearchTags(st, input)
      + (if classify then AllNames(input.post.related) + input.deepbooru.tags else [])
      + OrNone(opts.add)
  }

  /**
   The post's tag list after the SauceNAO merge and, when Deepbooru ran, the
   copy from related posts and the Deepbooru merge. Whenever a merge ran the
   list is duplicate-free and holds exactly the discovered tags.
   */
  function MergedTags(cfg: Config, st: RunState, input: PostInput, opts: TagOptions): (r: seq<string>)
    ensures st.saucenaoEnabled || ClassifierRuns(cfg, st, input) ==>
      NoDup(r) && forall x :: x in r <==> x in Discovered(cfg, st, input, opts)
    ensures !st.saucenaoEnabled && !ClassifierRuns(cfg, st, input) ==> r == input.post.tags
  {
    var post := input.post;
    var afterSearch :=
      if st.saucenaoEnabled then Merge(post.tags, SearchTags(st, input), opts.add) else post.tags;
    if ClassifierRuns(cfg, st, input) then
      var withRelated :=
        if |post.related| > 0 then SetTagsFromRelations(afterSearch, post.related) else afterSearch;
      Merge(withRelated, input.deepbooru.tags, opts.add)
    else afterSearch
  }

  /**
   The tag list after the remove-tags comprehension, the one the placeholder
   loop iterates over. Once a merge ran it is duplicate-free, so `Sweep`
   describes that loop exactly (see RemovePlaceholders), and it holds the
   discovered tags that are not listed for removal, in merged order.
   */
  function EditedTags(cfg: Config, st: RunState, input: PostInput, opts: TagOptions): (r: seq<string>)
    ensures st.saucenaoEnabled || ClassifierRuns(cfg, st, input) ==>
      && NoDup(r)
      && r == FilterOut(MergedTags(cfg, st, input, opts), OrNone(opts.remove))
      && forall x :: x in r <==> x in Discovered(cfg, st, input, opts) && x !in OrNone(opts.remove)
  {
    var merged := MergedTags(cfg, st, input, opts);
    if opts.remove.Some? then RemoveTags(merged, opts.remove.value)
    else
      assert st.saucenaoEnabled || ClassifierRuns(cfg, st, input) ==> FilterOut(merged, []) == merged by {
        FilterOutNothing(merged, []);
      }
      merged
  }

  /**
   The tag list pushed to the server: the placeholder sweep of the
   main loop (auto_tagger.py, line 264) applied to the edited list.
   Once a merge ran it is duplicate-free, drawn from the discovered tags
   minus the remove-tags, holds every such tag that is not a placeholder,
   and holds no placeholder unless both survived the remove-tags.
   */
  function PatchedTags(cfg: Config, st: RunState, input: PostInput, opts: TagOptions): (p: seq<string>)
    ensures st.saucenaoEnabled || ClassifierRuns(cfg, st, input) ==>
      && NoDup(p)
      && (forall t :: t in p ==> t in Discovered(cfg, st, input, opts) && t !in OrNone(opts.remove))
      && (forall t :: t in Discovered(cfg, st, input, opts) && t !in OrNone(opts.remove) && !IsPlaceholder(t) ==> t in p)
      && (!(Kept("deepbooru", cfg, st, input, opts) && Kept("tagme", cfg, st, input, opts)) ==>
            forall t :: t in p ==> !IsPlaceholder(t))
  {
    var edited := EditedTags(cfg, st, input, opts);
    assert st.saucenaoEnabled || ClassifierRuns(cfg, st, input) ==>
      && NoDup(Sweep(edited))
      && (forall t :: t in Sweep(edited) ==> t in edited)
      && (forall t :: t in edited && !IsPlaceholder(t) ==> t in Sweep(edited))
      && (!("deepbooru" in edited && "tagme" in edited) ==> forall t :: t in Sweep(edited) ==> !IsPlaceholder(t))
    by {
      if st.saucenaoEnabled || ClassifierRuns(cfg, st, input) {
        SweepSublist(edited);
        SweepKeepsOthers(edited);
        if !("deepbooru" in edited && "tagme" in edited) {
          SweepRemovesSinglePlaceholder(edited);
        }
      }
    }
    Sweep(edited)
  }

  /** Whether tag `t` was discovered for the post and is not listed for removal. */
  predicate Kept(t: string, cfg: Config, st: RunState, input: PostInput, opts: TagOptions) {
    t in Discovered(cfg, st, input, opts) && t !in OrNone(opts.remove)
  }

  /**
   The placeholder sweep of the main loop (auto_tagger.py, line 264) run as
   CPython runs it, on the edited list. It always keeps the edited list's
   other tags in order, and once a merge ran it gives exactly the list
   `Step` pushes.
   */
  method PatchTags(cfg: Config, st: RunState, input: PostInput, opts: TagOptions) returns (r: seq<string>)
    ensures Others(r) == Others(EditedTags(cfg, st, input, opts))
    ensures st.saucenaoEnabled || ClassifierRuns(cfg, st, input) ==> r == PatchedTags(cfg, st, input, opts)
  {
    r := RemovePlaceholders(EditedTags(cfg, st, input, opts));
  }

  /** The untagged count a stopping step charges for the posts it will not visit. */
  function Charge(stop: bool, index: int, total: int): int {
    if stop then total - index - 1 else 0
  }

  /** One iteration of the loop over the query result; `index` counts from 0. */
  function Step(cfg: Config, st: RunState, input: PostInput, index: int, total: int, opts: TagOptions): (r: StepResult)
    ensures r.Crash? <==> (cfg.deepbooruForced && !cfg.deepbooruEnabled) || !Downloaded(cfg)
    ensures r.Crash? ==> r.state.updates == st.updates
    ensures r.state.saucenaoEnabled <==> st.saucenaoEnabled && !(input.sauce.limitLong == 0 && cfg.deepbooruEnabled)
    ensures r.state.stats.tagged == st.stats.tagged + (if st.saucenaoEnabled && |input.sauce.tags| > 0 then 1 else 0)
    ensures r.Next? ==> (r.limitReached <==> st.saucenaoEnabled && input.sauce.limitLong == 0)
    ensures r.Next? ==> (r.backoff <==> st.saucenaoEnabled && input.sauce.limitLong != 0 && input.sauce.limitShort == 0)
    ensures r.Next? ==> (r.stop <==> r.limitReached && !cfg.deepbooruEnabled)
    ensures r.Next? && |FoundTags(cfg, st, input)| == 0 ==> r.state.updates == st.updates
    ensures r.Next? && |FoundTags(cfg, st, input)| > 0 ==>
      |r.state.updates| == |st.updates| + 1 && r.state.updates[..|st.updates|] == st.updates
      && r.state.updates[|st.updates|] == input.post.(
           tags := PatchedTags(cfg, st, input, opts),
           safety := if ClassifierRuns(cfg, st, input) then input.deepbooru.rating else input.sauce.rating)
    // Deepbooru ran: exactly one of its counters moves.
    ensures r.Next? && ClassifierRuns(cfg, st, input) ==>
      if |input.deepbooru.tags| > 0
      then r.state.stats.deepbooru == st.stats.deepbooru + 1 && r.state.stats.untagged == st.stats.untagged
      else r.state.stats.deepbooru == st.stats.deepbooru && r.state.stats.untagged == st.stats.untagged + 1
    // Deepbooru did not run: an empty result is one more untagged post.
    ensures r.Next? && !ClassifierRuns(cfg, st, input) ==>
      r.state.stats.deepbooru == st.stats.deepbooru
      && r.state.stats.untagged == st.stats.untagged
           + (if |SearchTags(st, input)| == 0 then 1 else 0) + Charge(r.stop, index, total)
  {
    var post := input.post;
    // SauceNAO (parse_saucenao_results)
    var searched := st.saucenaoEnabled;
    var q := ClassifyQuota(input.sauce.limitShort, input.sauce.limitLong, cfg.deepbooruEnabled, st.saucenaoEnabled);
    var limitReached := searched && q.limitReached;
    var backoff := searched && q.backoff;
    var enabled := if searched then q.saucenaoEnabled else st.saucenaoEnabled;
    var stats1 := if searched && |input.sauce.tags| > 0 then st.stats.(tagged := st.stats.tagged + 1) else st.stats;
    // Deepbooru
    var classify := ClassifierRuns(cfg, st, input);
    if classify && !cfg.deepbooruEnabled then
      Crash(ClassifierNotLoaded, RunState(stats1, enabled, st.updates))
    else
      var found := FoundTags(cfg, st, input);
      var stats2 :=
        if classify then
          if |found| > 0 then stats1.(deepbooru := stats1.deepbooru + 1)
          else stats1.(untagged := stats1.untagged + 1)
        else if |found| == 0 then stats1.(untagged := stats1.untagged + 1)
        else stats1;
      // Removing the temporary file
      if !Downloaded(cfg) then
        Crash(NoTempFile, RunState(stats2, enabled, st.updates))
      else
        var safety :=
          if classify then input.deepbooru.rating else if searched then input.sauce.rating else post.safety;
        var updates :=
          if |found| > 0 then st.updates + [post.(tags := PatchedTags(cfg, st, input, opts), safety := safety)]
          else st.updates;
        var stop := limitReached && !cfg.deepbooruEnabled;
        var stats3 := stats2.(untagged := stats2.untagged + Charge(stop, index, total));
        Next(RunState(stats3, enabled, updates), limitReached, backoff, stop)
  }

  /** Every visited post is either pushed back or counted untagged, never both. */
  function Accounted(st: RunState): int {
    st.stats.untagged + |st.updates|
  }

  lemma StepAccounting(cfg: Config, st: RunState, input: PostInput, index: int, total: int, opts: TagOptions)
    requires Step(cfg, st, input, index, total, opts).Next?
    ensures var r := Step(cfg, st, input, index, total, opts);
      Accounted(r.state) == Accounted(st) + 1 + Charge(r.stop, index, total)
  {
  }

  /** How a run over the query result ends. */
  datatype RunOutcome =
    | Finished(state: RunState, stoppedEarly: bool)
    | Crashed(fault: Fault, index: nat, state: RunState)

  /**
   The loop from post `index` on: it stops after the current post when the
   daily SauceNAO limit is reached and Deepbooru is off, and an exception ends
   it at once. A finished loop has counted every post it visited once, as
   pushed or untagged, plus the charge for the unvisited rest of the announced
   total when it stopped early; posts already pushed stay pushed, in order.
   */
  function RunLoop(cfg: Config, st: RunState, posts: seq<PostInput>, index: nat, total: int, opts: TagOptions): (r: RunOutcome)
    requires index <= |posts|
    ensures r.Finished? ==>
      Accounted(r.state) == Accounted(st) + (if r.stoppedEarly then total - index else |posts| - index)
    ensures |st.updates| <= |r.state.updates| && r.state.updates[..|st.updates|] == st.updates
    decreases |posts| - index
  {
    if index == |posts| then Finished(st, false)
    else
      match Step(cfg, st, posts[index], index, total, opts)
      case Crash(fault, s) => Crashed(fault, index, s)
      case Next(s, _, _, stop) =>
        StepAccounting(cfg, st, posts[index], index, total, opts);
        if stop then Finished(s, true)
        else
          var r := RunLoop(cfg, s, posts, index + 1, total, opts);
          assert r.state.updates[..|st.updates|] == r.state.updates[..|s.updates|][..|st.updates|];
          r
  }

  /** At least one tagging source is on; the loop never switches both off. */
  predicate SourceEnabled(cfg: Config, st: RunState) {
    st.saucenaoEnabled || cfg.deepbooruEnabled
  }

  lemma {:induction false} RunKeepsASource(cfg: Config, st: RunState, posts: seq<PostInput>, index: nat, total: int, opts: TagOptions)
    requires index <= |posts|
    requires SourceEnabled(cfg, st)
    ensures SourceEnabled(cfg, RunLoop(cfg, st, posts, index, total, opts).state)
    decreases |posts| - index
  {
    if index < |posts| {
      var step := Step(cfg, st, posts[index], index, total, opts);
      if step.Next? && !step.stop {
        RunKeepsASource(cfg, step.state, posts, index + 1, total, opts);
      }
    }
  }

  /**
   With Deepbooru neither enabled nor forced on a private server, the first
   post whose search reports an exhausted daily limit ends the run, and every post after it is counted untagged unseen.
   */
  lemma LimitEndsRun(cfg: Config, st: RunState, posts: seq<PostInput>, index: nat, total: int, opts: TagOptions)
    requires index < |posts|
    requires !cfg.deepbooruEnabled && !cfg.deepbooruForced && !cfg.serverPublic
    requires st.saucenaoEnabled && posts[index].sauce.limitLong == 0
    ensures var r := RunLoop(cfg, st, posts, index, total, opts);
      && r.Finished? && r.stoppedEarly
      && r.state.stats.untagged == st.stats.untagged
           + (if |posts[index].sauce.sanitized| == 0 then 1 else 0) + (total - index - 1)
  {
  }

  /** How main ends. */
  datatype MainOutcome =
    | NothingToDo
    | Rejected(error: UsageError)
    | Ran(query: string, run: RunOutcome)

  /** main was handed a post id by the upload-media script (a non-empty string). */
  predicate FromUpload(postId: Option<string>) {
    postId.Some? && postId.value != ""
  }

  /**
   The arguments main works with: the post id alone when called from
   upload-media, otherwise the parsed command line.
   */
  function Arguments(postId: Option<string>, cli: CliArgs): (r: Result<ParsedArgs, UsageError>)
    ensures r.Failure? <==> !FromUpload(postId) && IsSubstring(TypeToken, cli.query)
    ensures r.Success? ==> r.value.query == if FromUpload(postId) then postId.value else cli.query
    ensures FromUpload(postId) ==> r.Success? && r.value.addTags.None? && r.value.removeTags.None?
    ensures !FromUpload(postId) && r.Success? ==>
      r.value.addTags == TagListArg(cli.addTags) && r.value.removeTags == TagListArg(cli.removeTags)
  {
    if FromUpload(postId) then Success(ParsedArgs(postId.value, None, None, false))
    else ParseArgs(cli)
  }

  /**
   main without the Sankaku path: `posts` and `total` are what the server
   returns for the query main settles on.
   */
  function Main(cfg: Config, postId: Option<string>, cli: CliArgs, total: int, posts: seq<PostInput>): (r: MainOutcome)
    ensures !cfg.saucenaoEnabled && !cfg.deepbooruEnabled <==> r == NothingToDo
    ensures r.Rejected? <==>
      (cfg.saucenaoEnabled || cfg.deepbooruEnabled) && !FromUpload(postId) && IsSubstring(TypeToken, cli.query)
    ensures r.Ran? ==> r.query == if FromUpload(postId) then postId.value else cli.query
  {
    if !cfg.saucenaoEnabled && !cfg.deepbooruEnabled then NothingToDo
    else
      match Arguments(postId, cli)
      case Failure(e) => Rejected(e)
      case Success(a) =>
        var st := RunState(Stats(0, 0, 0), cfg.saucenaoEnabled, []);
        Ran(a.query, RunLoop(cfg, st, posts, 0, total, TagOptions(a.addTags, a.removeTags)))
  }

  /**
   A run that finishes has pushed or counted untagged every post it was
   given, or, when it stopped early, as many posts as the server announced.
   */
  lemma MainAccounting(cfg: Config, postId: Option<string>, cli: CliArgs, total: int, posts: seq<PostInput>)
    ensures var r := Main(cfg, postId, cli, total, posts);
      r.Ran? && r.run.Finished? ==>
        r.run.state.stats.untagged + |r.run.state.updates| == if r.run.stoppedEarly then total else |posts|
  {
  }

  /**
   SauceNAO off, Deepbooru on, one post without tags for which Deepbooru
   answers `cat` and `outdoors`: the post is pushed with exactly those tags
   and the Deepbooru counter is 1.
   */
  lemma ClassifierOnlyScenario(id: nat, sauce: SauceResponse)
    ensures var cfg := Config(false, true, false, true);
      var input := PostInput(Post(id, [], "unsafe", []), sauce, DeepbooruResponse(["cat", "outdoors"], "safe"));
      RunLoop(cfg, RunState(Stats(0, 0, 0), false, []), [input], 0, 1, TagOptions(None, None))
        == Finished(RunState(Stats(0, 1, 0), false, [Post(id, ["cat", "outdoors"], "safe", [])]), false)
  {
    var cfg := Config(false, true, false, true);
    var input := PostInput(Post(id, [], "unsafe", []), sauce, DeepbooruResponse(["cat", "outdoors"], "safe"));
    var st := RunState(Stats(0, 0, 0), false, []);
    var opts := TagOptions(None, None);
    var tags := ["cat", "outdoors"];
    assert Dedup(tags) == tags by {
      assert tags[..1] == ["cat"];
      assert Dedup(["cat"]) == ["cat"] by { assert ["cat"][..0] == []; }
    }
    assert MergedTags(cfg, st, input, opts) == tags by {
      assert [] + tags == tags;
    }
    assert Sweep(tags) == tags by {
      assert tags[1..] == ["outdoors"];
      assert Sweep(["outdoors"]) == ["outdoors"] by { assert ["outdoors"][1..] == []; }
    }
    assert EditedTags(cfg, st, input, opts) == tags;
    assert PatchedTags(cfg, st, input, opts) == tags;
    var next := RunState(Stats(0, 1, 0), false, [Post(id, tags, "safe", [])]);
    assert Step(cfg, st, input, 0, 1, opts) == Next(next, false, false, false);
  }
}
