/**
 * The CryptoPanic news source: each poll keeps only the fetched stories
 * published strictly after the stored watermark `last`, produces them in
 * fetch order, advances `last` to the last produced story's `published_at`
 * and writes it back to the source's state.
 *
 * `published_at` is an ISO-8601 string and Python compares strings
 * lexicographically, so the watermark order is StrLess. Fetching is a
 * parameter: the stories each poll receives.
 */
module CryptoPanic {
  import opened Wrappers
  import opened Strings
  import opened Seqs

  datatype NewsOutlet = CRYPTOPANIC

  datatype NewsStory = NewsStory(outlet: NewsOutlet, title: string, source: string, publishedAt: string, url: string)

  /** A produced message: key `"news"` and the story as value. */
  datatype Message = Message(key: string, value: NewsStory)

  /** The story is newer than the watermark (always, when there is none). */
  predicate After(last: Option<string>, s: NewsStory)
  {
    last.None? || StrLess(last.value, s.publishedAt)
  }

  /** `[story for story in stories if story.published_at > last]`, or all stories without a watermark. */
  function NewStories(last: Option<string>, stories: seq<NewsStory>): (r: seq<NewsStory>)
  {
    if stories == [] then []
    else if After(last, stories[0]) then [stories[0]] + NewStories(last, stories[1..])
    else NewStories(last, stories[1..])
  }

  /** Without a watermark every story is kept; with one, exactly the stories published after it. */
  lemma {:induction false} NewStoriesSpec(last: Option<string>, stories: seq<NewsStory>)
    ensures last.None? ==> NewStories(last, stories) == stories
    ensures |NewStories(last, stories)| <= |stories|
    ensures forall s :: s in NewStories(last, stories) <==> s in stories && After(last, s)
  {
    if stories != [] {
      NewStoriesSpec(last, stories[1..]);
      assert stories == [stories[0]] + stories[1..];
    }
  }

  /** `r` is `stories` read at increasing positions, which are exactly those of the stories after the watermark. */
  predicate FilteredAt(r: seq<NewsStory>, last: Option<string>, stories: seq<NewsStory>, idx: seq<int>)
  {
    Picks(r, stories, idx) &&
    forall i :: 0 <= i < |stories| ==> (i in idx <==> After(last, stories[i]))
  }

  /** Putting one story in front moves the kept positions one step, and adds 0 when the story is kept. */
  lemma FilteredAtCons(x: NewsStory, last: Option<string>, t: seq<NewsStory>, idx: seq<int>)
    requires Increasing(idx, |t|)
    requires forall i :: 0 <= i < |t| ==> (i in idx <==> After(last, t[i]))
    ensures var sh := if After(last, x) then [0] + Shift(idx) else Shift(idx);
      forall i :: 0 <= i < |[x] + t| ==> (i in sh <==> After(last, ([x] + t)[i]))
  {
    var s := [x] + t;
    var sh := if After(last, x) then [0] + Shift(idx) else Shift(idx);
    forall i | 0 <= i < |s| ensures i in sh <==> After(last, s[i]) {
      ShiftMember(idx, |t|, i);
      if i > 0 { assert s[i] == t[i - 1]; }
    }
  }

  /**
   * The comprehension keeps the fetch order and every copy: the produced
   * stories are the fetched ones read at exactly the positions of the
   * stories after the watermark, in increasing order.
   */
  lemma {:induction false} NewStoriesKeepsOrder(last: Option<string>, stories: seq<NewsStory>)
    ensures exists idx :: FilteredAt(NewStories(last, stories), last, stories, idx)
  {
    if stories == [] {
      assert FilteredAt(NewStories(last, stories), last, stories, []);
    } else {
      var t := stories[1..];
      NewStoriesKeepsOrder(last, t);
      var idx :| FilteredAt(NewStories(last, t), last, t, idx);
      assert stories == [stories[0]] + t;
      FilteredAtCons(stories[0], last, t, idx);
      if After(last, stories[0]) {
        PicksTake(stories[0], t, NewStories(last, t), idx);
        assert FilteredAt(NewStories(last, stories), last, stories, [0] + Shift(idx));
      } else {
        PicksSkip(stories[0], t, NewStories(last, t), idx);
        assert FilteredAt(NewStories(last, stories), last, stories, Shift(idx));
      }
    }
  }

  /** A story published exactly at the watermark is never produced again. */
  lemma EqualToWatermarkDropped(last: string, stories: seq<NewsStory>, s: NewsStory)
    requires s.publishedAt == last
    ensures s !in NewStories(Some(last), stories)
  {
    StrLessIrreflexive(last);
    NewStoriesSpec(Some(last), stories);
  }

  /** `last = stories[-1].published_at` if anything was produced, else `last` unchanged. */
  function NextWatermark(last: Option<string>, produced: seq<NewsStory>): (r: Option<string>)
    ensures produced == [] ==> r == last
    ensures produced != [] ==> r == Some(produced[|produced| - 1].publishedAt)
  {
    if produced == [] then last else Some(produced[|produced| - 1].publishedAt)
  }

  /** `state.get("last", None)`. */
  function StoredLast(state: map<string, Option<string>>): (r: Option<string>)
    ensures "last" !in state ==> r.None?
    ensures "last" in state ==> r == state["last"]
  {
    if "last" in state then state["last"] else None
  }

  /** Every story produced over a run of polls, starting from watermark `last`. */
  function RunProduced(last: Option<string>, fetches: seq<seq<NewsStory>>): seq<NewsStory>
    decreases |fetches|
  {
    if fetches == [] then []
    else
      var kept := NewStories(last, fetches[0]);
      kept + RunProduced(NextWatermark(last, kept), fetches[1..])
  }

  /** The watermark after a run of polls. */
  function RunWatermark(last: Option<string>, fetches: seq<seq<NewsStory>>): Option<string>
    decreases |fetches|
  {
    if fetches == [] then last
    else RunWatermark(NextWatermark(last, NewStories(last, fetches[0])), fetches[1..])
  }

  function Messages(stories: seq<NewsStory>): (r: seq<Message>)
  {
    seq(|stories|, i requires 0 <= i < |stories| => Message("news", stories[i]))
  }

  lemma MessagesConcat(a: seq<NewsStory>, b: seq<NewsStory>)
    ensures Messages(a + b) == Messages(a) + Messages(b)
  {
  }

  /** Stories in strictly increasing `published_at` order. */
  predicate Ascending(s: seq<NewsStory>)
  {
    forall i, j :: 0 <= i < j < |s| ==> StrLess(s[i].publishedAt, s[j].publishedAt)
  }

  predicate AllAfter(last: Option<string>, s: seq<NewsStory>)
  {
    forall i :: 0 <= i < |s| ==> After(last, s[i])
  }

  lemma {:induction false} NewStoriesAbove(last: Option<string>, stories: seq<NewsStory>, p: string)
    requires forall i :: 0 <= i < |stories| ==> StrLess(p, stories[i].publishedAt)
    ensures forall i :: 0 <= i < |NewStories(last, stories)| ==> StrLess(p, NewStories(last, stories)[i].publishedAt)
  {
    if stories != [] {
      NewStoriesAbove(last, stories[1..], p);
      var rest := NewStories(last, stories[1..]);
      if After(last, stories[0]) {
        var r := [stories[0]] + rest;
        forall i | 0 <= i < |r| ensures StrLess(p, r[i].publishedAt) {
          if i > 0 { assert r[i] == rest[i - 1]; }
        }
      }
    }
  }

  lemma {:induction false} NewStoriesAscending(last: Option<string>, stories: seq<NewsStory>)
    requires Ascending(stories)
    ensures Ascending(NewStories(last, stories))
    decreases |stories|
  {
    if stories != [] {
      var tail := stories[1..];
      assert Ascending(tail) by {
        forall i, j | 0 <= i < j < |tail| ensures StrLess(tail[i].publishedAt, tail[j].publishedAt) {
          assert tail[i] == stories[i + 1] && tail[j] == stories[j + 1];
        }
      }
      NewStoriesAscending(last, tail);
      var rest := NewStories(last, tail);
      if After(last, stories[0]) {
        assert forall i :: 0 <= i < |tail| ==> StrLess(stories[0].publishedAt, tail[i].publishedAt) by {
          forall i | 0 <= i < |tail| ensures StrLess(stories[0].publishedAt, tail[i].publishedAt) {
            assert tail[i] == stories[i + 1];
          }
        }
        NewStoriesAbove(last, tail, stories[0].publishedAt);
        var r := [stories[0]] + rest;
        forall i, j | 0 <= i < j < |r| ensures StrLess(r[i].publishedAt, r[j].publishedAt) {
          assert r[j] == rest[j - 1];
          if i > 0 { assert r[i] == rest[i - 1]; }
        }
      }
    }
  }

  lemma AllAfterOfNewStories(last: Option<string>, stories: seq<NewsStory>)
    ensures AllAfter(last, NewStories(last, stories))
  {
    var r := NewStories(last, stories);
    NewStoriesSpec(last, stories);
    forall i | 0 <= i < |r| ensures After(last, r[i]) { assert r[i] in r; }
  }

  /**
   * When every fetch is in ascending order, the whole run produces stories
   * in strictly ascending order, all after the starting watermark, so no
   * `published_at` is produced twice.
   */
  lemma {:induction false} AscendingFetchesNeverReplay(last: Option<string>, fetches: seq<seq<NewsStory>>)
    requires forall k :: 0 <= k < |fetches| ==> Ascending(fetches[k])
    ensures Ascending(RunProduced(last, fetches))
    ensures AllAfter(last, RunProduced(last, fetches))
    decreases |fetches|
  {
    if fetches != [] {
      var kept := NewStories(last, fetches[0]);
      var w := NextWatermark(last, kept);
      NewStoriesAscending(last, fetches[0]);
      AllAfterOfNewStories(last, fetches[0]);
      AscendingFetchesNeverReplay(w, fetches[1..]);
      var rest := RunProduced(w, fetches[1..]);
      var all := kept + rest;
      assert all == RunProduced(last, fetches);
      forall i, j | 0 <= i < j < |all| ensures StrLess(all[i].publishedAt, all[j].publishedAt) {
        if j >= |kept| && i < |kept| {
          var m := kept[|kept| - 1].publishedAt;
          assert After(w, rest[j - |kept|]);
          if i < |kept| - 1 {
            StrLessTransitive(kept[i].publishedAt, m, all[j].publishedAt);
          }
        } else if i >= |kept| {
          assert all[i] == rest[i - |kept|] && all[j] == rest[j - |kept|];
        }
      }
      forall i | 0 <= i < |all| ensures After(last, all[i]) {
        if i >= |kept| && kept != [] && last.Some? {
          assert After(w, rest[i - |kept|]);
          StrLessTransitive(last.value, kept[|kept| - 1].publishedAt, all[i].publishedAt);
        }
      }
    }
  }

  /**
   * The watermark is the last produced story, not the newest: a fetch in
   * descending order lets an already produced story through again.
   */
  lemma DescendingFetchReplays()
    ensures var older := NewsStory(CRYPTOPANIC, "a", "s", "1", "u");
            var newer := NewsStory(CRYPTOPANIC, "b", "s", "2", "u");
            RunProduced(None, [[newer, older], [newer]]) == [newer, older, newer]
  {
    var older := NewsStory(CRYPTOPANIC, "a", "s", "1", "u");
    var newer := NewsStory(CRYPTOPANIC, "b", "s", "2", "u");
    var fetches := [[newer, older], [newer]];
    NewStoriesSpec(None, fetches[0]);
    assert NewStories(None, fetches[0]) == [newer, older];
    assert StrLess("1", "2");
    assert NewStories(Some("1"), [newer][1..]) == [];
    assert NewStories(Some("1"), fetches[1]) == [newer];
    assert fetches[1..][0] == [newer] && fetches[1..][1..] == [];
    assert NextWatermark(None, [newer, older]) == Some("1");
    assert RunProduced(Some("1"), fetches[1..]) == [newer] + RunProduced(Some("2"), []);
    assert RunProduced(None, fetches) == [newer, older] + RunProduced(Some("1"), fetches[1..]);
  }

  /** The news source: its persisted state and the messages it produced so far. */
  class CryptoPanicOutlet {
    var state: map<string, Option<string>>
    var produced: seq<Message>

    constructor (state: map<string, Option<string>>)
      ensures this.state == state && produced == []
    {
      this.state := state;
      produced := [];
    }

    /**
     * One iteration of `run`'s loop: filter the fetched stories against
     * `last`, produce the kept ones in order, advance `last`, store it.
     */
    method Poll(last: Option<string>, stories: seq<NewsStory>) returns (newLast: Option<string>)
      modifies this
      ensures produced == old(produced) + Messages(NewStories(last, stories))
      ensures newLast == NextWatermark(last, NewStories(last, stories))
      ensures state == old(state)["last" := newLast]
    {
      var kept := NewStories(last, stories);
      var i := 0;
      while i < |kept|
        invariant 0 <= i <= |kept|
        invariant produced == old(produced) + Messages(kept[..i])
        invariant state == old(state)
      {
        MessagesConcat(kept[..i], [kept[i]]);
        assert kept[..i + 1] == kept[..i] + [kept[i]];
        produced := produced + [Message("news", kept[i])];
        i := i + 1;
      }
      assert kept[..i] == kept;
      newLast := last;
      if kept != [] {
        newLast := Some(kept[|kept| - 1].publishedAt);
      }
      state := state["last" := newLast];
    }

    /** `run`, for as many polls as `fetches` holds: read `last` once, then poll repeatedly. */
    method Run(fetches: seq<seq<NewsStory>>)
      modifies this
      ensures produced == old(produced) + Messages(RunProduced(StoredLast(old(state)), fetches))
      ensures fetches != [] ==> state == old(state)["last" := RunWatermark(StoredLast(old(state)), fetches)]
      ensures fetches == [] ==> state == old(state)
    {
      var last := StoredLast(state);
      ghost var start, state0, produced0 := last, state, produced;
      var k := 0;
      while k < |fetches|
        invariant 0 <= k <= |fetches|
        invariant last == RunWatermark(start, fetches[..k])
        invariant produced == produced0 + Messages(RunProduced(start, fetches[..k]))
        invariant k == 0 ==> state == state0
        invariant k > 0 ==> state == state0["last" := last]
      {
        RunStep(produced0, produced, start, fetches, k, last);
        ghost var lastK := last;
        last := Poll(last, fetches[k]);
        assert k > 0 ==> state == state0["last" := last] by {
          if k > 0 {
            assert state0["last" := lastK]["last" := last] == state0["last" := last];
          }
        }
        k := k + 1;
      }
      assert fetches[..k] == fetches;
    }
  }

  /** What poll `k + 1` adds to a run, in terms of the messages produced and the watermark. */
  lemma PollStep(last: Option<string>, fetches: seq<seq<NewsStory>>, k: nat)
    requires k < |fetches|
    ensures var w := RunWatermark(last, fetches[..k]);
            Messages(RunProduced(last, fetches[..k + 1])) ==
              Messages(RunProduced(last, fetches[..k])) + Messages(NewStories(w, fetches[k])) &&
            RunWatermark(last, fetches[..k + 1]) == NextWatermark(w, NewStories(w, fetches[k]))
  {
    Split(last, fetches, k);
    MessagesConcat(RunProduced(last, fetches[..k]), NewStories(RunWatermark(last, fetches[..k]), fetches[k]));
  }

  /** One iteration of `run`'s loop extends the produced messages and the watermark as a run of `k + 1` polls. */
  lemma RunStep(produced0: seq<Message>, producedK: seq<Message>, start: Option<string>,
                fetches: seq<seq<NewsStory>>, k: nat, last: Option<string>)
    requires k < |fetches|
    requires last == RunWatermark(start, fetches[..k])
    requires producedK == produced0 + Messages(RunProduced(start, fetches[..k]))
    ensures producedK + Messages(NewStories(last, fetches[k])) == produced0 + Messages(RunProduced(start, fetches[..k + 1]))
    ensures NextWatermark(last, NewStories(last, fetches[k])) == RunWatermark(start, fetches[..k + 1])
  {
    PollStep(start, fetches, k);
  }

  /** Splitting a run after `k` polls. */
  lemma {:induction false} Split(last: Option<string>, fetches: seq<seq<NewsStory>>, k: nat)
    requires k < |fetches|
    ensures RunProduced(last, fetches[..k + 1]) ==
            RunProduced(last, fetches[..k]) + NewStories(RunWatermark(last, fetches[..k]), fetches[k])
    ensures RunWatermark(last, fetches[..k + 1]) ==
            NextWatermark(RunWatermark(last, fetches[..k]), NewStories(RunWatermark(last, fetches[..k]), fetches[k]))
    decreases k
  {
    if k > 0 {
      var kept := NewStories(last, fetches[0]);
      Split(NextWatermark(last, kept), fetches[1..], k - 1);
      assert fetches[..k + 1][1..] == fetches[1..][..k];
      assert fetches[..k][1..] == fetches[1..][..k - 1];
      assert fetches[1..][k - 1] == fetches[k];
    } else {
      assert fetches[..1] == [fetches[0]];
    }
  }
}
