/**
 * `find_latest_daily_thread` (bot.py:165-175): walks the newest posts of a
 * subreddit, newest first, and returns the first whose stripped title starts
 * with the prefix, giving up at the first post older than the lookback
 * window. The listing is an input: the posts as `subreddit.new()` yields them.
 */
module DailyThread {
  import opened Wrappers
  import opened Text
  import opened Window

  /** `subreddit.new(limit=50)`: at most this many posts are looked at. */
  const ScanLimit: nat := 50

  /** A submission: its creation time in seconds and its title. */
  datatype ThreadPost = ThreadPost(created: int, title: string, permalink: string)

  /** `post.title.strip().startswith(title_prefix)`. */
  predicate IsDaily(p: ThreadPost, prefix: string) {
    prefix <= Strip(p.title)
  }

  /** How many posts the listing yields. */
  function Scanned(posts: seq<ThreadPost>): nat {
    if |posts| < ScanLimit then |posts| else ScanLimit
  }

  /**
   * posts[i] is the post the search stops at: it is among those scanned,
   * matches the prefix, and it and every post before it are within the
   * window while none before it matches.
   */
  predicate FirstDaily(posts: seq<ThreadPost>, prefix: string, hours: int, now: int, i: nat) {
    && i < Scanned(posts)
    && IsDaily(posts[i], prefix)
    && (forall j :: 0 <= j <= i ==> WithinHours(posts[j].created, hours, now))
    && (forall j :: 0 <= j < i ==> !IsDaily(posts[j], prefix))
  }

  /**
   * The search returns the first scanned post that matches, provided no
   * older-than-cutoff post comes before it, and nothing otherwise.
   */
  method FindLatestDailyThread(posts: seq<ThreadPost>, prefix: string, lookbackHours: int, now: int)
    returns (r: Option<ThreadPost>)
    ensures r.Some? ==> exists i: nat :: FirstDaily(posts, prefix, lookbackHours, now, i) && r.value == posts[i]
    ensures r.None? ==> forall i: nat :: !FirstDaily(posts, prefix, lookbackHours, now, i)
  {
    var cutoff := now - lookbackHours * 3600;
    var n := Scanned(posts);
    var i := 0;
    while i < n
      invariant i <= n
      invariant forall j :: 0 <= j < i ==> WithinHours(posts[j].created, lookbackHours, now)
      invariant forall j :: 0 <= j < i ==> !IsDaily(posts[j], prefix)
    {
      var post := posts[i];
      if post.created < cutoff {
        break;
      }
      if prefix <= Strip(post.title) {
        assert FirstDaily(posts, prefix, lookbackHours, now, i);
        return Some(post);
      }
      i := i + 1;
    }
    forall k: nat ensures !FirstDaily(posts, prefix, lookbackHours, now, k) {
      if k >= i && k < n {
        assert !WithinHours(posts[i].created, lookbackHours, now);
      }
    }
    return None;
  }

  /** At most one post is the one the search stops at, so the result is determined. */
  lemma FirstDailyUnique(posts: seq<ThreadPost>, prefix: string, hours: int, now: int, i: nat, j: nat)
    requires FirstDaily(posts, prefix, hours, now, i) && FirstDaily(posts, prefix, hours, now, j)
    ensures i == j
  {
  }
}
