/** The extraction stage: bounds the Reddit API's listings to a trailing one-day window and
    shapes each kept item into a flat record. The Reddit client is replaced by the sequence
    it would yield, the wall clock by the parameter `now`, and instants by integer seconds. */
module DataExtraction {
  import opened Common
  import opened Selection

  /** One day (timedelta(days=1)) in seconds: the width of the recency window. */
  const OneDay: int := 86400

  /** A submission as the subreddit's newest-first listing yields it (upvote ratio left out). */
  datatype Submission = Submission(
    id: string, title: string, selftext: string, author: Option<string>, createdUtc: int,
    score: int, numComments: int, url: string, over18: bool)

  /** A comment of a submission's fully expanded comment forest, flattened. */
  datatype Comment = Comment(
    id: string, parentId: string, body: string, author: Option<string>, createdUtc: int, score: int)

  /** The dictionary fetch_subreddit_posts appends for each kept submission. */
  datatype PostRecord = PostRecord(
    id: string, title: string, selftext: string, author: string, createdUtc: int,
    score: int, numComments: int, subreddit: string, url: string, over18: bool)

  /** The dictionary fetch_post_comments appends for each kept comment. */
  datatype CommentRecord = CommentRecord(
    id: string, postId: string, parentId: string, body: string, author: string,
    createdUtc: int, score: int, subreddit: string)

  /** An item belongs to the window unless it was created strictly before now minus one day. */
  predicate InWindow(createdUtc: int, now: int) {
    !(createdUtc < now - OneDay)
  }

  /** The author's name, or the sentinel when the API reports no author. */
  function AuthorName(author: Option<string>): string {
    if author.Some? then author.value else Deleted
  }

  function PostOf(s: Submission, subredditName: string): PostRecord {
    PostRecord(s.id, s.title, s.selftext, AuthorName(s.author), s.createdUtc,
               s.score, s.numComments, subredditName, s.url, s.over18)
  }

  function CommentOf(c: Comment, postId: string, subredditName: string): CommentRecord {
    CommentRecord(c.id, postId, c.parentId, c.body, AuthorName(c.author), c.createdUtc, c.score, subredditName)
  }

  /** Which submissions of the listing lie in the window. */
  function PostMask(listing: seq<Submission>, now: int): seq<bool> {
    seq(|listing|, k requires 0 <= k < |listing| => InWindow(listing[k].createdUtc, now))
  }

  /** Which comments lie in the window. */
  function CommentMask(comments: seq<Comment>, now: int): seq<bool> {
    seq(|comments|, k requires 0 <= k < |comments| => InWindow(comments[k].createdUtc, now))
  }

  /** What fetch_subreddit_posts returns: the records of the longest prefix of the listing
      that lies in the window. */
  function RecentPosts(listing: seq<Submission>, subredditName: string, now: int): seq<PostRecord> {
    var n := PrefixLength(PostMask(listing, now));
    seq(n, k requires 0 <= k < n => PostOf(listing[k], subredditName))
  }

  /** What fetch_post_comments returns: the records of all comments in the window, in order. */
  function RecentComments(comments: seq<Comment>, postId: string, subredditName: string, now: int): seq<CommentRecord> {
    var ks := Kept(CommentMask(comments, now));
    seq(|ks|, j requires 0 <= j < |ks| => CommentOf(comments[ks[j]], postId, subredditName))
  }

  /** The scan-and-filter alternative for posts: every submission in the window, wherever it
      stands in the listing. It is the reference the take-while is compared with. */
  function WindowedPosts(listing: seq<Submission>, subredditName: string, now: int): seq<PostRecord> {
    var ks := Kept(PostMask(listing, now));
    seq(|ks|, j requires 0 <= j < |ks| => PostOf(listing[ks[j]], subredditName))
  }

  /** fetch_subreddit_posts: walks the newest-first listing and stops at the first submission
      older than the window. */
  method FetchSubredditPosts(listing: seq<Submission>, subredditName: string, now: int)
    returns (posts: seq<PostRecord>)
    ensures posts == RecentPosts(listing, subredditName, now)
    ensures |posts| <= |listing|
    ensures forall k :: 0 <= k < |posts| ==>
      InWindow(listing[k].createdUtc, now) && posts[k] == PostOf(listing[k], subredditName)
    ensures |posts| < |listing| ==> !InWindow(listing[|posts|].createdUtc, now)
  {
    var timeThreshold := now - OneDay;
    posts := [];
    var i := 0;
    while i < |listing|
      invariant i <= |listing| && |posts| == i
      invariant forall k :: 0 <= k < i ==>
        InWindow(listing[k].createdUtc, now) && posts[k] == PostOf(listing[k], subredditName)
    {
      var submission := listing[i];
      if submission.createdUtc < timeThreshold {
        break;
      }
      posts := posts + [PostOf(submission, subredditName)];
      i := i + 1;
    }
    PrefixLengthUnique(PostMask(listing, now), i);
  }

  /** fetch_post_comments: walks every comment, skipping those older than the window. */
  method FetchPostComments(comments: seq<Comment>, postId: string, subredditName: string, now: int)
    returns (records: seq<CommentRecord>)
    ensures records == RecentComments(comments, postId, subredditName, now)
    ensures |records| <= |comments|
    ensures forall j :: 0 <= j < |records| ==> records[j].postId == postId && records[j].subreddit == subredditName
  {
    var timeThreshold := now - OneDay;
    records := [];
    for i := 0 to |comments|
      invariant records == RecentComments(comments[..i], postId, subredditName, now)
    {
      var comment := comments[i];
      RecentCommentsSnoc(comments[..i], comment, postId, subredditName, now);
      assert comments[..i + 1] == comments[..i] + [comment];
      if comment.createdUtc < timeThreshold {
        continue;
      }
      records := records + [CommentOf(comment, postId, subredditName)];
    }
    assert comments[..|comments|] == comments;
  }

  /** Appending one comment to the source appends its record exactly when it is in the window. */
  lemma RecentCommentsSnoc(comments: seq<Comment>, c: Comment, postId: string, subredditName: string, now: int)
    ensures RecentComments(comments + [c], postId, subredditName, now)
         == RecentComments(comments, postId, subredditName, now)
            + (if InWindow(c.createdUtc, now) then [CommentOf(c, postId, subredditName)] else [])
  {
    var m := CommentMask(comments + [c], now);
    assert m[..|comments|] == CommentMask(comments, now);
  }

  /** Every post record is the shaped record of the listing entry at the same position: it lies
      in the window, carries the requested subreddit, and its author is the submission's author
      or the sentinel when there is none. */
  lemma RecentPostsShape(listing: seq<Submission>, subredditName: string, now: int)
    ensures var posts := RecentPosts(listing, subredditName, now);
      |posts| <= |listing| &&
      forall k :: 0 <= k < |posts| ==>
        posts[k].createdUtc >= now - OneDay && posts[k].createdUtc == listing[k].createdUtc &&
        posts[k].id == listing[k].id && posts[k].subreddit == subredditName &&
        (listing[k].author.None? ==> posts[k].author == Deleted) &&
        (listing[k].author.Some? ==> posts[k].author == listing[k].author.value)
  {
    var m := PostMask(listing, now);
    var posts := RecentPosts(listing, subredditName, now);
    forall k | 0 <= k < |posts|
      ensures posts[k].createdUtc >= now - OneDay
    {
      assert m[k] && posts[k] == PostOf(listing[k], subredditName);
    }
  }

  /** Once a submission is older than the window, nothing at or after it is returned, even a
      newer one. */
  lemma RecentPostsStopAtFirstOld(listing: seq<Submission>, subredditName: string, now: int, j: nat)
    requires j < |listing| && !InWindow(listing[j].createdUtc, now)
    ensures |RecentPosts(listing, subredditName, now)| <= j
  {
    var m := PostMask(listing, now);
    assert !m[j];
  }

  /** The window is closed at its old end: a submission created exactly one day before `now`
      is kept, one created a second earlier ends the walk. */
  lemma PostWindowBoundary(s: Submission, rest: seq<Submission>, subredditName: string, now: int)
    ensures s.createdUtc == now - OneDay ==> RecentPosts([s] + rest, subredditName, now) != []
    ensures s.createdUtc == now - OneDay - 1 ==> RecentPosts([s] + rest, subredditName, now) == []
  {
    var m := PostMask([s] + rest, now);
    assert m[0] == InWindow(s.createdUtc, now);
  }

  /** The same closed boundary for comments. */
  lemma CommentWindowBoundary(c: Comment, postId: string, subredditName: string, now: int)
    ensures c.createdUtc == now - OneDay ==> RecentComments([c], postId, subredditName, now) == [CommentOf(c, postId, subredditName)]
    ensures c.createdUtc == now - OneDay - 1 ==> RecentComments([c], postId, subredditName, now) == []
  {
    RecentCommentsSnoc([], c, postId, subredditName, now);
    assert [] + [c] == [c];
  }

  /** The comment filter is order-preserving: filtering a concatenation filters each part and
      concatenates the results, so an old comment is skipped without ending the scan. */
  lemma {:induction false} RecentCommentsAppend(a: seq<Comment>, b: seq<Comment>, postId: string, subredditName: string, now: int)
    ensures RecentComments(a + b, postId, subredditName, now)
         == RecentComments(a, postId, subredditName, now) + RecentComments(b, postId, subredditName, now)
    decreases |b|
  {
    if b == [] {
      assert a + b == a;
      assert CommentMask(b, now) == [];
    } else {
      var front, c := b[..|b| - 1], b[|b| - 1];
      assert b == front + [c];
      assert a + b == (a + front) + [c];
      RecentCommentsAppend(a, front, postId, subredditName, now);
      RecentCommentsSnoc(a + front, c, postId, subredditName, now);
      RecentCommentsSnoc(front, c, postId, subredditName, now);
    }
  }

  /** The comment records are exactly the records of the comments in the window: each in-window
      comment is represented, and each record comes from an in-window comment, carries the
      requested post id, and names that comment's author or the sentinel when there is none. */
  lemma RecentCommentsExact(comments: seq<Comment>, postId: string, subredditName: string, now: int)
    ensures var records := RecentComments(comments, postId, subredditName, now);
      (forall i :: 0 <= i < |comments| && InWindow(comments[i].createdUtc, now) ==>
         CommentOf(comments[i], postId, subredditName) in records) &&
      (forall j :: 0 <= j < |records| ==>
         exists i :: 0 <= i < |comments| && InWindow(comments[i].createdUtc, now) &&
                     records[j] == CommentOf(comments[i], postId, subredditName) &&
                     records[j].postId == postId &&
                     records[j].author == (if comments[i].author.Some? then comments[i].author.value else Deleted))
  {
    var m := CommentMask(comments, now);
    var ks := Kept(m);
    var records := RecentComments(comments, postId, subredditName, now);
    forall i | 0 <= i < |comments| && InWindow(comments[i].createdUtc, now)
      ensures CommentOf(comments[i], postId, subredditName) in records
    {
      assert m[i];
      var j :| 0 <= j < |ks| && ks[j] == i;
      assert records[j] == CommentOf(comments[i], postId, subredditName);
    }
    forall j | 0 <= j < |records|
      ensures exists i :: 0 <= i < |comments| && InWindow(comments[i].createdUtc, now) &&
                          records[j] == CommentOf(comments[i], postId, subredditName) &&
                          records[j].postId == postId &&
                          records[j].author == (if comments[i].author.Some? then comments[i].author.value else Deleted)
    {
      assert m[ks[j]];
    }
  }

  /** The listing is newest first: creation times never increase along it. */
  predicate NewestFirst(listing: seq<Submission>) {
    forall i, i' :: 0 <= i < i' < |listing| ==> listing[i'].createdUtc <= listing[i].createdUtc
  }

  /** The take-while never returns more than the scan-and-filter would: its records are a
      prefix of the filtered records. */
  lemma RecentPostsPrefixOfWindowed(listing: seq<Submission>, subredditName: string, now: int)
    ensures var posts := RecentPosts(listing, subredditName, now);
      var all := WindowedPosts(listing, subredditName, now);
      |posts| <= |all| && posts == all[..|posts|]
  {
    PrefixOfKept(PostMask(listing, now));
  }

  /** On a newest-first listing the take-while and the scan-and-filter agree. */
  lemma RecentPostsOfNewestFirst(listing: seq<Submission>, subredditName: string, now: int)
    requires NewestFirst(listing)
    ensures RecentPosts(listing, subredditName, now) == WindowedPosts(listing, subredditName, now)
  {
    var m := PostMask(listing, now);
    assert forall i, i' :: 0 <= i < i' < |m| && m[i'] ==> m[i];
    KeptOfSortedMask(m);
    RecentPostsPrefixOfWindowed(listing, subredditName, now);
  }

  /** Without newest-first order the take-while loses in-window submissions that follow an old
      one: here the scan-and-filter finds one post and the take-while none. */
  lemma OutOfOrderListingLosesPosts(stale: Submission, recent: Submission, subredditName: string, now: int)
    requires stale.createdUtc == now - OneDay - 1 && recent.createdUtc == now
    ensures RecentPosts([stale, recent], subredditName, now) == []
    ensures WindowedPosts([stale, recent], subredditName, now) == [PostOf(recent, subredditName)]
  {
    var m := PostMask([stale, recent], now);
    assert m == [false, true];
    assert Kept(m[..1]) == [];
    assert Kept(m) == [1];
  }
}
