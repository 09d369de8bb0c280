/** The orchestration of one subreddit in main.py, reduced to what it does to the data:
    fetched records are handed to the cleaning functions as dicts, and the cleaned tables are
    normalised before loading. The clients, the loop over subreddits and the load are left out. */
module Pipeline {
  import opened Common
  import opened Whitespace
  import opened Selection
  import opened DataExtraction
  import opened DataCleaning

  /** The dict fetch_subreddit_posts builds for a post record (upvote ratio left out). */
  function PostRow(p: PostRecord): Row {
    map["id" := Str(p.id), "title" := Str(p.title), "selftext" := Str(p.selftext),
        "author" := Str(p.author), "created_utc" := Int(p.createdUtc), "score" := Int(p.score),
        "num_comments" := Int(p.numComments), "subreddit" := Str(p.subreddit), "url" := Str(p.url),
        "over_18" := Bool(p.over18)]
  }

  /** The dict fetch_post_comments builds for a comment record. */
  function CommentRow(c: CommentRecord): Row {
    map["id" := Str(c.id), "post_id" := Str(c.postId), "parent_id" := Str(c.parentId),
        "body" := Str(c.body), "author" := Str(c.author), "created_utc" := Int(c.createdUtc),
        "score" := Int(c.score), "subreddit" := Str(c.subreddit)]
  }

  function PostRows(posts: seq<PostRecord>): seq<Row> {
    seq(|posts|, i requires 0 <= i < |posts| => PostRow(posts[i]))
  }

  function CommentRows(comments: seq<CommentRecord>): seq<Row> {
    seq(|comments|, i requires 0 <= i < |comments| => CommentRow(comments[i]))
  }

  /** The columns main.py normalises for posts and for comments. */
  const PostTextFields: seq<string> := ["title", "selftext"]
  const CommentTextFields: seq<string> := ["body"]

  /** The columns of the comments table. */
  const CommentColumns: set<string> := {"id", "post_id", "parent_id", "body", "author", "created_utc", "score", "subreddit"}

  /** A record key is a column of the table built from the records. */
  lemma KeyIsColumn(records: seq<Row>, i: nat, c: string)
    requires i < |records| && c in records[i]
    ensures c in ColumnNames(records)
  {
    ColumnNamesExact(records, c);
  }

  /** Cleaning then normalising, for any non-empty batch whose records all hold strings under
      the normalised fields, the primary text among them: the cleaning precondition holds, the
      fields stay text columns, and every primary value that reaches the load step is non-empty
      single-line text without outer whitespace. */
  lemma CleanThenPreprocess(records: seq<Row>, fills: map<string, string>, primary: string, fields: seq<string>)
    requires |records| > 0 && primary in fields
    requires forall i, f :: 0 <= i < |records| && f in fields ==> f in records[i] && records[i][f].Str?
    ensures primary in ColumnNames(records)
    ensures TextColumns(Cleaned(records, fills, primary), fields)
    ensures var out := Preprocessed(Cleaned(records, fills, primary), fields);
      primary in out &&
      forall j :: 0 <= j < |out[primary]| ==>
        out[primary][j].Str? && out[primary][j].s != [] &&
        '\n' !in out[primary][j].s && '\r' !in out[primary][j].s && NoOuterSpace(out[primary][j].s)
  {
    KeyIsColumn(records, 0, primary);
    CleanedTextColumns(records, fills, primary, fields);
    var cleaned := Cleaned(records, fills, primary);
    CleanedPrimaryNotBlank(records, fills, primary);
    PreprocessedChangesOnlyListed(cleaned, fields);
    var out: Columns := Preprocessed(cleaned, fields);
    forall j | 0 <= j < |out[primary]| ensures out[primary][j].s != [] {
      PreprocessTextEmptyIffBlank(cleaned[primary][j].s);
    }
  }

  /** Fields that every record holds as a string are still string columns after cleaning. */
  lemma CleanedTextColumns(records: seq<Row>, fills: map<string, string>, primary: string, fields: seq<string>)
    requires |records| > 0 && primary in records[0]
    requires forall i, f :: 0 <= i < |records| && f in fields ==> f in records[i] && records[i][f].Str?
    ensures primary in ColumnNames(records)
    ensures TextColumns(Cleaned(records, fills, primary), fields)
  {
    KeyIsColumn(records, 0, primary);
    CleanedRows(records, fills, primary);
    var cleaned := Cleaned(records, fills, primary);
    var ks := SurvivingRecords(records, fills, primary);
    forall f | f in fields ensures f in cleaned && AllStr(cleaned[f]) {
      KeyIsColumn(records, 0, f);
      forall j | 0 <= j < |cleaned[f]| ensures cleaned[f][j].Str? {
        assert cleaned[f][j] == FilledValue(records[ks[j]], f, fills);
      }
    }
  }

  /** Every dict built from post records holds the title and selftext as strings. */
  lemma PostRowsText(posts: seq<PostRecord>)
    ensures forall i, f :: 0 <= i < |posts| && f in PostTextFields ==>
      f in PostRows(posts)[i] && PostRows(posts)[i][f].Str?
    ensures forall i :: 0 <= i < |posts| ==> PostRows(posts)[i]["title"] == Str(posts[i].title)
  {
  }

  /** Every dict built from comment records holds the body as a string. */
  lemma CommentRowsText(comments: seq<CommentRecord>)
    ensures forall i, f :: 0 <= i < |comments| && f in CommentTextFields ==>
      f in CommentRows(comments)[i] && CommentRows(comments)[i][f].Str?
    ensures forall i :: 0 <= i < |comments| ==> CommentRows(comments)[i]["body"] == Str(comments[i].body)
  {
  }

  /** Posts of one subreddit, as main.py sequences them: when the fetch returned any post (the
      guard before cleaning), every title that reaches the load step is non-empty single-line
      text without outer whitespace. */
  lemma PostsPipelineTitles(listing: seq<Submission>, subredditName: string, now: int)
    requires RecentPosts(listing, subredditName, now) != []
    ensures var rows := PostRows(RecentPosts(listing, subredditName, now));
      "title" in ColumnNames(rows) &&
      TextColumns(Cleaned(rows, PostFills, "title"), PostTextFields) &&
      var out := Preprocessed(Cleaned(rows, PostFills, "title"), PostTextFields);
      "title" in out &&
      forall j :: 0 <= j < |out["title"]| ==>
        out["title"][j].Str? && out["title"][j].s != [] &&
        '\n' !in out["title"][j].s && '\r' !in out["title"][j].s && NoOuterSpace(out["title"][j].s)
  {
    var posts := RecentPosts(listing, subredditName, now);
    PostRowsText(posts);
    CleanThenPreprocess(PostRows(posts), PostFills, "title", PostTextFields);
  }

  /** Comments of one post, as main.py sequences them: when the fetch returned any comment, every
      body that reaches the load step is non-empty single-line text without outer whitespace. */
  lemma CommentsPipelineBodies(comments: seq<Comment>, postId: string, subredditName: string, now: int)
    requires RecentComments(comments, postId, subredditName, now) != []
    ensures var rows := CommentRows(RecentComments(comments, postId, subredditName, now));
      "body" in ColumnNames(rows) &&
      TextColumns(Cleaned(rows, CommentFills, "body"), CommentTextFields) &&
      var out := Preprocessed(Cleaned(rows, CommentFills, "body"), CommentTextFields);
      "body" in out &&
      forall j :: 0 <= j < |out["body"]| ==>
        out["body"][j].Str? && out["body"][j].s != [] &&
        '\n' !in out["body"][j].s && '\r' !in out["body"][j].s && NoOuterSpace(out["body"][j].s)
  {
    var records := RecentComments(comments, postId, subredditName, now);
    CommentRowsText(records);
    CleanThenPreprocess(CommentRows(records), CommentFills, "body", CommentTextFields);
  }

  /** Records that all have the same keys give a table with exactly those columns. */
  lemma ColumnNamesOfUniform(records: seq<Row>, keys: set<string>)
    requires |records| > 0 && forall i :: 0 <= i < |records| ==> records[i].Keys == keys
    ensures ColumnNames(records) == keys
  {
    forall c | c in keys ensures c in ColumnNames(records) {
      KeyIsColumn(records, 0, c);
    }
  }

  /** The surviving positions among two records, when only the first survives. */
  lemma SurvivorsOfTwo(records: seq<Row>, fills: map<string, string>, primary: string)
    requires |records| == 2
    requires !IsBlank(FilledValue(records[0], primary, fills)) && IsBlank(FilledValue(records[1], primary, fills))
    ensures SurvivingRecords(records, fills, primary) == [0]
  {
    var m := seq(|records|, i requires 0 <= i < |records| => !IsBlank(FilledValue(records[i], primary, fills)));
    assert |m| == 2 && m[0] && !m[1];
    KeptFirstOfTwo(m);
  }

  /** Of a two-entry mask where only the first is true, the filter selects position 0 alone. */
  lemma KeptFirstOfTwo(m: seq<bool>)
    requires |m| == 2 && m[0] && !m[1]
    ensures Kept(m) == [0]
  {
    assert Kept(m) == Kept(m[..1]);
    assert Kept(m[..1]) == Kept(m[..1][..0]) + [0];
  }

  /** Cleaning two records of which only the first survives gives a one-row table holding the
      first record with its missing values filled. */
  lemma CleanFirstOfTwo(records: seq<Row>, fills: map<string, string>, primary: string)
    requires |records| == 2 && primary in records[0]
    requires !IsBlank(FilledValue(records[0], primary, fills)) && IsBlank(FilledValue(records[1], primary, fills))
    ensures primary in ColumnNames(records)
    ensures var out := Cleaned(records, fills, primary);
      forall c :: c in out ==> out[c] == [FilledValue(records[0], c, fills)]
  {
    KeyIsColumn(records, 0, primary);
    SurvivorsOfTwo(records, fills, primary);
    CleanedRows(records, fills, primary);
    var out := Cleaned(records, fills, primary);
    var ks := SurvivingRecords(records, fills, primary);
    forall c | c in out ensures out[c] == [FilledValue(records[0], c, fills)] {
      assert |out[c]| == 1 && ks[0] == 0;
      assert out[c][0] == FilledValue(records[ks[0]], c, fills);
    }
  }

  /** Extraction over a listing of two in-window submissions followed by an older one. */
  lemma ThreePostExtraction(valid: Submission, blank: Submission, stale: Submission, subredditName: string, now: int)
    requires InWindow(valid.createdUtc, now) && InWindow(blank.createdUtc, now) && !InWindow(stale.createdUtc, now)
    ensures RecentPosts([valid, blank, stale], subredditName, now) == [PostOf(valid, subredditName), PostOf(blank, subredditName)]
  {
    var m := PostMask([valid, blank, stale], now);
    assert m[0] && m[1] && !m[2];
    PrefixLengthUnique(m, 2);
  }

  /** Cleaning two post records of which the second has a blank title keeps the first alone. */
  lemma BlankTitleDropped(p: PostRecord, q: PostRecord)
    requires !AllSpace(p.title) && AllSpace(q.title)
    ensures "title" in ColumnNames(PostRows([p, q]))
    ensures var out := Cleaned(PostRows([p, q]), PostFills, "title");
      (forall c :: c in out ==> |out[c]| == 1) && "title" in out && out["title"] == [Str(p.title)]
  {
    var rows := PostRows([p, q]);
    assert rows[0] == PostRow(p) && rows[1] == PostRow(q);
    PostRowFields(p);
    PostRowFields(q);
    StripEmptyIffAllSpace(p.title);
    StripEmptyIffAllSpace(q.title);
    CleanFirstOfTwo(rows, PostFills, "title");
    CleanedColumnNames(rows, PostFills, "title");
  }

  /** The title cell of a post dict, and how fillna treats it. */
  lemma PostRowFields(p: PostRecord)
    ensures "title" in PostRow(p)
    ensures FilledValue(PostRow(p), "title", PostFills) == Str(p.title)
  {
  }

  /** A subreddit listing three posts: a valid one, one with a blank title, and one older than
      the window. Extraction yields two records, and cleaning keeps one row: the valid post. */
  lemma ThreePostScenario(valid: Submission, blank: Submission, stale: Submission, subredditName: string, now: int)
    requires InWindow(valid.createdUtc, now) && InWindow(blank.createdUtc, now) && !InWindow(stale.createdUtc, now)
    requires !AllSpace(valid.title) && AllSpace(blank.title)
    ensures var posts := RecentPosts([valid, blank, stale], subredditName, now);
      |posts| == 2 && "title" in ColumnNames(PostRows(posts)) &&
      var out := Cleaned(PostRows(posts), PostFills, "title");
      (forall c :: c in out ==> |out[c]| == 1) &&
      "title" in out && out["title"] == [Str(valid.title)]
  {
    ThreePostExtraction(valid, blank, stale, subredditName, now);
    BlankTitleDropped(PostOf(valid, subredditName), PostOf(blank, subredditName));
  }

  /** Extraction over two in-window comments keeps both, in order. */
  lemma TwoCommentExtraction(first: Comment, second: Comment, postId: string, subredditName: string, now: int)
    requires InWindow(first.createdUtc, now) && InWindow(second.createdUtc, now)
    ensures RecentComments([first, second], postId, subredditName, now)
         == [CommentOf(first, postId, subredditName), CommentOf(second, postId, subredditName)]
  {
    RecentCommentsSnoc([], first, postId, subredditName, now);
    RecentCommentsSnoc([first], second, postId, subredditName, now);
    assert [] + [first] == [first] && [first] + [second] == [first, second];
  }

  /** Cleaning two comment records of which the second has a blank body keeps the first alone. */
  lemma BlankBodyDropped(k: CommentRecord, e: CommentRecord)
    requires !AllSpace(k.body) && AllSpace(e.body)
    ensures "body" in ColumnNames(CommentRows([k, e]))
    ensures var out := Cleaned(CommentRows([k, e]), CommentFills, "body");
      (forall c :: c in out ==> |out[c]| == 1) && "body" in out && out["body"] == [Str(k.body)] &&
      "post_id" in out && out["post_id"] == [Str(k.postId)] && "id" in out && out["id"] == [Str(k.id)]
  {
    var rows := CommentRows([k, e]);
    assert rows[0] == CommentRow(k) && rows[1] == CommentRow(e);
    CommentRowFields(k);
    CommentRowFields(e);
    StripEmptyIffAllSpace(k.body);
    StripEmptyIffAllSpace(e.body);
    CleanFirstOfTwo(rows, CommentFills, "body");
    CleanedColumnNames(rows, CommentFills, "body");
    KeyIsColumn(rows, 0, "post_id");
    KeyIsColumn(rows, 0, "id");
  }

  /** The cells of a comment dict that the scenario reads, and how fillna treats them. */
  lemma CommentRowFields(c: CommentRecord)
    ensures FilledValue(CommentRow(c), "body", CommentFills) == Str(c.body)
    ensures FilledValue(CommentRow(c), "post_id", CommentFills) == Str(c.postId)
    ensures FilledValue(CommentRow(c), "id", CommentFills) == Str(c.id)
  {
  }

  /** Comment records give a table with exactly the comment table's columns. */
  lemma CommentColumnsOfRows(comments: seq<CommentRecord>)
    requires |comments| > 0
    ensures ColumnNames(CommentRows(comments)) == CommentColumns
  {
    var rows := CommentRows(comments);
    forall i | 0 <= i < |rows| ensures rows[i].Keys == CommentColumns {
      assert rows[i] == CommentRow(comments[i]);
    }
    ColumnNamesOfUniform(rows, CommentColumns);
  }

  /** A post with two comments in the window, one of them with a blank body: cleaning keeps one
      row, the other comment, with exactly the comment table's columns. */
  lemma TwoCommentScenario(kept: Comment, empty: Comment, postId: string, subredditName: string, now: int)
    requires InWindow(kept.createdUtc, now) && InWindow(empty.createdUtc, now)
    requires !AllSpace(kept.body) && AllSpace(empty.body)
    ensures var records := RecentComments([kept, empty], postId, subredditName, now);
      |records| == 2 && "body" in ColumnNames(CommentRows(records)) &&
      var out := Cleaned(CommentRows(records), CommentFills, "body");
      out.Keys == CommentColumns &&
      out["body"] == [Str(kept.body)] && out["post_id"] == [Str(postId)] && out["id"] == [Str(kept.id)]
  {
    TwoCommentExtraction(kept, empty, postId, subredditName, now);
    var k, e := CommentOf(kept, postId, subredditName), CommentOf(empty, postId, subredditName);
    BlankBodyDropped(k, e);
    CommentColumnsOfRows([k, e]);
    CleanedColumnNames(CommentRows([k, e]), CommentFills, "body");
  }
}
