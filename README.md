# RedditMiner extraction and cleaning, modelled in Dafny

RedditMiner is a scheduled batch job. For each configured subreddit it fetches the posts of the
last day from the Reddit API, and the comments on those posts. It cleans the records into
pandas DataFrames and appends them to BigQuery tables. This project models the two parts that
have logic of their own, and proves properties about them:

- **Extraction** (`data_extraction.py`). `fetch_subreddit_posts` walks the subreddit's
  newest-first listing. It stops at the first submission created before `now − 1 day`.
  `fetch_post_comments` walks all comments of a post and skips the old ones. Both shape each
  kept item into a record. An absent author becomes `"[deleted]"`. Posts carry the requested
  subreddit name and comments the requested post id.
- **Cleaning** (`data_cleaning.py`). `clean_posts_data` and `clean_comments_data` build a
  DataFrame from the records and fill missing text and author cells. They then drop the rows
  whose title (posts) or body (comments) is blank after `str.strip()`. `preprocess_text` turns
  each `\n` and `\r` into a space and strips the result. `preprocess_dataframe` applies it, in
  place, to each listed column.

Modelling choices:

- The Reddit client is replaced by the sequence it yields: `seq<Submission>` for a listing,
  `seq<Comment>` for a flattened comment forest. The wall clock is the parameter `now`.
  Instants are integer seconds, and the window is 86400 seconds. A comment's subreddit
  (the display name of the post's subreddit) is the parameter `subredditName`.
- The two fetch functions are methods with loops. The posts loop ends with `break`. The
  comments loop uses `continue`. Each is proved equal to a specification function
  (`RecentPosts`, `RecentComments`) and to a direct description of its result.
- A DataFrame is a class whose columns are a `map<string, seq<Cell>>` with one cell per row.
  `Cell` is a string, an integer, a boolean or `NA` (pandas' NaN/None). The cleaning steps
  are methods that update the columns in place. Each method is specified by a function on
  columns. The properties are proved about those functions.
- Whitespace is the full set for which Python's `str.isspace()` holds: U+0009–U+000D,
  U+001C–U+001F, U+0020, U+0085, U+00A0, U+1680, U+2000–U+200A, U+2028, U+2029, U+202F,
  U+205F and U+3000. `Strip` removes exactly these from both ends.
- `df[col].str.strip() != ''` is true for a cell that is not a string, because `.str` gives NaN
  there. So a missing title survives the blank-title filter of `clean_posts_data`. The model
  keeps this behaviour (`IsBlank` holds only of string cells). Titles produced by the
  extraction are always strings, so the pipeline lemmas still show that no empty title is loaded.
- The docstring of `preprocess_text` (`data_cleaning.py:63`) says it removes "extra whitespace",
  and the comment at line 71 says it removes "extra spaces". The code only strips the two ends
  and does not collapse runs inside the text. The model follows the code.
- The window is one day. It is fixed in the code, so the model uses the constant `OneDay`.

## Model

| member | source | states |
|---|---|---|
| DataExtraction.InWindow | data_extraction.py:19-23 | Definition: a creation time is in the window unless it is strictly earlier than now − 86400 seconds (the same test is at lines 57 and 61) |
| DataExtraction.AuthorName | data_extraction.py:30 | Definition: the author's name, or "[deleted]" when the API reports no author (the same rule is at line 69) |
| DataExtraction.PostOf | data_extraction.py:26-38 | Definition: the post record of a submission, built from its id, title, selftext, author name, creation time, score, comment count, url and NSFW flag, plus the requested subreddit name |
| DataExtraction.CommentOf | data_extraction.py:64-73 | Definition: the comment record of a comment, built from its id, parent id, body, author name, creation time and score, plus the requested post id and the subreddit name |
| DataExtraction.RecentPosts | data_extraction.py:21-38 | Definition: the records of the submissions that come before the first one outside the window, in listing order |
| DataExtraction.RecentComments | data_extraction.py:59-73 | Definition: the records of every comment inside the window, in their original order |
| DataExtraction.FetchSubredditPosts | data_extraction.py:5-40 | Returns the records of the longest prefix of the listing that lies in the window, position by position; every returned submission is in the window, and the one after the last returned is not; output length at most input length |
| DataExtraction.FetchPostComments | data_extraction.py:42-75 | Returns exactly the window filter of all comments (`RecentComments`); every record carries the requested post id and subreddit; output length at most input length |
| DataExtraction.RecentPostsShape | data_extraction.py:26-38 | Each post record comes from the listing entry at the same position: created at or after now − 1 day, same id and creation time, subreddit equal to the requested name, author equal to the submission's author or exactly "[deleted]" when absent |
| DataExtraction.RecentPostsStopAtFirstOld | data_extraction.py:21-24 | Once a submission is older than the window, nothing at or after its position is returned, even a newer submission |
| DataExtraction.PostWindowBoundary | data_extraction.py:19-24 | The window is closed at its old end: a first submission created exactly at now − 1 day is kept, one created a second earlier ends the walk with no posts |
| DataExtraction.CommentWindowBoundary | data_extraction.py:57-62 | A comment created exactly at now − 1 day is kept; one created a second earlier is skipped |
| DataExtraction.RecentCommentsSnoc | data_extraction.py:59-73 | One more comment appends its record exactly when it is in the window (the loop step) |
| DataExtraction.RecentCommentsAppend | data_extraction.py:59-62 | The comment filter distributes over concatenation: it preserves order, and an old comment is skipped without ending the scan |
| DataExtraction.RecentCommentsExact | data_extraction.py:59-73 | Every in-window comment's record is in the result; every record is that of an in-window comment, with the requested post id and the author or "[deleted]" |
| DataExtraction.RecentPostsPrefixOfWindowed | data_extraction.py:21-24 | The take-while result is a prefix of the scan-and-filter result over the same listing |
| DataExtraction.RecentPostsOfNewestFirst | data_extraction.py:21-24 | On a listing whose creation times never increase, the take-while equals the scan-and-filter |
| DataExtraction.OutOfOrderListingLosesPosts | data_extraction.py:21-24 | If an old submission precedes a recent one, the take-while returns nothing while the filter returns the recent post |
| Selection.Kept | data_cleaning.py:22 | The positions selected by a boolean mask: in range, all selected, strictly increasing, and every true position present |
| Selection.PrefixLength | data_extraction.py:21-24 | The length of the longest all-true prefix of a mask: every earlier entry true, the entry at that position false or absent |
| Selection.PrefixLengthUnique | data_extraction.py:21-24 | Any length with the three prefix properties is PrefixLength |
| Selection.PrefixOfKept | data_extraction.py:21-24 | The first PrefixLength selected positions are 0, 1, 2, …: take-while is a prefix of filter |
| Selection.KeptOfSortedMask | data_extraction.py:21-24 | When every true precedes every false, the filter selects exactly PrefixLength positions |
| Whitespace.Strip | data_cleaning.py:72 | Definition: removes the leading whitespace, then the trailing whitespace, where whitespace is the set for which Python's `str.isspace()` holds |
| Whitespace.TrimStart | data_cleaning.py:72 | Result is a suffix of the input, only whitespace was removed, and it does not start with whitespace |
| Whitespace.TrimEnd | data_cleaning.py:72 | Result is a prefix of the input, only whitespace was removed, and it does not end with whitespace |
| Whitespace.StripMeetsReference | data_cleaning.py:72 | Strip(s) is a slice of s with only whitespace outside it and no whitespace at its ends |
| Whitespace.StripAtCovers | data_cleaning.py:72 | A non-empty stripped slice lies inside every other stripped slice of the same string |
| Whitespace.StripReferenceUnique | data_cleaning.py:72 | At most one string is a stripped slice of s |
| Whitespace.StripCharacterized | data_cleaning.py:72 | r is a stripped slice of s if and only if r == Strip(s) |
| Whitespace.StripEmptyIffAllSpace | data_cleaning.py:22 | Stripping leaves the empty string exactly when the input is all whitespace |
| Whitespace.StripOfTrimmed | data_cleaning.py:72 | A string without outer whitespace is its own strip |
| DataCleaning.PreprocessText | data_cleaning.py:61-73 | Definition: each `\n`, then each `\r`, becomes a space, and the result is then passed to `Strip` |
| DataCleaning.PreprocessTextIsStrippedLineBreaksToSpaces | data_cleaning.py:72 | The output is the input with each \n or \r replaced by exactly one space and only outer whitespace removed: no run is collapsed, other characters keep their order; never longer than the input |
| DataCleaning.PreprocessTextSingleLineTrimmed | data_cleaning.py:72 | The output contains no \n and no \r and neither starts nor ends with whitespace |
| DataCleaning.PreprocessTextIdempotent | data_cleaning.py:72 | Normalising twice equals normalising once |
| DataCleaning.PreprocessTextEmptyIffBlank | data_cleaning.py:72 | The output is empty exactly when the input is all whitespace |
| DataCleaning.ColumnNames | data_cleaning.py:16 | Definition: the union of the keys of all the records |
| DataCleaning.Filled | data_cleaning.py:19 | Definition: in each column that the fills name, every missing cell becomes that column's fill string; other cells and columns are unchanged, and fills for absent columns are ignored (the same step is at line 48) |
| DataCleaning.IsBlank | data_cleaning.py:22 | Definition: a string cell whose `Strip` is empty; a missing or non-string cell is never blank (the same test is at line 51) |
| DataCleaning.DropBlank | data_cleaning.py:22 | Definition: every column keeps only the rows whose primary cell is not blank, in their original order (the same filter is at line 51) |
| DataCleaning.Cleaned | data_cleaning.py:16-22 | Definition: builds the table from the records, applies the fills, then drops the rows with blank primary text (the same sequence is at lines 45-51) |
| DataCleaning.ColumnNamesExact | data_cleaning.py:16 | A name is a column of the table built from records exactly when some record has that key |
| DataCleaning.FromRecords | data_cleaning.py:16 | Every column of the built table has one cell per record |
| DataCleaning.FilledAgreesWithRows | data_cleaning.py:19-48 | After the fill, each cell is the record's present value, or its column's fill value when missing, or NA when the column has no fill value |
| DataCleaning.DropBlankSelects | data_cleaning.py:22 | Dropping blank rows keeps the columns and, in every column, the cells of the same surviving rows |
| DataCleaning.SurvivingRecordsExact | data_cleaning.py:22-51 | The surviving rows are exactly those whose filled primary text is not blank, in increasing (original) order |
| DataCleaning.CleanedColumnNames | data_cleaning.py:16-22 | The cleaned table has exactly the batch's column names |
| DataCleaning.CleanedRows | data_cleaning.py:16-22 | Row j of the cleaned table is surviving record j with missing values filled: a present selftext/body/author passes through, a missing one becomes '' or "[deleted]" |
| DataCleaning.CleanedPrimaryNotBlank | data_cleaning.py:51 | Every kept title or body is not blank, and a kept string holds a non-whitespace character; a filled primary column (comment bodies) holds no missing cell |
| DataCleaning.Preprocessed | data_cleaning.py:86-88 | Definition: every listed column has `PreprocessText` applied to each of its cells; the other columns are unchanged |
| DataCleaning.PreprocessColumn | data_cleaning.py:87 | Applying preprocess_text to a string column yields a string column |
| DataCleaning.PreprocessColumnIdempotent | data_cleaning.py:87 | Normalising a column twice equals normalising it once |
| DataCleaning.PreprocessedChangesOnlyListed | data_cleaning.py:86-88 | The same columns remain; unlisted columns are unchanged; listed ones keep their length and hold single-line text without outer whitespace |
| DataCleaning.PreprocessedSnoc | data_cleaning.py:86-88 | Normalising one more listed field updates only that column, and a field listed twice changes nothing more |
| DataCleaning.DataFrame.constructor | data_cleaning.py:16 | Builds the table of a batch of records, with one row per record |
| DataCleaning.DataFrame.FillNA | data_cleaning.py:19 | Replaces the columns by their filled version in place; the height is unchanged |
| DataCleaning.DataFrame.DropBlankRows | data_cleaning.py:22 | Keeps, in every column, the rows whose primary cell is not blank; the height becomes the number of kept rows |
| DataCleaning.CleanPostsData | data_cleaning.py:5-32 | Returns a fresh, well-formed table equal to the batch cleaned with fills selftext → '' and author → "[deleted]" and with blank titles dropped |
| DataCleaning.CleanCommentsData | data_cleaning.py:34-59 | Returns a fresh, well-formed table equal to the batch cleaned with fills body → '' and author → "[deleted]" and with blank bodies dropped |
| DataCleaning.PreprocessDataFrame | data_cleaning.py:75-88 | Normalises every listed column of the same DataFrame in place and returns it; the height and every other column stay as they were |
| Pipeline.PostRow | data_extraction.py:26-38 | Definition: the post dict, keyed id, title, selftext, author, created_utc, score, num_comments, subreddit, url and over_18 (upvote_ratio is left out) |
| Pipeline.CommentRow | data_extraction.py:64-73 | Definition: the comment dict, keyed id, post_id, parent_id, body, author, created_utc, score and subreddit |
| Pipeline.KeyIsColumn | data_cleaning.py:16 | A key of any record is a column of the built table |
| Pipeline.CleanedTextColumns | data_cleaning.py:16-22 | Fields that every record holds as a string remain string columns after filling and dropping blank rows |
| Pipeline.CleanThenPreprocess | data_cleaning.py:86-88 | For a non-empty batch with string fields, cleaning then normalising leaves the fields as text columns, and every kept primary value is non-empty, single-line and trimmed |
| Pipeline.PostRowsText | data_extraction.py:26-38 | The dicts built from post records hold the title and selftext as strings |
| Pipeline.CommentRowsText | data_extraction.py:64-73 | The dicts built from comment records hold the body as a string |
| Pipeline.PostsPipelineTitles | main.py:39-46 | When the fetch returned posts, cleaning can run, and after normalisation every title is non-empty single-line text without outer whitespace |
| Pipeline.CommentsPipelineBodies | main.py:51-54 | When the fetch returned comments, after cleaning and normalisation every body is non-empty single-line text without outer whitespace |
| Pipeline.ColumnNamesOfUniform | data_cleaning.py:16 | Records that share one key set give a table with exactly those columns |
| Pipeline.SurvivorsOfTwo | data_cleaning.py:22 | Of two records where only the first has non-blank primary text, only position 0 survives |
| Pipeline.CleanFirstOfTwo | data_cleaning.py:16-22 | Cleaning two records where only the first survives gives one row: the first record, filled |
| Pipeline.ThreePostExtraction | data_extraction.py:21-38 | Two in-window submissions followed by an old one yield exactly the two records |
| Pipeline.BlankTitleDropped | data_cleaning.py:22 | Of two post records, the one with a blank title is dropped and the other is kept |
| Pipeline.ThreePostScenario | main.py:39-45 | A valid post, a blank-title post and an old post: extraction yields two records and cleaning keeps one row, the valid post |
| Pipeline.TwoCommentExtraction | data_extraction.py:59-73 | Two in-window comments yield both records, in order |
| Pipeline.BlankBodyDropped | data_cleaning.py:51 | Of two comment records, the one with a blank body is dropped; the other keeps its id, post id and body |
| Pipeline.CommentColumnsOfRows | data_extraction.py:64-73 | Any non-empty batch of comment records gives a table with exactly the eight comment columns |
| Pipeline.TwoCommentScenario | main.py:51-53 | Two in-window comments, one with a blank body: cleaning yields one row with exactly the comment columns and the other comment's fields |

## Left out

- Reddit client calls (`reddit.subreddit`, `subreddit.new(limit=None)`, `reddit.submission`, `replace_more`, `comments.list()`): remote API behaviour. They are replaced by the sequence they yield.
- `datetime.now`, `datetime.fromtimestamp` and `isoformat`: the clock is the parameter `now`. Timestamps are integer seconds, and a record's `created_utc` is kept as those seconds, not as an ISO string.
- `upvote_ratio`: a floating-point value passed through unchanged. It is not part of the records.
- The type coercions `astype(int)`, `astype(bool)` and `pd.to_datetime` in both cleaning functions: their behaviour belongs to pandas. Scores and counts are integers already, and a coercion failure is not modelled.
- DataCleaning.CleanPostsData: requires that some record has a `title` key. pandas raises a KeyError otherwise, and `main.py` only calls it on a non-empty batch of records that all have one. It also does not model the AttributeError pandas raises when a title column holds no strings at all.
- DataCleaning.CleanCommentsData: requires that some record has a `body` key. pandas raises a KeyError otherwise, for example on an empty batch. The guard at `main.py:52` means it is only called on a non-empty batch of records that all have one. It also does not model the AttributeError pandas raises when the body column holds no strings at all.
- DataCleaning.PreprocessDataFrame: requires that each listed column exists and holds only strings, because `preprocess_text` raises on anything else. The error path is not modelled.
- The DataFrame index labels are not modelled. Row order is captured instead by `SurvivingRecords`, which lists the original row positions in increasing order.
- `data_loading.py` (dataset and table creation, `load_table_from_dataframe`), `helpers.py`, `reddit_client.py` and the rest of `main.py` (logging, credentials, the loop over subreddits and post ids): remote calls, secrets and configuration. They are not part of this model.
