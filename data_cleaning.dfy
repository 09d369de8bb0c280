/** The cleaning stage: turns a batch of raw records into a table, fills missing text and
    author values, drops rows whose primary text is blank, and normalises text columns.
    A pandas DataFrame is modelled column by column: each column name maps to one cell per row. */
module DataCleaning {
  import opened Common
  import opened Whitespace
  import opened Selection

  /** One DataFrame cell: a string, an integer, a boolean, or pandas' missing value (NaN/None). */
  datatype Cell = Str(s: string) | Int(i: int) | Bool(b: bool) | NA

  /** One raw record (a Python dict): the fields it has. */
  type Row = map<string, Cell>

  /** The columns of a DataFrame. */
  type Columns = map<string, seq<Cell>>

  // ---------------------------------------------------------------------------------------
  // preprocess_text

  /** str.replace for a one-character pattern: every occurrence of target becomes replacement. */
  function ReplaceChar(s: string, target: char, replacement: char): string {
    seq(|s|, k requires 0 <= k < |s| => if s[k] == target then replacement else s[k])
  }

  /** preprocess_text: line feeds, then carriage returns, become spaces; then the ends are stripped. */
  function PreprocessText(text: string): string {
    Strip(ReplaceChar(ReplaceChar(text, '\n', ' '), '\r', ' '))
  }

  /** Reference for the replacement step: each line break character becomes exactly one space,
      every other character stays as it is. */
  function LineBreaksToSpaces(s: string): (r: string)
    ensures |r| == |s|
  {
    seq(|s|, k requires 0 <= k < |s| => if s[k] == '\n' || s[k] == '\r' then ' ' else s[k])
  }

  /** Normalised text is the line-break-free version of the input with only its outer
      whitespace removed: internal runs of spaces are not collapsed, nothing else changes. */
  lemma PreprocessTextIsStrippedLineBreaksToSpaces(text: string)
    ensures IsStripOf(PreprocessText(text), LineBreaksToSpaces(text))
    ensures |PreprocessText(text)| <= |text|
  {
    assert ReplaceChar(ReplaceChar(text, '\n', ' '), '\r', ' ') == LineBreaksToSpaces(text);
    StripMeetsReference(LineBreaksToSpaces(text));
  }

  /** Normalised text is a single line without whitespace at either end. */
  lemma PreprocessTextSingleLineTrimmed(text: string)
    ensures '\n' !in PreprocessText(text) && '\r' !in PreprocessText(text)
    ensures NoOuterSpace(PreprocessText(text))
  {
    var u := LineBreaksToSpaces(text);
    PreprocessTextIsStrippedLineBreaksToSpaces(text);
    var i, j :| StripAt(PreprocessText(text), u, i, j);
    assert forall k :: 0 <= k < |u| ==> u[k] != '\n' && u[k] != '\r';
  }

  /** Normalising twice is normalising once. */
  lemma PreprocessTextIdempotent(text: string)
    ensures PreprocessText(PreprocessText(text)) == PreprocessText(text)
  {
    var r := PreprocessText(text);
    PreprocessTextSingleLineTrimmed(text);
    assert ReplaceChar(r, '\n', ' ') == r;
    assert ReplaceChar(ReplaceChar(r, '\n', ' '), '\r', ' ') == r;
    StripOfTrimmed(r);
  }

  /** Normalisation leaves the empty string exactly when the input is all whitespace. */
  lemma PreprocessTextEmptyIffBlank(text: string)
    ensures PreprocessText(text) == [] <==> AllSpace(text)
  {
    var u := LineBreaksToSpaces(text);
    assert ReplaceChar(ReplaceChar(text, '\n', ' '), '\r', ' ') == u;
    StripEmptyIffAllSpace(u);
    assert forall k :: 0 <= k < |text| ==> (IsSpace(u[k]) <==> IsSpace(text[k]));
  }

  // ---------------------------------------------------------------------------------------
  // Tables and the cleaning steps, as functions on columns

  /** Every column has one cell per row. */
  predicate Rectangular(columns: Columns, height: nat) {
    forall c :: c in columns ==> |columns[c]| == height
  }

  /** The column names pd.DataFrame gives a list of dicts: every key of every record. */
  function ColumnNames(records: seq<Row>): set<string> {
    if records == [] then {} else ColumnNames(records[..|records| - 1]) + records[|records| - 1].Keys
  }

  /** A name is a column exactly when some record has it as a key. */
  lemma {:induction false} ColumnNamesExact(records: seq<Row>, c: string)
    ensures c in ColumnNames(records) <==> exists i :: 0 <= i < |records| && c in records[i]
  {
    if records != [] {
      var front := records[..|records| - 1];
      ColumnNamesExact(front, c);
      assert forall i :: 0 <= i < |front| ==> front[i] == records[i];
    }
  }

  /** The value of column c in one record, NA when the record lacks the key. */
  function CellOf(row: Row, c: string): Cell {
    if c in row then row[c] else NA
  }

  /** pd.DataFrame(records). */
  function FromRecords(records: seq<Row>): (columns: Columns)
    ensures Rectangular(columns, |records|)
  {
    map c | c in ColumnNames(records) :: seq(|records|, i requires 0 <= i < |records| => CellOf(records[i], c))
  }

  /** Series.fillna(value): missing cells become the string value. */
  function FillColumn(column: seq<Cell>, value: string): seq<Cell> {
    seq(|column|, i requires 0 <= i < |column| => if column[i].NA? then Str(value) else column[i])
  }

  /** DataFrame.fillna(fills): fills each listed column that exists; unlisted columns are untouched. */
  function Filled(columns: Columns, fills: map<string, string>): Columns {
    map c | c in columns :: if c in fills then FillColumn(columns[c], fills[c]) else columns[c]
  }

  /** True where `.str.strip() == ''` holds: a string cell that strips to nothing. A non-string
      cell yields NaN there, which never equals '', so such a row is never dropped. */
  predicate IsBlank(cell: Cell) {
    cell.Str? && Strip(cell.s) == []
  }

  function NonBlankMask(column: seq<Cell>): seq<bool> {
    seq(|column|, i requires 0 <= i < |column| => !IsBlank(column[i]))
  }

  /** df[df[primary].str.strip() != '']: every column keeps the rows whose primary cell is not blank. */
  function DropBlank(columns: Columns, height: nat, primary: string): Columns
    requires Rectangular(columns, height) && primary in columns
  {
    var keep := NonBlankMask(columns[primary]);
    map c | c in columns :: Select(columns[c], keep)
  }

  /** The fills clean_posts_data applies. */
  const PostFills: map<string, string> := map["selftext" := "", "author" := Deleted]

  /** The fills clean_comments_data applies. */
  const CommentFills: map<string, string> := map["body" := "", "author" := Deleted]

  /** The table cleaning makes of a batch: build, fill, drop blank primary text. */
  function Cleaned(records: seq<Row>, fills: map<string, string>, primary: string): Columns
    requires primary in ColumnNames(records)
  {
    DropBlank(Filled(FromRecords(records), fills), |records|, primary)
  }

  /** Row-level reference for the fill step: a value the record has passes through, a missing
      one becomes the fill value of its column, if there is one. */
  function FilledValue(row: Row, c: string, fills: map<string, string>): Cell {
    if c in row && !row[c].NA? then row[c] else if c in fills then Str(fills[c]) else NA
  }

  /** The positions of the records that survive cleaning, in increasing order. */
  function SurvivingRecords(records: seq<Row>, fills: map<string, string>, primary: string): seq<nat> {
    Kept(seq(|records|, i requires 0 <= i < |records| => !IsBlank(FilledValue(records[i], primary, fills))))
  }

  /** The records that survive cleaning are exactly those whose filled primary text is not
      blank, and they keep their original order. */
  lemma SurvivingRecordsExact(records: seq<Row>, fills: map<string, string>, primary: string)
    ensures var ks := SurvivingRecords(records, fills, primary);
      (forall j, j' :: 0 <= j < j' < |ks| ==> ks[j] < ks[j']) &&
      (forall i :: 0 <= i < |records| ==> (i in ks <==> !IsBlank(FilledValue(records[i], primary, fills))))
  {
    var ks := SurvivingRecords(records, fills, primary);
    forall i | 0 <= i < |records| && i in ks ensures !IsBlank(FilledValue(records[i], primary, fills)) {
      var j :| 0 <= j < |ks| && ks[j] == i;
    }
  }

  /** The cleaned table has the columns of the batch: every key of every record. */
  lemma CleanedColumnNames(records: seq<Row>, fills: map<string, string>, primary: string)
    requires primary in ColumnNames(records)
    ensures Cleaned(records, fills, primary).Keys == ColumnNames(records)
  {
  }

  /** Row j of the cleaned table is record SurvivingRecords[j] with its missing values filled. */
  lemma CleanedRows(records: seq<Row>, fills: map<string, string>, primary: string)
    requires primary in ColumnNames(records)
    ensures var out := Cleaned(records, fills, primary);
      var ks := SurvivingRecords(records, fills, primary);
      (forall c :: c in out ==> |out[c]| == |ks|) &&
      (forall c, j :: c in out && 0 <= j < |ks| ==> ks[j] < |records| && out[c][j] == FilledValue(records[ks[j]], c, fills))
  {
    var filled := Filled(FromRecords(records), fills);
    FilledAgreesWithRows(records, fills);
    var keep := NonBlankMask(filled[primary]);
    var keep' := seq(|records|, i requires 0 <= i < |records| => !IsBlank(FilledValue(records[i], primary, fills)));
    assert keep == keep' by {
      forall i | 0 <= i < |records| ensures keep[i] == keep'[i] {
        assert filled[primary][i] == FilledValue(records[i], primary, fills);
      }
    }
    DropBlankSelects(filled, |records|, primary);
  }

  /** Dropping blank rows keeps, in every column, the cells of the same rows. */
  lemma DropBlankSelects(columns: Columns, height: nat, primary: string)
    requires Rectangular(columns, height) && primary in columns
    ensures var out := DropBlank(columns, height, primary);
      var ks := Kept(NonBlankMask(columns[primary]));
      out.Keys == columns.Keys &&
      (forall c :: c in out ==> |out[c]| == |ks|) &&
      (forall c, j :: c in out && 0 <= j < |ks| ==> ks[j] < height && out[c][j] == columns[c][ks[j]])
  {
  }

  /** Building the table and filling it agrees, cell by cell, with filling each record. */
  lemma FilledAgreesWithRows(records: seq<Row>, fills: map<string, string>)
    ensures var filled := Filled(FromRecords(records), fills);
      filled.Keys == ColumnNames(records) && Rectangular(filled, |records|) &&
      forall c, i :: c in filled && 0 <= i < |records| ==> filled[c][i] == FilledValue(records[i], c, fills)
  {
  }

  /** Every row that survives cleaning has primary text that is not blank; when the primary
      column is also filled (comment bodies), none of its cells is missing either. */
  lemma CleanedPrimaryNotBlank(records: seq<Row>, fills: map<string, string>, primary: string)
    requires primary in ColumnNames(records)
    ensures var out := Cleaned(records, fills, primary);
      primary in out &&
      forall j :: 0 <= j < |out[primary]| ==>
        !IsBlank(out[primary][j]) &&
        (out[primary][j].Str? ==> !AllSpace(out[primary][j].s)) &&
        (primary in fills ==> !out[primary][j].NA?)
  {
    CleanedRows(records, fills, primary);
    var out := Cleaned(records, fills, primary);
    var ks := SurvivingRecords(records, fills, primary);
    forall j | 0 <= j < |out[primary]|
      ensures !IsBlank(out[primary][j]) && (out[primary][j].Str? ==> !AllSpace(out[primary][j].s))
    {
      var cell := out[primary][j];
      assert cell == FilledValue(records[ks[j]], primary, fills);
      assert ks[j] in ks;
      assert !IsBlank(cell);
      if cell.Str? {
        StripEmptyIffAllSpace(cell.s);
      }
    }
  }

  // ---------------------------------------------------------------------------------------
  // preprocess_dataframe, as a function on columns

  predicate AllStr(column: seq<Cell>) {
    forall i :: 0 <= i < |column| ==> column[i].Str?
  }

  /** Each listed field is a column made of strings (preprocess_text raises on anything else). */
  predicate TextColumns(columns: Columns, fields: seq<string>) {
    forall f :: f in fields ==> f in columns && AllStr(columns[f])
  }

  /** Series.apply(preprocess_text). */
  function PreprocessColumn(column: seq<Cell>): (r: seq<Cell>)
    requires AllStr(column)
    ensures AllStr(r)
  {
    seq(|column|, i requires 0 <= i < |column| => Str(PreprocessText(column[i].s)))
  }

  /** The table after every listed column has been normalised once. */
  function Preprocessed(columns: Columns, fields: seq<string>): Columns
    requires TextColumns(columns, fields)
  {
    map c | c in columns :: if c in fields then PreprocessColumn(columns[c]) else columns[c]
  }

  lemma PreprocessColumnIdempotent(column: seq<Cell>)
    requires AllStr(column)
    ensures PreprocessColumn(PreprocessColumn(column)) == PreprocessColumn(column)
  {
    forall i | 0 <= i < |column| {
      PreprocessTextIdempotent(column[i].s);
    }
  }

  /** Preprocessing changes only the listed columns and keeps every row: the listed columns
      become single-line text without outer whitespace, every other column is unchanged. */
  lemma PreprocessedChangesOnlyListed(columns: Columns, fields: seq<string>)
    requires TextColumns(columns, fields)
    ensures var out := Preprocessed(columns, fields);
      out.Keys == columns.Keys &&
      (forall c :: c in columns && c !in fields ==> out[c] == columns[c]) &&
      (forall c :: c in columns && c in fields ==> |out[c]| == |columns[c]|) &&
      (forall c, i :: c in columns && c in fields && 0 <= i < |out[c]| ==>
         out[c][i].Str? && '\n' !in out[c][i].s && '\r' !in out[c][i].s && NoOuterSpace(out[c][i].s))
  {
    forall c, i | c in columns && c in fields && 0 <= i < |columns[c]| {
      PreprocessTextSingleLineTrimmed(columns[c][i].s);
    }
  }

  /** Normalising one more field updates just that column; a field normalised before is left
      as it is, because normalising is idempotent. */
  lemma PreprocessedSnoc(columns: Columns, fields: seq<string>, f: string)
    requires TextColumns(columns, fields + [f])
    ensures TextColumns(columns, fields) && TextColumns(Preprocessed(columns, fields), [f])
    ensures Preprocessed(columns, fields + [f])
         == Preprocessed(columns, fields)[f := PreprocessColumn(Preprocessed(columns, fields)[f])]
  {
    assert f in fields + [f];
    assert TextColumns(columns, fields) by {
      forall g | g in fields ensures g in columns && AllStr(columns[g]) {
        assert g in fields + [f];
      }
    }
    var before := Preprocessed(columns, fields);
    var lhs := Preprocessed(columns, fields + [f]);
    var rhs := before[f := PreprocessColumn(before[f])];
    assert lhs.Keys == rhs.Keys;
    forall c | c in lhs ensures lhs[c] == rhs[c] {
      if c == f {
        if f in fields {
          PreprocessColumnIdempotent(columns[f]);
        }
      } else {
        assert (c in fields + [f]) == (c in fields);
      }
    }
  }

  // ---------------------------------------------------------------------------------------
  // The DataFrame and the steps that update it

  /** A pandas DataFrame: named columns of equal height. */
  class DataFrame {
    var columns: Columns
    var height: nat

    ghost predicate Valid()
      reads this
    {
      Rectangular(columns, height)
    }

    /** pd.DataFrame(records). */
    constructor (records: seq<Row>)
      ensures Valid() && height == |records| && columns == FromRecords(records)
    {
      columns := FromRecords(records);
      height := |records|;
    }

    /** df.fillna(fills, inplace=True). */
    method FillNA(fills: map<string, string>)
      requires Valid()
      modifies this
      ensures Valid() && height == old(height)
      ensures columns == Filled(old(columns), fills)
    {
      columns := Filled(columns, fills);
    }

    /** df = df[df[primary].str.strip() != '']. */
    method DropBlankRows(primary: string)
      requires Valid() && primary in columns
      modifies this
      ensures Valid() && columns.Keys == old(columns.Keys)
      ensures columns == DropBlank(old(columns), old(height), primary)
      ensures height == |Kept(NonBlankMask(old(columns)[primary]))|
    {
      var keep := NonBlankMask(columns[primary]);
      columns := DropBlank(columns, height, primary);
      height := |Kept(keep)|;
    }
  }

  /** clean_posts_data (type coercions and timestamp parsing left out). */
  method CleanPostsData(posts: seq<Row>) returns (df: DataFrame)
    requires "title" in ColumnNames(posts)
    ensures fresh(df) && df.Valid()
    ensures df.columns == Cleaned(posts, PostFills, "title")
  {
    df := new DataFrame(posts);
    df.FillNA(PostFills);
    df.DropBlankRows("title");
  }

  /** clean_comments_data (type coercions and timestamp parsing left out). */
  method CleanCommentsData(comments: seq<Row>) returns (df: DataFrame)
    requires "body" in ColumnNames(comments)
    ensures fresh(df) && df.Valid()
    ensures df.columns == Cleaned(comments, CommentFills, "body")
  {
    df := new DataFrame(comments);
    df.FillNA(CommentFills);
    df.DropBlankRows("body");
  }

  /** preprocess_dataframe: normalises each listed column in turn, in place, and returns the
      same DataFrame. A field listed twice is normalised twice, which normalising once equals. */
  method PreprocessDataFrame(df: DataFrame, textFields: seq<string>) returns (result: DataFrame)
    requires df.Valid() && TextColumns(df.columns, textFields)
    modifies df
    ensures result == df && df.Valid() && df.height == old(df.height)
    ensures df.columns == Preprocessed(old(df.columns), textFields)
  {
    var i := 0;
    while i < |textFields|
      invariant 0 <= i <= |textFields|
      invariant df.Valid() && df.height == old(df.height)
      invariant df.columns == Preprocessed(old(df.columns), textFields[..i])
    {
      var field := textFields[i];
      assert textFields[..i + 1] == textFields[..i] + [field];
      PreprocessedSnoc(old(df.columns), textFields[..i], field);
      df.columns := df.columns[field := PreprocessColumn(df.columns[field])];
      i := i + 1;
    }
    assert textFields[..i] == textFields;
    result := df;
  }
}
