/** `get_keywords` and `get_content` (process_sheet.py): the maps from content
    title to keywords and to content that the two English-filling passes read
    from the English master sheet. */
module EnglishMaster {
  import opened Wrappers
  import opened Text
  import opened Sheets

  /** `get_content_title(row)`: the title (`value or ""`) without its
      language prefix. A non-zero number has no `startswith`, and a language
      that is not a string cannot be a prefix; both raise. */
  function EnglishTitle(row: Row, cols: Columns): Result<string, Crash> {
    match cols.title
    case Err(e) => Err(e)
    case Ok(t) =>
      match cols.language
      case Err(e) => Err(e)
      case Ok(l) =>
        match TextOrEmpty(CellAt(row, t))
        case Err(e) => Err(e)
        case Ok(text) => StripLanguagePrefix(text, CellAt(row, l))
  }

  /** What one row of `get_keywords` contributes: nothing for an untitled row,
      else its title and its automation cell split at commas (untrimmed). The
      filter reads the title first, then the key, then the value. */
  function KeywordEntry(row: Row, cols: Columns): Result<Option<(string, seq<string>)>, Crash> {
    match cols.title
    case Err(e) => Err(e)
    case Ok(t) =>
      if !Truthy(CellAt(row, t)) then Ok(None)
      else
        match EnglishTitle(row, cols)
        case Err(e) => Err(e)
        case Ok(k) =>
          match cols.automation
          case Err(e) => Err(e)
          case Ok(a) =>
            match TextOrEmpty(CellAt(row, a))
            case Err(e) => Err(e)
            case Ok(text) => Ok(Some((k, Split(text, ","))))
  }

  /** What one row of `get_content` contributes: nothing unless both its title
      and its content are truthy (the content is read only for a titled row). */
  function ContentEntry(row: Row, cols: Columns): Result<Option<(string, Cell)>, Crash> {
    match cols.title
    case Err(e) => Err(e)
    case Ok(t) =>
      if !Truthy(CellAt(row, t)) then Ok(None)
      else
        match cols.content
        case Err(e) => Err(e)
        case Ok(c) =>
          if !Truthy(CellAt(row, c)) then Ok(None)
          else
            match EnglishTitle(row, cols)
            case Err(e) => Err(e)
            case Ok(k) => Ok(Some((k, CellAt(row, c))))
  }

  /** A dict comprehension over the data rows: rows in order, a later row
      with the same key overwriting an earlier one, the first exception
      ending it. */
  function EntryMap<V>(rows: seq<Row>, f: Row -> Result<Option<(string, V)>, Crash>): Result<map<string, V>, Crash> {
    if rows == [] then Ok(map[])
    else
      match EntryMap(rows[..|rows| - 1], f)
      case Err(e) => Err(e)
      case Ok(m) =>
        match f(rows[|rows| - 1])
        case Err(e) => Err(e)
        case Ok(None) => Ok(m)
        case Ok(Some((k, v))) => Ok(m[k := v])
  }

  predicate HasKey<V>(r: Result<Option<(string, V)>, Crash>, k: string) {
    r.Ok? && r.value.Some? && r.value.value.0 == k
  }

  /** The comprehension raises exactly when some row raises. */
  lemma {:induction false} EntryMapErr<V>(rows: seq<Row>, f: Row -> Result<Option<(string, V)>, Crash>)
    ensures EntryMap(rows, f).Err? <==> exists j :: 0 <= j < |rows| && f(rows[j]).Err?
  {
    if rows != [] {
      var n := |rows| - 1;
      var p := rows[..n];
      EntryMapErr(p, f);
      if exists j :: 0 <= j < |p| && f(p[j]).Err? {
        var j :| 0 <= j < |p| && f(p[j]).Err?;
        assert rows[j] == p[j];
      }
      if exists j :: 0 <= j < |rows| && f(rows[j]).Err? {
        var j :| 0 <= j < |rows| && f(rows[j]).Err?;
        if j < n {
          assert rows[j] == p[j];
        }
      }
    }
  }

  /** A title is a key exactly when some row contributes it. */
  lemma {:induction false} EntryMapKeys<V>(rows: seq<Row>, f: Row -> Result<Option<(string, V)>, Crash>, k: string)
    requires EntryMap(rows, f).Ok?
    ensures k in EntryMap(rows, f).value <==> exists j :: 0 <= j < |rows| && HasKey(f(rows[j]), k)
  {
    if rows != [] {
      var n := |rows| - 1;
      var p := rows[..n];
      EntryMapKeys(p, f, k);
      if exists j :: 0 <= j < |p| && HasKey(f(p[j]), k) {
        var j :| 0 <= j < |p| && HasKey(f(p[j]), k);
        assert rows[j] == p[j];
      }
      if exists j :: 0 <= j < |rows| && HasKey(f(rows[j]), k) {
        var j :| 0 <= j < |rows| && HasKey(f(rows[j]), k);
        if j < n {
          assert rows[j] == p[j];
        }
      }
    }
  }

  /** The value of a key is the one the last row contributing it gives. */
  lemma {:induction false} EntryMapLast<V>(rows: seq<Row>, f: Row -> Result<Option<(string, V)>, Crash>, j: nat, k: string, v: V)
    requires EntryMap(rows, f).Ok? && j < |rows| && f(rows[j]) == Ok(Some((k, v)))
    requires forall m :: j < m < |rows| ==> !HasKey(f(rows[m]), k)
    ensures k in EntryMap(rows, f).value && EntryMap(rows, f).value[k] == v
  {
    var n := |rows| - 1;
    var p := rows[..n];
    if j < n {
      assert forall m :: j < m < |p| ==> p[m] == rows[m];
      assert p[j] == rows[j];
      EntryMapLast(p, f, j, k, v);
      assert !HasKey(f(rows[n]), k);
    }
  }

  function KeywordEntrier(cols: Columns): Row -> Result<Option<(string, seq<string>)>, Crash> {
    row => KeywordEntry(row, cols)
  }

  function ContentEntrier(cols: Columns): Row -> Result<Option<(string, Cell)>, Crash> {
    row => ContentEntry(row, cols)
  }

  /** `get_keywords(sheet)`, given the sheet's column lookups. */
  function GetKeywords(sheet: Sheet, cols: Columns): Result<map<string, seq<string>>, Crash> {
    EntryMap(sheet.rows, KeywordEntrier(cols))
  }

  /** `get_content(sheet)`, given the sheet's column lookups. */
  function GetContent(sheet: Sheet, cols: Columns): Result<map<string, Cell>, Crash> {
    EntryMap(sheet.rows, ContentEntrier(cols))
  }

  // ---------------------------------------------------------------------
  // what the two maps hold

  /** A title is in the keyword map exactly when some titled row of the sheet
      has it once its language prefix is stripped. */
  lemma GetKeywordsKeys(sheet: Sheet, t: nat, cols: Columns, k: string)
    requires cols.title == Ok(t) && GetKeywords(sheet, cols).Ok?
    ensures k in GetKeywords(sheet, cols).value <==>
      exists j :: 0 <= j < |sheet.rows| && Truthy(CellAt(sheet.rows[j], t)) && EnglishTitle(sheet.rows[j], cols) == Ok(k)
  {
    var f := KeywordEntrier(cols);
    EntryMapKeys(sheet.rows, f, k);
    EntryMapErr(sheet.rows, f);
    forall j | 0 <= j < |sheet.rows|
      ensures HasKey(f(sheet.rows[j]), k) <==> Truthy(CellAt(sheet.rows[j], t)) && EnglishTitle(sheet.rows[j], cols) == Ok(k)
    {
      assert f(sheet.rows[j]) == KeywordEntry(sheet.rows[j], cols);
    }
  }

  /** The keywords of a title are the automation cell, split at commas, of
      the last titled row with that title. */
  lemma GetKeywordsValue(sheet: Sheet, a: nat, t: nat, cols: Columns, j: nat, k: string)
    requires cols.title == Ok(t) && cols.automation == Ok(a) && GetKeywords(sheet, cols).Ok?
    requires j < |sheet.rows| && Truthy(CellAt(sheet.rows[j], t)) && EnglishTitle(sheet.rows[j], cols) == Ok(k)
    requires forall m :: j < m < |sheet.rows| && Truthy(CellAt(sheet.rows[m], t)) ==> EnglishTitle(sheet.rows[m], cols) != Ok(k)
    ensures TextOrEmpty(CellAt(sheet.rows[j], a)).Ok?
    ensures k in GetKeywords(sheet, cols).value
    ensures GetKeywords(sheet, cols).value[k] == Split(TextOrEmpty(CellAt(sheet.rows[j], a)).value, ",")
  {
    var f := KeywordEntrier(cols);
    EntryMapErr(sheet.rows, f);
    assert f(sheet.rows[j]) == KeywordEntry(sheet.rows[j], cols);
    forall m | j < m < |sheet.rows| ensures !HasKey(f(sheet.rows[m]), k) {
      assert f(sheet.rows[m]) == KeywordEntry(sheet.rows[m], cols);
    }
    EntryMapLast(sheet.rows, f, j, k, Split(TextOrEmpty(CellAt(sheet.rows[j], a)).value, ","));
  }

  /** A title is in the content map exactly when some row with a truthy title
      and truthy content has it once its language prefix is stripped. */
  lemma GetContentKeys(sheet: Sheet, c: nat, t: nat, cols: Columns, k: string)
    requires cols.title == Ok(t) && cols.content == Ok(c) && GetContent(sheet, cols).Ok?
    ensures k in GetContent(sheet, cols).value <==>
      exists j :: 0 <= j < |sheet.rows| && Truthy(CellAt(sheet.rows[j], t)) && Truthy(CellAt(sheet.rows[j], c))
        && EnglishTitle(sheet.rows[j], cols) == Ok(k)
  {
    var f := ContentEntrier(cols);
    EntryMapKeys(sheet.rows, f, k);
    forall j | 0 <= j < |sheet.rows|
      ensures HasKey(f(sheet.rows[j]), k) <==>
        Truthy(CellAt(sheet.rows[j], t)) && Truthy(CellAt(sheet.rows[j], c)) && EnglishTitle(sheet.rows[j], cols) == Ok(k)
    {
      assert f(sheet.rows[j]) == ContentEntry(sheet.rows[j], cols);
    }
  }

  /** The content of a title is that of the last such row, and is truthy. */
  lemma GetContentValue(sheet: Sheet, c: nat, t: nat, cols: Columns, j: nat, k: string)
    requires cols.title == Ok(t) && cols.content == Ok(c) && GetContent(sheet, cols).Ok?
    requires j < |sheet.rows| && Truthy(CellAt(sheet.rows[j], t)) && Truthy(CellAt(sheet.rows[j], c))
    requires EnglishTitle(sheet.rows[j], cols) == Ok(k)
    requires forall m :: j < m < |sheet.rows| && Truthy(CellAt(sheet.rows[m], t)) && Truthy(CellAt(sheet.rows[m], c))
               ==> EnglishTitle(sheet.rows[m], cols) != Ok(k)
    ensures k in GetContent(sheet, cols).value && GetContent(sheet, cols).value[k] == CellAt(sheet.rows[j], c)
  {
    var f := ContentEntrier(cols);
    assert f(sheet.rows[j]) == ContentEntry(sheet.rows[j], cols);
    forall m | j < m < |sheet.rows| ensures !HasKey(f(sheet.rows[m]), k) {
      assert f(sheet.rows[m]) == ContentEntry(sheet.rows[m], cols);
    }
    EntryMapLast(sheet.rows, f, j, k, CellAt(sheet.rows[j], c));
  }

  /** `get_keywords` raises exactly when a titled row has a title that is a
      number, a language that is not a string, a non-zero number as keywords,
      or the sheet lacks a column it reads. */
  lemma GetKeywordsErr(sheet: Sheet, cols: Columns)
    ensures GetKeywords(sheet, cols).Err? <==>
      exists j :: 0 <= j < |sheet.rows| && KeywordEntry(sheet.rows[j], cols).Err?
  {
    var f := KeywordEntrier(cols);
    EntryMapErr(sheet.rows, f);
    assert forall j :: 0 <= j < |sheet.rows| ==> f(sheet.rows[j]) == KeywordEntry(sheet.rows[j], cols);
  }

  /** A row of the English master makes `get_keywords` raise exactly in these cases. */
  lemma KeywordEntryErr(row: Row, cols: Columns)
    ensures KeywordEntry(row, cols).Err? <==>
      cols.title.Err? ||
      (Truthy(CellAt(row, cols.title.value)) &&
       (cols.language.Err? || CellAt(row, cols.title.value).Int? || !CellAt(row, cols.language.value).Str?
        || cols.automation.Err? || (CellAt(row, cols.automation.value).Int? && CellAt(row, cols.automation.value).n != 0)))
  {
  }
}
