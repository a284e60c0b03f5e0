/** `check_content_length` and `add_missing_content` (process_sheet.py): the
    4096-character limit on message content, and blank content filled from
    the English master. */
module ContentChecks {
  import opened Wrappers
  import opened Text
  import opened Unicode
  import opened Sheets

  /** The longest content a message may have. */
  const MAX_CONTENT: nat := 4096

  // ---------------------------------------------------------------------
  // check_content_length

  /** One row: content longer than the limit logs the row's title cell; the
      title column is looked up only then. A non-zero number has no `len`. */
  function LengthStep(row: Row, cols: Columns, sheet: string): Result<Step<()>, Crash> {
    match cols.content
    case Err(e) => Err(e)
    case Ok(c) =>
      match TextOrEmpty(CellAt(row, c))
      case Err(_) => Err(TypeError)
      case Ok(text) =>
        if |text| > MAX_CONTENT then
          match cols.title
          case Err(e) => Err(e)
          case Ok(t) => Ok(Step(row, [ContentTooLong(CellAt(row, t), sheet)], ()))
        else Ok(Step(row, [], ()))
  }

  function LengthStepper(cols: Columns, sheet: string): ((), Row, nat) -> Result<Step<()>, Crash> {
    (st: (), row: Row, j: nat) => LengthStep(row, cols, sheet)
  }

  /** The pass on one sheet: the sheet itself never changes. */
  function LengthSheet(sheet: Sheet, cols: Columns, u: Foreign): Result<(Sheet, seq<Error>), Crash> {
    if IsSkipped(sheet.title, METADATA_SHEETS, u) then Ok((sheet, []))
    else
      match FoldRows(sheet.rows, (), LengthStepper(cols, sheet.title))
      case Err(e) => Err(e)
      case Ok((rows, errs, _)) => Ok((sheet.(rows := rows), errs))
  }

  /** The body of the row loop of `check_content_length`. */
  method LengthRow(row: Row, cols: Columns, sheet: string) returns (r: Result<Step<()>, Crash>)
    ensures r == LengthStep(row, cols, sheet)
  {
    if cols.content.Err? {
      return Err(cols.content.error);
    }
    var content := CellAt(row, cols.content.value);
    if content.Int? && content.n != 0 {
      return Err(TypeError);
    }
    var text := if content.Str? then content.s else "";
    if |text| <= MAX_CONTENT {
      return Ok(Step(row, [], ()));
    }
    if cols.title.Err? {
      return Err(cols.title.error);
    }
    r := Ok(Step(row, [ContentTooLong(CellAt(row, cols.title.value), sheet)], ()));
  }

  /** The row loop of `check_content_length` on one sheet. */
  method CheckContentLength(sheet: Sheet, cols: Columns, u: Foreign)
    returns (r: Result<(Sheet, seq<Error>), Crash>)
    ensures r == LengthSheet(sheet, cols, u)
  {
    if IsSkipped(sheet.title, METADATA_SHEETS, u) {
      return Ok((sheet, []));
    }
    var res := LengthRows(sheet.rows, cols, sheet.title);
    if res.Err? {
      return Err(res.error);
    }
    r := Ok((sheet.(rows := res.value.0), res.value.1));
  }

  /** The loop itself: each row in turn through the row body. */
  method LengthRows(rows: seq<Row>, cols: Columns, sheet: string)
    returns (r: Result<(seq<Row>, seq<Error>, ()), Crash>)
    ensures r == FoldRows(rows, (), LengthStepper(cols, sheet))
  {
    ghost var step := LengthStepper(cols, sheet);
    var done: seq<Row> := [];
    var errs: seq<Error> := [];
    var j := 0;
    while j < |rows|
      invariant 0 <= j <= |rows|
      invariant FoldRows(rows[..j], (), step) == Ok((done, errs, ()))
    {
      var res := LengthRow(rows[j], cols, sheet);
      assert step((), rows[j], j) == res;
      FoldRowsAdvance(rows, j, (), step, done, errs, (), res);
      if res.Err? {
        return Err(res.error);
      }
      assert res.value.state == ();
      done := done + [res.value.row];
      errs := errs + res.value.errors;
      j := j + 1;
    }
    assert rows[..j] == rows;
    r := Ok((done, errs, ()));
  }

  /** Content longer than the limit (`None` counts as empty). */
  predicate IsLong(row: Row, c: nat) {
    var t := TextOrEmpty(CellAt(row, c));
    t.Ok? && |t.value| > MAX_CONTENT
  }

  /** The errors expected of some rows: one per row with long content, in row order. */
  function TooLong(rows: seq<Row>, c: nat, t: nat, sheet: string): seq<Error> {
    if rows == [] then []
    else
      var last := rows[|rows| - 1];
      TooLong(rows[..|rows| - 1], c, t, sheet) + (if IsLong(last, c) then [ContentTooLong(CellAt(last, t), sheet)] else [])
  }

  /** The number of rows with long content. */
  function LongCount(rows: seq<Row>, c: nat): nat {
    if rows == [] then 0
    else LongCount(rows[..|rows| - 1], c) + (if IsLong(rows[|rows| - 1], c) then 1 else 0)
  }

  /** A completed loop leaves the rows as they were and logs exactly one
      error for each row whose content is longer than the limit, none for any
      other row. */
  lemma {:induction false} LengthFold(rows: seq<Row>, c: nat, cols: Columns, sheet: string)
    requires cols.content == Ok(c) && FoldRows(rows, (), LengthStepper(cols, sheet)).Ok?
    ensures var (out, errs, _) := FoldRows(rows, (), LengthStepper(cols, sheet)).value;
      out == rows && |errs| == LongCount(rows, c)
      && (cols.title.Ok? ==> errs == TooLong(rows, c, cols.title.value, sheet))
  {
    if rows != [] {
      var step := LengthStepper(cols, sheet);
      var n := |rows| - 1;
      var p := rows[..n];
      FoldRowsOk(rows, n, (), step);
      assert p == rows[..n];
      LengthFold(p, c, cols, sheet);
      assert step((), rows[n], n) == LengthStep(rows[n], cols, sheet);
      assert rows == p + [rows[n]];
    }
  }

  /** The pass never changes a sheet, and logs one error per long content. */
  lemma LengthSheetSpec(sheet: Sheet, c: nat, cols: Columns, u: Foreign)
    requires !IsSkipped(sheet.title, METADATA_SHEETS, u)
    requires cols.content == Ok(c) && LengthSheet(sheet, cols, u).Ok?
    ensures var (out, errs) := LengthSheet(sheet, cols, u).value;
      out == sheet && |errs| == LongCount(sheet.rows, c)
      && (cols.title.Ok? ==> errs == TooLong(sheet.rows, c, cols.title.value, sheet.title))
  {
    LengthFold(sheet.rows, c, cols, sheet.title);
  }

  /** A content of exactly the limit is not too long; one more character is. */
  lemma LengthBoundary(row: Row, c: nat, text: string)
    requires CellAt(row, c) == Str(text)
    ensures |text| == MAX_CONTENT ==> !IsLong(row, c)
    ensures |text| == MAX_CONTENT + 1 ==> IsLong(row, c)
  {
  }

  // ---------------------------------------------------------------------
  // add_missing_content

  /** One row, in the source's order of reads: the content, the title, then
      the language. A titled row whose content is blank after trimming gets
      the English content of its title, which must exist. */
  function FillStep(row: Row, cols: Columns, eng: map<string, Cell>): Result<Step<()>, Crash> {
    match cols.content
    case Err(e) => Err(e)
    case Ok(c) =>
      match TextOrEmpty(CellAt(row, c))
      case Err(e) => Err(e)
      case Ok(text) =>
        var content := Strip(text);
        match cols.title
        case Err(e) => Err(e)
        case Ok(t) =>
          match TextOrEmpty(CellAt(row, t))
          case Err(e) => Err(e)
          case Ok(title) =>
            var ct := Strip(title);
            match cols.language
            case Err(e) => Err(e)
            case Ok(l) =>
              if ct == "" then Ok(Step(row, [], ()))
              else
                match StripLanguagePrefix(ct, CellAt(row, l))
                case Err(e) => Err(e)
                case Ok(k) =>
                  if content != "" then Ok(Step(row, [], ()))
                  else if k in eng then Ok(Step(SetCell(row, c, eng[k]), [], ()))
                  else Err(KeyError(k))
  }

  function FillStepper(cols: Columns, eng: map<string, Cell>): ((), Row, nat) -> Result<Step<()>, Crash> {
    (st: (), row: Row, j: nat) => FillStep(row, cols, eng)
  }

  /** The pass on one sheet, given its column lookups and the English content map. */
  function FillSheet(sheet: Sheet, cols: Columns, eng: map<string, Cell>, u: Foreign): Result<(Sheet, seq<Error>), Crash> {
    if IsSkipped(sheet.title, EXEMPT_SHEETS, u) then Ok((sheet, []))
    else
      match FoldRows(sheet.rows, (), FillStepper(cols, eng))
      case Err(e) => Err(e)
      case Ok((rows, errs, _)) => Ok((sheet.(rows := rows), errs))
  }

  /** The body of the row loop of `add_missing_content`. */
  method FillRow(row: Row, cols: Columns, eng: map<string, Cell>) returns (r: Result<Step<()>, Crash>)
    ensures r == FillStep(row, cols, eng)
  {
    if cols.content.Err? {
      return Err(cols.content.error);
    }
    var c := cols.content.value;
    var text := TextOrEmpty(CellAt(row, c));
    if text.Err? {
      return Err(text.error);
    }
    var content := Strip(text.value);
    if cols.title.Err? {
      return Err(cols.title.error);
    }
    var title := TextOrEmpty(CellAt(row, cols.title.value));
    if title.Err? {
      return Err(title.error);
    }
    var ct := Strip(title.value);
    if cols.language.Err? {
      return Err(cols.language.error);
    }
    var language := CellAt(row, cols.language.value);
    if ct == "" {
      return Ok(Step(row, [], ()));
    }
    if !language.Str? {
      return Err(TypeError);
    }
    ghost var titled := ct;
    if language.s <= ct {
      ct := Drop(ct, |language.s| + 1);
    }
    assert StripLanguagePrefix(titled, language) == Ok(ct);
    if content != "" {
      return Ok(Step(row, [], ()));
    }
    if ct !in eng {
      return Err(KeyError(ct));
    }
    r := Ok(Step(SetCell(row, c, eng[ct]), [], ()));
  }

  /** The row loop of `add_missing_content` on one sheet. */
  method AddMissingContent(sheet: Sheet, cols: Columns, eng: map<string, Cell>, u: Foreign)
    returns (r: Result<(Sheet, seq<Error>), Crash>)
    ensures r == FillSheet(sheet, cols, eng, u)
  {
    if IsSkipped(sheet.title, EXEMPT_SHEETS, u) {
      return Ok((sheet, []));
    }
    var res := FillRows(sheet.rows, cols, eng);
    if res.Err? {
      return Err(res.error);
    }
    r := Ok((sheet.(rows := res.value.0), res.value.1));
  }

  /** The loop itself: each row in turn through the row body. */
  method FillRows(rows: seq<Row>, cols: Columns, eng: map<string, Cell>)
    returns (r: Result<(seq<Row>, seq<Error>, ()), Crash>)
    ensures r == FoldRows(rows, (), FillStepper(cols, eng))
  {
    ghost var step := FillStepper(cols, eng);
    var done: seq<Row> := [];
    var errs: seq<Error> := [];
    var j := 0;
    while j < |rows|
      invariant 0 <= j <= |rows|
      invariant FoldRows(rows[..j], (), step) == Ok((done, errs, ()))
    {
      var res := FillRow(rows[j], cols, eng);
      assert step((), rows[j], j) == res;
      FoldRowsAdvance(rows, j, (), step, done, errs, (), res);
      if res.Err? {
        return Err(res.error);
      }
      assert res.value.state == ();
      done := done + [res.value.row];
      errs := errs + res.value.errors;
      j := j + 1;
    }
    assert rows[..j] == rows;
    r := Ok((done, errs, ()));
  }

  /** What the pass does to one row: content that is not blank after
      trimming, and every row whose title is blank after trimming, is left
      alone; otherwise only the content cell changes, to the English content
      of the row's title without its language prefix. */
  lemma FillStepSpec(row: Row, c: nat, l: nat, t: nat, cols: Columns, eng: map<string, Cell>)
    requires cols.content == Ok(c) && cols.language == Ok(l) && cols.title == Ok(t)
    requires FillStep(row, cols, eng).Ok?
    ensures var out := FillStep(row, cols, eng).value;
      var ct := Strip(TextOrEmpty(CellAt(row, t)).value);
      out.errors == []
      && (Strip(TextOrEmpty(CellAt(row, c)).value) != "" || ct == "" ==> out.row == row)
      && (Strip(TextOrEmpty(CellAt(row, c)).value) == "" && ct != "" ==>
            StripLanguagePrefix(ct, CellAt(row, l)).Ok?
            && StripLanguagePrefix(ct, CellAt(row, l)).value in eng
            && out.row == SetCell(row, c, eng[StripLanguagePrefix(ct, CellAt(row, l)).value]))
  {
  }

  /** A titled row whose content is blank and whose title the English map
      lacks makes the pass raise. */
  lemma FillStepMissing(row: Row, c: nat, l: nat, t: nat, cols: Columns, eng: map<string, Cell>, k: string)
    requires cols.content == Ok(c) && cols.language == Ok(l) && cols.title == Ok(t)
    requires TextOrEmpty(CellAt(row, c)).Ok? && Strip(TextOrEmpty(CellAt(row, c)).value) == ""
    requires TextOrEmpty(CellAt(row, t)).Ok? && Strip(TextOrEmpty(CellAt(row, t)).value) != ""
    requires StripLanguagePrefix(Strip(TextOrEmpty(CellAt(row, t)).value), CellAt(row, l)) == Ok(k)
    requires k !in eng
    ensures FillStep(row, cols, eng) == Err(KeyError(k))
  {
  }

  /** On a sheet the pass completes, no error is logged and row `j` is what
      the row step makes of it. */
  lemma FillSheetRows(sheet: Sheet, cols: Columns, eng: map<string, Cell>, u: Foreign, j: nat)
    requires !IsSkipped(sheet.title, EXEMPT_SHEETS, u)
    requires FillSheet(sheet, cols, eng, u).Ok? && j < |sheet.rows|
    ensures var (out, errs) := FillSheet(sheet, cols, eng, u).value;
      FillStep(sheet.rows[j], cols, eng).Ok?
      && errs == [] && out.title == sheet.title && out.header == sheet.header && |out.rows| == |sheet.rows|
      && out.rows[j] == FillStep(sheet.rows[j], cols, eng).value.row
  {
    var step := FillStepper(cols, eng);
    FoldRowsOk(sheet.rows, j, (), step);
    FoldRowsLogged(sheet.rows, step);
    FillLogsNothing(sheet.rows, cols, eng);
    assert FoldRows(sheet.rows[..j], (), step).value.2 == ();
    assert step((), sheet.rows[j], j) == FillStep(sheet.rows[j], cols, eng);
  }

  lemma {:induction false} FillLogsNothing(rows: seq<Row>, cols: Columns, eng: map<string, Cell>)
    ensures Logged(rows, FillStepper(cols, eng)) == []
  {
    if rows != [] {
      var n := |rows| - 1;
      var step := FillStepper(cols, eng);
      FillLogsNothing(rows[..n], cols, eng);
      var s := step((), rows[n], n);
      assert s == FillStep(rows[n], cols, eng);
      FillStepLogsNothing(rows[n], cols, eng);
      assert Logged(rows, step) == Logged(rows[..n], step) + (match s case Ok(x) => x.errors case Err(_) => []);
    }
  }

  lemma FillStepLogsNothing(row: Row, cols: Columns, eng: map<string, Cell>)
    ensures FillStep(row, cols, eng).Ok? ==> FillStep(row, cols, eng).value.errors == []
  {
  }
}
