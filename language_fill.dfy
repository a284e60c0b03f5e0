/** `clean_language` (process_sheet.py): on every content sheet, a titled row
    without a language gets the language of the latest titled row above it
    that has one. */
module LanguageFill {
  import opened Wrappers
  import opened Sheets
  import opened Unicode

  /** One row: a titled row that names a language makes it the carried one; a
      titled row that names none receives the carried one. */
  function LanguageStep(lang: Cell, row: Row, li: Result<nat, Crash>, ti: Result<nat, Crash>): Result<Step<Cell>, Crash> {
    match li
    case Err(e) => Err(e)
    case Ok(l) =>
      match ti
      case Err(e) => Err(e)
      case Ok(t) =>
        if !Truthy(CellAt(row, t)) then Ok(Step(row, [], lang))
        else if Truthy(CellAt(row, l)) then Ok(Step(row, [], CellAt(row, l)))
        else Ok(Step(SetCell(row, l, lang), [], lang))
  }

  function LanguageStepper(li: Result<nat, Crash>, ti: Result<nat, Crash>): (Cell, Row, nat) -> Result<Step<Cell>, Crash> {
    (lang, row, j) => LanguageStep(lang, row, li, ti)
  }

  /** The pass on one sheet, given its column lookups; the carried language
      starts as `None` on each sheet. */
  function LanguageSheet(sheet: Sheet, cols: Columns, u: Foreign): Result<(Sheet, seq<Error>), Crash> {
    if IsSkipped(sheet.title, METADATA_SHEETS, u) then Ok((sheet, []))
    else
      var step := LanguageStepper(cols.language, cols.title);
      match FoldRows(sheet.rows, Blank, step)
      case Err(e) => Err(e)
      case Ok((rows, _, _)) => Ok((sheet.(rows := rows), []))
  }

  /** The row loop of `clean_language` on one sheet. */
  method FillLanguage(sheet: Sheet, cols: Columns, u: Foreign) returns (r: Result<(Sheet, seq<Error>), Crash>)
    ensures r == LanguageSheet(sheet, cols, u)
  {
    if IsSkipped(sheet.title, METADATA_SHEETS, u) {
      return Ok((sheet, []));
    }
    var res := LanguageRows(sheet.rows, cols.language, cols.title);
    if res.Err? {
      return Err(res.error);
    }
    r := Ok((sheet.(rows := res.value.0), []));
  }

  /** The loop itself: the carried language starts as `None`. */
  method LanguageRows(rows: seq<Row>, li: Result<nat, Crash>, ti: Result<nat, Crash>)
    returns (r: Result<(seq<Row>, seq<Error>, Cell), Crash>)
    ensures r == FoldRows(rows, Blank, LanguageStepper(li, ti))
  {
    ghost var step := LanguageStepper(li, ti);
    var done: seq<Row> := [];
    var lang := Blank;
    var j := 0;
    while j < |rows|
      invariant 0 <= j <= |rows|
      invariant FoldRows(rows[..j], Blank, step) == Ok((done, [], lang))
    {
      if li.Err? || ti.Err? {
        var e := if li.Err? then li.error else ti.error;
        assert step(lang, rows[j], j) == Err(e);
        FoldRowsAdvance(rows, j, Blank, step, done, [], lang, Err(e));
        return Err(e);
      }
      ghost var before := lang;
      var row := rows[j];
      var language := CellAt(row, li.value);
      if Truthy(CellAt(row, ti.value)) {
        if Truthy(language) {
          lang := language;
        } else {
          row := SetCell(row, li.value, lang);
        }
      }
      assert step(before, rows[j], j) == Ok(Step(row, [], lang));
      FoldRowsAdvance(rows, j, Blank, step, done, [], before, Ok(Step(row, [], lang)));
      ghost var none: seq<Error> := [];
      assert none + none == none;
      done := done + [row];
      j := j + 1;
    }
    assert rows[..j] == rows;
    r := Ok((done, [], lang));
  }

  // ---------------------------------------------------------------------
  // what the pass does

  /** A row with both a title and a language. */
  predicate NamesLanguage(row: Row, l: nat, t: nat) {
    Truthy(CellAt(row, t)) && Truthy(CellAt(row, l))
  }

  /** The language of the latest row of `rows` that has both a title and a language. */
  function LastLanguage(rows: seq<Row>, l: nat, t: nat): Cell {
    if rows == [] then Blank
    else
      var last := rows[|rows| - 1];
      if NamesLanguage(last, l, t) then CellAt(last, l)
      else LastLanguage(rows[..|rows| - 1], l, t)
  }

  /** `LastLanguage` is `None` when no titled row names a language, and
      otherwise the language of a titled row after which no titled row names one. */
  lemma {:induction false} LastLanguageSpec(rows: seq<Row>, l: nat, t: nat)
    ensures LastLanguage(rows, l, t) == Blank ==>
      forall k :: 0 <= k < |rows| ==> !NamesLanguage(rows[k], l, t)
    ensures LastLanguage(rows, l, t) != Blank ==>
      exists k :: 0 <= k < |rows| && NamesLanguage(rows[k], l, t)
        && LastLanguage(rows, l, t) == CellAt(rows[k], l)
        && forall m :: k < m < |rows| ==> !NamesLanguage(rows[m], l, t)
  {
    if rows != [] {
      var n := |rows| - 1;
      var p := rows[..n];
      LastLanguageSpec(p, l, t);
      if NamesLanguage(rows[n], l, t) {
        assert LastLanguage(rows, l, t) == CellAt(rows[n], l);
      } else if LastLanguage(p, l, t) == Blank {
        assert forall k :: 0 <= k < n ==> rows[k] == p[k];
      } else {
        var k :| 0 <= k < |p| && NamesLanguage(p[k], l, t)
          && LastLanguage(p, l, t) == CellAt(p[k], l)
          && forall m :: k < m < |p| ==> !NamesLanguage(p[m], l, t);
        assert forall m :: k < m < n ==> rows[m] == p[m];
        assert rows[k] == p[k];
      }
    }
  }

  /** The language the loop carries after some rows is their `LastLanguage`. */
  lemma {:induction false} LanguageState(rows: seq<Row>, l: nat, t: nat)
    ensures FoldRows(rows, Blank, LanguageStepper(Ok(l), Ok(t))).Ok?
    ensures FoldRows(rows, Blank, LanguageStepper(Ok(l), Ok(t))).value.2 == LastLanguage(rows, l, t)
    ensures FoldRows(rows, Blank, LanguageStepper(Ok(l), Ok(t))).value.1 == []
  {
    if rows != [] {
      LanguageState(rows[..|rows| - 1], l, t);
    }
  }

  /** The pass raises only on a sheet with data rows whose header lacks the
      language or the title column. */
  lemma LanguageSheetCrash(sheet: Sheet, cols: Columns, u: Foreign)
    ensures LanguageSheet(sheet, cols, u).Err? <==>
      !IsSkipped(sheet.title, METADATA_SHEETS, u) && |sheet.rows| > 0
      && (cols.language.Err? || cols.title.Err?)
  {
    var li := cols.language;
    var ti := cols.title;
    if !IsSkipped(sheet.title, METADATA_SHEETS, u) {
      if li.Ok? && ti.Ok? {
        LanguageState(sheet.rows, li.value, ti.value);
      } else if |sheet.rows| > 0 {
        assert FoldRows(sheet.rows[..1], Blank, LanguageStepper(li, ti)).Err? by {
          assert sheet.rows[..1][..0] == [];
        }
        FoldRowsErr(sheet.rows, 1, Blank, LanguageStepper(li, ti));
      }
    }
  }

  /** Only titled rows with a blank language change, and only in the language
      column, which receives the latest language named on a titled row above;
      an explicit language is never overwritten. */
  lemma LanguageSheetRows(sheet: Sheet, l: nat, t: nat, cols: Columns, u: Foreign, j: nat)
    requires !IsSkipped(sheet.title, METADATA_SHEETS, u)
    requires cols.language == Ok(l) && cols.title == Ok(t)
    requires j < |sheet.rows|
    ensures LanguageSheet(sheet, cols, u).Ok? && LanguageSheet(sheet, cols, u).value.1 == []
    ensures var out := LanguageSheet(sheet, cols, u).value.0;
            var row := sheet.rows[j];
            out.title == sheet.title && out.header == sheet.header && |out.rows| == |sheet.rows|
            && out.rows[j] == (if Truthy(CellAt(row, t)) && !Truthy(CellAt(row, l))
                               then SetCell(row, l, LastLanguage(sheet.rows[..j], l, t))
                               else row)
            && (Truthy(CellAt(row, l)) ==> CellAt(out.rows[j], l) == CellAt(row, l))
  {
    var step := LanguageStepper(Ok(l), Ok(t));
    LanguageState(sheet.rows, l, t);
    FoldRowsOk(sheet.rows, j, Blank, step);
    LanguageState(sheet.rows[..j], l, t);
  }
}
