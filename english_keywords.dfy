/** `add_english_keywords` (process_sheet.py): every row of every sheet that
    is not exempt gets the keywords of the English master row with the same
    title appended to its own. */
module EnglishKeywords {
  import opened Wrappers
  import opened Text
  import opened Unicode
  import opened Sheets

  // ---------------------------------------------------------------------
  // the keyword merge

  /** The loop `for keyword in english: if keyword not in keywords: append`,
      which checks against the list as it grows. */
  function AppendMissing(own: seq<string>, eng: seq<string>): seq<string> {
    if eng == [] then own
    else
      var acc := AppendMissing(own, eng[..|eng| - 1]);
      var k := eng[|eng| - 1];
      if k in acc then acc else acc + [k]
  }

  /** The English keywords that are not among the row's own, in English order. */
  function Absent(eng: seq<string>, own: seq<string>): seq<string> {
    if eng == [] then []
    else Absent(eng[..|eng| - 1], own) + (if eng[|eng| - 1] in own then [] else [eng[|eng| - 1]])
  }

  lemma {:induction false} AbsentSpec(eng: seq<string>, own: seq<string>, x: string)
    ensures x in Absent(eng, own) <==> x in eng && x !in own
  {
    if eng != [] {
      var p := eng[..|eng| - 1];
      AbsentSpec(p, own, x);
      assert eng == p + [eng[|eng| - 1]];
    }
  }

  /** The loop result is the row's own keywords followed by the first
      occurrence of each English keyword the row lacks, in English order. */
  lemma {:induction false} AppendMissingSpec(own: seq<string>, eng: seq<string>)
    ensures AppendMissing(own, eng) == own + Dedup(Absent(eng, own))
  {
    if eng != [] {
      var p := eng[..|eng| - 1];
      var k := eng[|eng| - 1];
      AppendMissingSpec(own, p);
      AppendMissingStep(own, Absent(p, own), k);
    }
  }

  /** One more English keyword, on the closed form of the merge so far. */
  lemma AppendMissingStep(own: seq<string>, ab: seq<string>, k: string)
    ensures var acc := own + Dedup(ab);
            (if k in acc then acc else acc + [k]) == own + Dedup(ab + (if k in own then [] else [k]))
  {
    DedupSpec(ab);
    if k !in own {
      DedupSnoc(ab, k);
      assert k in own + Dedup(ab) <==> k in ab;
      if k !in ab {
        assert own + Dedup(ab) + [k] == own + (Dedup(ab) + [k]);
      }
    } else {
      assert ab + [] == ab;
    }
  }

  lemma DedupSnoc(s: seq<string>, x: string)
    ensures Dedup(s + [x]) == if x in s then Dedup(s) else Dedup(s) + [x]
  {
    assert (s + [x])[..|s|] == s;
  }

  /** The new keyword list: the merge with empty keywords dropped. */
  function Merge(own: seq<string>, eng: seq<string>): seq<string> {
    NonEmpty(AppendMissing(own, eng))
  }

  /** A row's keywords become its own non-empty keywords in their order,
      then the non-empty English keywords it did not already have, in English
      order and each once. */
  lemma MergeSpec(own: seq<string>, eng: seq<string>)
    ensures Merge(own, eng) == NonEmpty(own) + NonEmpty(Dedup(Absent(eng, own)))
    ensures forall k :: k in Merge(own, eng) <==> k != "" && (k in own || k in eng)
  {
    AppendMissingSpec(own, eng);
    NonEmptyAppend(own, Dedup(Absent(eng, own)));
    NonEmptySpec(AppendMissing(own, eng));
    forall k ensures k in Dedup(Absent(eng, own)) <==> k in eng && k !in own {
      DedupSpec(Absent(eng, own));
      AbsentSpec(eng, own, k);
    }
  }

  /** The merge loop of `add_english_keywords` (lines building `keywords`). */
  method AppendEnglish(own: seq<string>, eng: seq<string>) returns (keywords: seq<string>)
    ensures keywords == AppendMissing(own, eng)
  {
    keywords := own;
    var i := 0;
    while i < |eng|
      invariant 0 <= i <= |eng|
      invariant keywords == AppendMissing(own, eng[..i])
    {
      assert eng[..i + 1][..i] == eng[..i];
      if eng[i] !in keywords {
        keywords := keywords + [eng[i]];
      }
      i := i + 1;
    }
    assert eng[..i] == eng;
  }

  // ---------------------------------------------------------------------
  // one row

  /** `workbook["English master"]["A<n>"].value[4:]` for the English master
      row at the same position: a cell that is not a string (openpyxl gives
      `None` past the last row) cannot be sliced. */
  function FallbackTitle(master: Sheet, j: nat): (r: Result<string, Crash>)
    ensures r.Ok? <==> j < |master.rows| && CellAt(master.rows[j], 0).Str?
    ensures r.Ok? ==> r.value == Drop(CellAt(master.rows[j], 0).s, 4)
  {
    if j < |master.rows| then
      match CellAt(master.rows[j], 0)
      case Str(s) => Ok(Drop(s, 4))
      case _ => Err(TypeError)
    else Err(TypeError)
  }

  /** The title a row is looked up under: its stripped title without the
      language prefix, or `None` for a row whose stripped title is empty. */
  function LookupTitle(row: Row, l: nat, t: nat): Result<Option<string>, Crash> {
    match TextOrEmpty(CellAt(row, t))
    case Err(e) => Err(e)
    case Ok(text) =>
      var ct := Strip(text);
      if ct == "" then Ok(None)
      else
        match StripLanguagePrefix(ct, CellAt(row, l))
        case Err(e) => Err(e)
        case Ok(k) => Ok(Some(k))
  }

  /** One row, in the source's order of reads: the automation cell, the
      language column, then the title; a title missing from the English map
      is logged and replaced by the fallback, which must then be in the map. */
  function EnglishStep(row: Row, j: nat, cols: Columns, eng: map<string, seq<string>>,
                       master: Sheet, sheet: string): Result<Step<()>, Crash>
  {
    match cols.automation
    case Err(e) => Err(e)
    case Ok(a) =>
      match TextOrEmpty(CellAt(row, a))
      case Err(e) => Err(e)
      case Ok(text) =>
        var own := Split(text, ",");
        match cols.language
        case Err(e) => Err(e)
        case Ok(l) =>
          match cols.title
          case Err(e) => Err(e)
          case Ok(t) =>
            match LookupTitle(row, l, t)
            case Err(e) => Err(e)
            case Ok(None) => Ok(Step(row, [], ()))
            case Ok(Some(ct)) =>
              if ct in eng then Ok(Step(SetCell(row, a, Str(Join(Merge(own, eng[ct]), ","))), [], ()))
              else
                match FallbackTitle(master, j)
                case Err(e) => Err(e)
                case Ok(fb) =>
                  if fb in eng then
                    Ok(Step(SetCell(row, a, Str(Join(Merge(own, eng[fb]), ","))), [MissingEnglish(ct, sheet)], ()))
                  else Err(KeyError(fb))
  }

  function EnglishStepper(cols: Columns, eng: map<string, seq<string>>, master: Sheet, sheet: string)
    : ((), Row, nat) -> Result<Step<()>, Crash>
  {
    (st: (), row: Row, j: nat) => EnglishStep(row, j, cols, eng, master, sheet)
  }

  /** The pass on one sheet, given its column lookups, the English keyword map
      and the English master sheet. */
  function EnglishSheet(sheet: Sheet, cols: Columns, eng: map<string, seq<string>>, master: Sheet, u: Foreign)
    : Result<(Sheet, seq<Error>), Crash>
  {
    if IsSkipped(sheet.title, EXEMPT_SHEETS, u) then Ok((sheet, []))
    else
      match FoldRows(sheet.rows, (), EnglishStepper(cols, eng, master, sheet.title))
      case Err(e) => Err(e)
      case Ok((rows, errs, _)) => Ok((sheet.(rows := rows), errs))
  }

  /** The body of the row loop. */
  method EnglishRow(row: Row, j: nat, cols: Columns, eng: map<string, seq<string>>,
                    master: Sheet, sheet: string) returns (r: Result<Step<()>, Crash>)
    ensures r == EnglishStep(row, j, cols, eng, master, sheet)
  {
    if cols.automation.Err? {
      return Err(cols.automation.error);
    }
    var a := cols.automation.value;
    var cell := CellAt(row, a);
    if cell.Int? && cell.n != 0 {
      return Err(AttributeError);
    }
    var keywords := Split(if cell.Str? then cell.s else "", ",");
    ghost var own := keywords;
    assert TextOrEmpty(cell) == Ok(if cell.Str? then cell.s else "");
    if cols.language.Err? {
      return Err(cols.language.error);
    }
    if cols.title.Err? {
      return Err(cols.title.error);
    }
    var title := LookupTitle(row, cols.language.value, cols.title.value);
    if title.Err? {
      return Err(title.error);
    }
    if title.value.None? {
      return Ok(Step(row, [], ()));
    }
    var ct := title.value.value;
    var errs: seq<Error> := [];
    if ct !in eng {
      errs := [MissingEnglish(ct, sheet)];
      var fb := FallbackTitle(master, j);
      if fb.Err? {
        return Err(fb.error);
      }
      ct := fb.value;
      if ct !in eng {
        return Err(KeyError(ct));
      }
    }
    keywords := AppendEnglish(keywords, eng[ct]);
    keywords := NonEmpty(keywords);
    assert keywords == Merge(own, eng[ct]);
    r := Ok(Step(SetCell(row, a, Str(Join(keywords, ","))), errs, ()));
  }

  /** The row loop of `add_english_keywords` on one sheet. */
  method AddEnglishKeywords(sheet: Sheet, cols: Columns, eng: map<string, seq<string>>, master: Sheet, u: Foreign)
    returns (r: Result<(Sheet, seq<Error>), Crash>)
    ensures r == EnglishSheet(sheet, cols, eng, master, u)
  {
    if IsSkipped(sheet.title, EXEMPT_SHEETS, u) {
      return Ok((sheet, []));
    }
    var res := EnglishRows(sheet.rows, cols, eng, master, sheet.title);
    if res.Err? {
      return Err(res.error);
    }
    r := Ok((sheet.(rows := res.value.0), res.value.1));
  }

  /** The loop itself: each row in turn through the row body. */
  method EnglishRows(rows: seq<Row>, cols: Columns, eng: map<string, seq<string>>, master: Sheet, sheet: string)
    returns (r: Result<(seq<Row>, seq<Error>, ()), Crash>)
    ensures r == FoldRows(rows, (), EnglishStepper(cols, eng, master, sheet))
  {
    ghost var step := EnglishStepper(cols, eng, master, sheet);
    var done: seq<Row> := [];
    var errs: seq<Error> := [];
    var j := 0;
    while j < |rows|
      invariant 0 <= j <= |rows|
      invariant FoldRows(rows[..j], (), step) == Ok((done, errs, ()))
    {
      var res := EnglishRow(rows[j], j, cols, eng, master, sheet);
      assert step((), rows[j], j) == res;
      FoldRowsAdvance(rows, j, (), step, done, errs, (), res);
      if res.Err? {
        return Err(res.error);
      }
      assert res.value.state == ();
      done := done + [res.value.row];
      errs := errs + res.value.errors;
      j := j + 1;
    }
    assert rows[..j] == rows;
    r := Ok((done, errs, ()));
  }

  // ---------------------------------------------------------------------
  // what the pass does to a row

  /** A row whose stripped title is empty is left alone and logs nothing. */
  lemma EnglishStepSkip(row: Row, j: nat, a: nat, l: nat, t: nat, cols: Columns, eng: map<string, seq<string>>,
                        master: Sheet, sheet: string)
    requires cols.automation == Ok(a) && cols.language == Ok(l) && cols.title == Ok(t)
    requires TextOrEmpty(CellAt(row, a)).Ok?
    requires LookupTitle(row, l, t) == Ok(None)
    ensures EnglishStep(row, j, cols, eng, master, sheet) == Ok(Step(row, [], ()))
    ensures !Truthy(CellAt(row, t)) ==> LookupTitle(row, l, t) == Ok(None)
  {
    StripTrimmed("");
  }

  /** A row whose title is in the English map gets the merge of its own
      keywords with that title's, and logs nothing; no other cell changes. */
  lemma EnglishStepFound(row: Row, j: nat, a: nat, l: nat, t: nat, cols: Columns, eng: map<string, seq<string>>,
                         master: Sheet, sheet: string, ct: string)
    requires cols.automation == Ok(a) && cols.language == Ok(l) && cols.title == Ok(t)
    requires TextOrEmpty(CellAt(row, a)).Ok?
    requires LookupTitle(row, l, t) == Ok(Some(ct)) && ct in eng
    ensures var r := EnglishStep(row, j, cols, eng, master, sheet);
      var own := Split(TextOrEmpty(CellAt(row, a)).value, ",");
      r.Ok? && r.value.errors == []
      && CellAt(r.value.row, a) == Str(Join(NonEmpty(own) + NonEmpty(Dedup(Absent(eng[ct], own))), ","))
      && forall i :: i != a ==> CellAt(r.value.row, i) == CellAt(row, i)
  {
    MergeSpec(Split(TextOrEmpty(CellAt(row, a)).value, ","), eng[ct]);
  }

  /** A row whose title is missing from the English map logs exactly one
      error naming it, and takes the keywords of the English master row at
      the same position, whose column A minus four characters must be a title
      of the map; otherwise the pass raises. */
  lemma EnglishStepMissing(row: Row, j: nat, a: nat, l: nat, t: nat, cols: Columns, eng: map<string, seq<string>>,
                           master: Sheet, sheet: string, ct: string)
    requires cols.automation == Ok(a) && cols.language == Ok(l) && cols.title == Ok(t)
    requires TextOrEmpty(CellAt(row, a)).Ok?
    requires LookupTitle(row, l, t) == Ok(Some(ct)) && ct !in eng
    ensures var r := EnglishStep(row, j, cols, eng, master, sheet);
      r.Ok? <==> FallbackTitle(master, j).Ok? && FallbackTitle(master, j).value in eng
    ensures var r := EnglishStep(row, j, cols, eng, master, sheet);
      var own := Split(TextOrEmpty(CellAt(row, a)).value, ",");
      r.Ok? ==> (r.value.errors == [MissingEnglish(ct, sheet)]
        && CellAt(r.value.row, a) == Str(Join(Merge(own, eng[Drop(CellAt(master.rows[j], 0).s, 4)]), ","))
        && forall i :: i != a ==> CellAt(r.value.row, i) == CellAt(row, i))
  {
  }

  /** Which rows make the pass raise: an automation or title cell holding a
      non-zero number, or a non-blank title on a row whose language is not a
      string (`startswith(None)`). */
  lemma EnglishStepCrash(row: Row, j: nat, a: nat, l: nat, t: nat, cols: Columns, eng: map<string, seq<string>>,
                         master: Sheet, sheet: string)
    requires cols.automation == Ok(a) && cols.language == Ok(l) && cols.title == Ok(t)
    ensures TextOrEmpty(CellAt(row, a)).Err? ==> EnglishStep(row, j, cols, eng, master, sheet) == Err(AttributeError)
    ensures TextOrEmpty(CellAt(row, t)).Err? ==> EnglishStep(row, j, cols, eng, master, sheet) == Err(AttributeError)
    ensures (TextOrEmpty(CellAt(row, a)).Ok? && TextOrEmpty(CellAt(row, t)).Ok?
             && Strip(TextOrEmpty(CellAt(row, t)).value) != "" && !CellAt(row, l).Str?)
            ==> EnglishStep(row, j, cols, eng, master, sheet) == Err(TypeError)
  {
  }

  // ---------------------------------------------------------------------
  // what the pass does to a sheet

  /** On a sheet the pass completes, row `j` is what the row step makes of
      it and the log is the rows' errors in row order. */
  lemma EnglishSheetRows(sheet: Sheet, cols: Columns, eng: map<string, seq<string>>, master: Sheet, u: Foreign, j: nat)
    requires !IsSkipped(sheet.title, EXEMPT_SHEETS, u)
    requires EnglishSheet(sheet, cols, eng, master, u).Ok? && j < |sheet.rows|
    ensures var out := EnglishSheet(sheet, cols, eng, master, u).value;
      var step := EnglishStepper(cols, eng, master, sheet.title);
      EnglishStep(sheet.rows[j], j, cols, eng, master, sheet.title).Ok?
      && out.0.title == sheet.title && out.0.header == sheet.header && |out.0.rows| == |sheet.rows|
      && out.0.rows[j] == EnglishStep(sheet.rows[j], j, cols, eng, master, sheet.title).value.row
      && out.1 == Logged(sheet.rows, step)
  {
    var step := EnglishStepper(cols, eng, master, sheet.title);
    FoldRowsOk(sheet.rows, j, (), step);
    FoldRowsLogged(sheet.rows, step);
    assert FoldRows(sheet.rows[..j], (), step).value.2 == ();
    assert step((), sheet.rows[j], j) == EnglishStep(sheet.rows[j], j, cols, eng, master, sheet.title);
  }
}
