/** `clean_content_title` (process_sheet.py): every non-blank content title
    is stripped and each run of non-word characters in it becomes a single
    underscore. */
module TitleClean {
  import opened Wrappers
  import opened Text
  import opened Unicode
  import opened Sheets

  /** `re.sub(r"\W+", "_", s)`: each maximal run of non-word characters
      becomes one `_`; `inRun` says the previous character already started a
      run. */
  function Underscore(s: string, w: WordClass, inRun: bool): (r: string)
    ensures forall i :: 0 <= i < |r| ==> w(r[i])
  {
    if s == [] then ""
    else if w(s[0]) then [s[0]] + Underscore(s[1..], w, false)
    else (if inRun then "" else "_") + Underscore(s[1..], w, true)
  }

  /** The characters that survive any rewriting: word characters other than `_`. */
  function Letters(s: string, w: WordClass): string {
    if s == [] then ""
    else (if w(s[0]) && s[0] != '_' then [s[0]] else "") + Letters(s[1..], w)
  }

  /** Rewriting runs keeps every letter, in order, and adds none. */
  lemma {:induction false} UnderscoreLetters(s: string, w: WordClass, inRun: bool)
    ensures Letters(Underscore(s, w, inRun), w) == Letters(s, w)
  {
    if s != [] {
      UnderscoreLetters(s[1..], w, !w(s[0]));
      var rest := Underscore(s[1..], w, !w(s[0]));
      var pre := if w(s[0]) then [s[0]] else if inRun then "" else "_";
      LettersAppend(pre, rest, w);
    }
  }

  lemma {:induction false} LettersAppend(a: string, b: string, w: WordClass)
    ensures Letters(a + b, w) == Letters(a, w) + Letters(b, w)
  {
    if a != [] {
      assert (a + b)[0] == a[0];
      assert (a + b)[1..] == a[1..] + b;
      LettersAppend(a[1..], b, w);
    } else {
      assert a + b == b;
    }
  }

  /** A string of word characters has nothing to rewrite. */
  lemma {:induction false} UnderscoreOfWords(s: string, w: WordClass, inRun: bool)
    requires forall i :: 0 <= i < |s| ==> w(s[i])
    ensures Underscore(s, w, inRun) == s
  {
    if s != [] {
      assert w(s[0]);
      UnderscoreOfWords(s[1..], w, false);
    }
  }

  /** `re.sub(r"\W+", "_", value.strip())` */
  function Normalise(s: string, u: Foreign): string {
    Underscore(Strip(s), u.isWord, false)
  }

  /** A normalised title consists of word characters only, so it has no
      whitespace and normalising it again changes nothing. */
  lemma NormaliseIdempotent(s: string, u: Foreign)
    ensures forall i :: 0 <= i < |Normalise(s, u)| ==> u.isWord(Normalise(s, u)[i])
    ensures Normalise(Normalise(s, u), u) == Normalise(s, u)
  {
    var r := Normalise(s, u);
    assert NoSpace(r) by {
      forall i | 0 <= i < |r| ensures !IsSpace(r[i]) {
        assert u.isWord(r[i]) && SpaceIsNotWord(u.isWord, r[i]);
      }
    }
    StripNoSpace(r);
    UnderscoreOfWords(r, u.isWord, false);
  }

  /** The new title cell: a truthy title that is a string is normalised; a
      truthy number has no `strip` and raises; a blank title stays. */
  function CleanTitle(c: Cell, u: Foreign): (r: Result<Cell, Crash>)
    ensures !Truthy(c) ==> r == Ok(c)
    ensures r.Err? <==> c.Int? && c.n != 0
    ensures c.Str? && c.s != "" ==> r == Ok(Str(Normalise(c.s, u)))
  {
    match c
    case Str(s) => if s == "" then Ok(c) else Ok(Str(Normalise(s, u)))
    case Int(n) => if n == 0 then Ok(c) else Err(AttributeError)
    case Blank => Ok(c)
  }

  function TitleStep(row: Row, ti: Result<nat, Crash>, u: Foreign): Result<Step<()>, Crash> {
    match ti
    case Err(e) => Err(e)
    case Ok(t) =>
      var c := CellAt(row, t);
      if !Truthy(c) then Ok(Step(row, [], ()))
      else
        match CleanTitle(c, u)
        case Err(e) => Err(e)
        case Ok(v) => Ok(Step(SetCell(row, t, v), [], ()))
  }

  function TitleStepper(ti: Result<nat, Crash>, u: Foreign): ((), Row, nat) -> Result<Step<()>, Crash> {
    (st, row, j) => TitleStep(row, ti, u)
  }

  /** The pass on one sheet, given its column lookups. */
  function TitleSheet(sheet: Sheet, cols: Columns, u: Foreign): Result<(Sheet, seq<Error>), Crash> {
    if IsSkipped(sheet.title, METADATA_SHEETS, u) then Ok((sheet, []))
    else
      match FoldRows(sheet.rows, (), TitleStepper(cols.title, u))
      case Err(e) => Err(e)
      case Ok((rows, _, _)) => Ok((sheet.(rows := rows), []))
  }

  /** The row loop of `clean_content_title` on one sheet. */
  method CleanTitles(sheet: Sheet, cols: Columns, u: Foreign) returns (r: Result<(Sheet, seq<Error>), Crash>)
    ensures r == TitleSheet(sheet, cols, u)
  {
    if IsSkipped(sheet.title, METADATA_SHEETS, u) {
      return Ok((sheet, []));
    }
    var res := TitleRows(sheet.rows, cols.title, u);
    if res.Err? {
      return Err(res.error);
    }
    r := Ok((sheet.(rows := res.value.0), []));
  }

  /** The loop itself: each titled row's title is normalised in place. */
  method TitleRows(rows: seq<Row>, ti: Result<nat, Crash>, u: Foreign)
    returns (r: Result<(seq<Row>, seq<Error>, ()), Crash>)
    ensures r == FoldRows(rows, (), TitleStepper(ti, u))
  {
    ghost var step := TitleStepper(ti, u);
    var done: seq<Row> := [];
    var j := 0;
    while j < |rows|
      invariant 0 <= j <= |rows|
      invariant FoldRows(rows[..j], (), step) == Ok((done, [], ()))
    {
      if ti.Err? {
        assert step((), rows[j], j) == Err(ti.error);
        FoldRowsAdvance(rows, j, (), step, done, [], (), Err(ti.error));
        return Err(ti.error);
      }
      var row := rows[j];
      var title := CellAt(row, ti.value);
      if Truthy(title) {
        if title.Int? {
          assert step((), rows[j], j) == Err(AttributeError);
          FoldRowsAdvance(rows, j, (), step, done, [], (), Err(AttributeError));
          return Err(AttributeError);
        }
        row := SetCell(row, ti.value, Str(Normalise(title.s, u)));
      }
      assert step((), rows[j], j) == Ok(Step(row, [], ()));
      FoldRowsAdvance(rows, j, (), step, done, [], (), Ok(Step(row, [], ())));
      ghost var none: seq<Error> := [];
      assert none + none == none;
      done := done + [row];
      j := j + 1;
    }
    assert rows[..j] == rows;
    r := Ok((done, [], ()));
  }

  // ---------------------------------------------------------------------
  // what the pass does

  /** A row the pass has written is a fixed point of the row step. */
  lemma TitleStepIdempotent(row: Row, t: nat, u: Foreign)
    requires TitleStep(row, Ok(t), u).Ok?
    ensures var out := TitleStep(row, Ok(t), u).value.row;
            TitleStep(out, Ok(t), u) == Ok(Step(out, [], ()))
  {
    var c := CellAt(row, t);
    if Truthy(c) {
      var n := Normalise(c.s, u);
      var out := SetCell(row, t, Str(n));
      assert t < |out| && out[t] == Str(n);
      if n != "" {
        NormaliseIdempotent(c.s, u);
        assert CleanTitle(Str(n), u) == Ok(Str(n));
        assert SetCell(out, t, Str(n)) == out;
      }
    }
  }

  /** With a title column, each row is rewritten on its own, and the rewritten
      rows are left alone by a second run. */
  lemma {:induction false} TitleFoldIdempotent(rows: seq<Row>, t: nat, u: Foreign)
    requires FoldRows(rows, (), TitleStepper(Ok(t), u)).Ok?
    ensures var out := FoldRows(rows, (), TitleStepper(Ok(t), u)).value.0;
            FoldRows(out, (), TitleStepper(Ok(t), u)) == Ok((out, [], ()))
  {
    var step := TitleStepper(Ok(t), u);
    if rows != [] {
      var n := |rows| - 1;
      var p := rows[..n];
      TitleFoldIdempotent(p, t, u);
      var pout := FoldRows(p, (), step).value.0;
      var out := FoldRows(rows, (), step).value.0;
      assert step((), rows[n], n) == TitleStep(rows[n], Ok(t), u);
      var last := TitleStep(rows[n], Ok(t), u).value.row;
      assert out == pout + [last];
      assert out[..n] == pout;
      TitleStepIdempotent(rows[n], t, u);
      assert step((), out[n], n) == TitleStep(last, Ok(t), u);
      assert FoldRows(pout, (), step).value.1 == [];
    }
  }

  /** Running the pass on its own output changes nothing. */
  lemma TitleSheetIdempotent(sheet: Sheet, cols: Columns, u: Foreign)
    requires TitleSheet(sheet, cols, u).Ok?
    ensures TitleSheet(TitleSheet(sheet, cols, u).value.0, cols, u) == TitleSheet(sheet, cols, u)
  {
    if !IsSkipped(sheet.title, METADATA_SHEETS, u) && sheet.rows != [] {
      if cols.title.Err? {
        assert FoldRows(sheet.rows[..1], (), TitleStepper(cols.title, u)).Err? by {
          assert sheet.rows[..1][..0] == [];
        }
        FoldRowsErr(sheet.rows, 1, (), TitleStepper(cols.title, u));
      } else {
        TitleFoldIdempotent(sheet.rows, cols.title.value, u);
      }
    }
  }

  /** Each row's title is replaced by its cleaned value, every other cell is
      kept, and only a non-zero number in a title cell makes the pass raise. */
  lemma TitleSheetRows(sheet: Sheet, t: nat, cols: Columns, u: Foreign, j: nat)
    requires !IsSkipped(sheet.title, METADATA_SHEETS, u) && cols.title == Ok(t)
    requires TitleSheet(sheet, cols, u).Ok? && j < |sheet.rows|
    ensures var out := TitleSheet(sheet, cols, u).value.0;
            CleanTitle(CellAt(sheet.rows[j], t), u).Ok?
            && CellAt(out.rows[j], t) == CleanTitle(CellAt(sheet.rows[j], t), u).value
            && forall i :: i != t ==> CellAt(out.rows[j], i) == CellAt(sheet.rows[j], i)
  {
    var step := TitleStepper(Ok(t), u);
    FoldRowsOk(sheet.rows, j, (), step);
    assert step((), sheet.rows[j], j) == TitleStep(sheet.rows[j], Ok(t), u);
  }
}
