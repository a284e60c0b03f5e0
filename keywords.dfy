/** `clean_keywords` (process_sheet.py): on every content sheet each
    automation cell becomes the comma-join of its trimmed, non-empty,
    modifier-free and de-duplicated keywords; keywords holding more than an
    emoji and keywords repeated across rows are logged. */
module KeywordClean {
  import opened Wrappers
  import opened Text
  import opened Unicode
  import opened Sheets
  import opened EmojiKeywords

  /** The automation cell as text: `None` is empty and an integer is its
      decimal form (a zero too: the test is `is None`, not truthiness). */
  function KeywordText(c: Cell): string {
    match c
    case Blank => ""
    case Str(s) => s
    case Int(n) => IntToString(n)
  }

  function MapBaseEmoji(ks: seq<string>, u: Foreign): seq<string>
  {
    if ks == [] then [] else [BaseEmoji(ks[0], u)] + MapBaseEmoji(ks[1..], u)
  }

  lemma {:induction false} MapBaseEmojiSpec(ks: seq<string>, u: Foreign)
    ensures |MapBaseEmoji(ks, u)| == |ks| && forall i :: 0 <= i < |ks| ==> MapBaseEmoji(ks, u)[i] == BaseEmoji(ks[i], u)
  {
    if ks != [] {
      MapBaseEmojiSpec(ks[1..], u);
    }
  }

  /** The keywords of a cell: split at commas, trimmed, empties dropped,
      modifiers removed. */
  function Tokens(c: Cell, u: Foreign): seq<string> {
    MapBaseEmoji(NonEmpty(MapStrip(Split(KeywordText(c), ","))), u)
  }

  // ---------------------------------------------------------------------
  // the emoji check

  function InvalidError(k: string, sheet: string, u: Foreign): seq<Error> {
    var v := WithoutVariation(k);
    if IsInvalid(v, u) then [InvalidKeyword(v, sheet)] else []
  }

  /** The errors the emoji check logs for a row's keywords, in keyword order. */
  function InvalidErrors(ks: seq<string>, sheet: string, u: Foreign): seq<Error> {
    if ks == [] then []
    else InvalidErrors(ks[..|ks| - 1], sheet, u) + InvalidError(ks[|ks| - 1], sheet, u)
  }

  /** Each keyword that, without its variation selectors, starts with an
      emoji and goes on past it gets its error. */
  lemma {:induction false} InvalidErrorsHas(ks: seq<string>, i: nat, sheet: string, u: Foreign)
    requires i < |ks| && IsInvalid(WithoutVariation(ks[i]), u)
    ensures InvalidKeyword(WithoutVariation(ks[i]), sheet) in InvalidErrors(ks, sheet, u)
  {
    var n := |ks| - 1;
    if i < n {
      var p := ks[..n];
      assert p[i] == ks[i];
      InvalidErrorsHas(p, i, sheet, u);
    }
  }

  /** Every error of the emoji check belongs to such a keyword. */
  lemma {:induction false} InvalidErrorsOnly(ks: seq<string>, e: Error, sheet: string, u: Foreign) returns (i: nat)
    requires e in InvalidErrors(ks, sheet, u)
    ensures i < |ks| && IsInvalid(WithoutVariation(ks[i]), u) && e == InvalidKeyword(WithoutVariation(ks[i]), sheet)
  {
    var n := |ks| - 1;
    var p := ks[..n];
    if e in InvalidErrors(p, sheet, u) {
      i := InvalidErrorsOnly(p, e, sheet, u);
      assert p[i] == ks[i];
    } else {
      i := n;
    }
  }

  /** The loop of `clean_keywords` that checks each keyword for extra text after an emoji. */
  method CheckEmojiKeywords(ks: seq<string>, sheet: string, u: Foreign) returns (errs: seq<Error>)
    ensures errs == InvalidErrors(ks, sheet, u)
  {
    errs := [];
    var i := 0;
    while i < |ks|
      invariant 0 <= i <= |ks|
      invariant errs == InvalidErrors(ks[..i], sheet, u)
    {
      assert ks[..i + 1][..i] == ks[..i];
      var keyword := WithoutVariation(ks[i]);
      var m := u.emojiLen(keyword);
      if m > 0 && m < |keyword| {
        errs := errs + [InvalidKeyword(keyword, sheet)];
      }
      i := i + 1;
    }
    assert ks[..i] == ks;
  }

  // ---------------------------------------------------------------------
  // de-duplication within a row

  /** The loop of `clean_keywords` that keeps the first occurrence of each keyword. */
  method DedupKeywords(ks: seq<string>) returns (deduped: seq<string>)
    ensures deduped == Dedup(ks)
  {
    deduped := [];
    var i := 0;
    while i < |ks|
      invariant 0 <= i <= |ks|
      invariant deduped == Dedup(ks[..i])
      invariant forall x :: x in deduped <==> x in ks[..i]
    {
      assert ks[..i + 1][..i] == ks[..i];
      DedupSpec(ks[..i]);
      if ks[i] !in deduped {
        deduped := deduped + [ks[i]];
      }
      i := i + 1;
    }
    assert ks[..i] == ks;
  }

  // ---------------------------------------------------------------------
  // duplicates across rows

  /** The loop over a row's distinct keywords against the sheet's seen set:
      the errors logged and the set afterwards. */
  function DupScan(ks: seq<string>, seen: set<string>, sheet: string): (seq<Error>, set<string>) {
    if ks == [] then ([], seen)
    else
      var (errs, s) := DupScan(ks[..|ks| - 1], seen, sheet);
      var k := ks[|ks| - 1];
      (if k in s then errs + [DuplicateKeyword(k, sheet)] else errs, s + {k})
  }

  /** The keywords of `ks` that are in `seen`, in order, as errors. */
  function SeenBefore(ks: seq<string>, seen: set<string>, sheet: string): seq<Error> {
    if ks == [] then []
    else SeenBefore(ks[..|ks| - 1], seen, sheet) + (if ks[|ks| - 1] in seen then [DuplicateKeyword(ks[|ks| - 1], sheet)] else [])
  }

  /** Among distinct keywords, each keyword already seen gives exactly one
      duplicate error and any other keyword none. */
  lemma {:induction false} SeenBeforeCount(ks: seq<string>, seen: set<string>, sheet: string, k: string)
    requires NoDuplicates(ks)
    ensures multiset(SeenBefore(ks, seen, sheet))[DuplicateKeyword(k, sheet)] == if k in ks && k in seen then 1 else 0
  {
    if ks != [] {
      var p := ks[..|ks| - 1];
      var last := ks[|ks| - 1];
      assert ks == p + [last];
      SeenBeforeCount(p, seen, sheet, k);
      assert k in ks <==> k in p || k == last;
      assert last !in p;
    }
  }

  /** Every error the scan against the seen set logs is a duplicate error of this sheet. */
  lemma {:induction false} SeenBeforeOnly(ks: seq<string>, seen: set<string>, sheet: string, e: Error)
    requires e in SeenBefore(ks, seen, sheet)
    ensures e.DuplicateKeyword? && e.sheet == sheet && e.keyword in ks && e.keyword in seen
  {
    var p := ks[..|ks| - 1];
    if e in SeenBefore(p, seen, sheet) {
      SeenBeforeOnly(p, seen, sheet, e);
    }
  }

  /** For distinct keywords, the scan logs exactly the keywords the sheet had
      already seen, in keyword order, and then has seen all of them. */
  lemma {:induction false} DupScanSpec(ks: seq<string>, seen: set<string>, sheet: string)
    requires NoDuplicates(ks)
    ensures DupScan(ks, seen, sheet).0 == SeenBefore(ks, seen, sheet)
    ensures DupScan(ks, seen, sheet).1 == seen + set k | k in ks
  {
    if ks != [] {
      var p := ks[..|ks| - 1];
      var k := ks[|ks| - 1];
      DupScanSpec(p, seen, sheet);
      assert k !in p;
      assert ks == p + [k];
      KeywordSetSnoc(p, k);
    }
  }

  lemma KeywordSetSnoc(p: seq<string>, k: string)
    ensures (set x | x in p + [k]) == (set x | x in p) + {k}
  {
  }

  /** The loop of `clean_keywords` that reports keywords already seen on the sheet. */
  method ScanDuplicates(ks: seq<string>, seen: set<string>, sheet: string)
    returns (errs: seq<Error>, seen': set<string>)
    ensures (errs, seen') == DupScan(ks, seen, sheet)
  {
    errs := [];
    seen' := seen;
    var i := 0;
    while i < |ks|
      invariant 0 <= i <= |ks|
      invariant (errs, seen') == DupScan(ks[..i], seen, sheet)
    {
      assert ks[..i + 1][..i] == ks[..i];
      if ks[i] in seen' {
        errs := errs + [DuplicateKeyword(ks[i], sheet)];
      }
      seen' := seen' + {ks[i]};
      i := i + 1;
    }
    assert ks[..i] == ks;
  }

  // ---------------------------------------------------------------------
  // the pass

  /** A row whose title names myths is exempt from the duplicate check. */
  predicate IsMyths(title: string) {
    Contains(title, "myths")
  }

  /** One row. The title is read only when the row has keywords, once per
      keyword; `"myths" in value` raises unless it is a string. */
  function KeywordsStep(seen: set<string>, row: Row, ai: Result<nat, Crash>, ti: Result<nat, Crash>,
                        sheet: string, u: Foreign): Result<Step<set<string>>, Crash>
  {
    match ai
    case Err(e) => Err(e)
    case Ok(a) =>
      var ks := Tokens(CellAt(row, a), u);
      var invalid := InvalidErrors(ks, sheet, u);
      var deduped := Dedup(ks);
      var out := SetCell(row, a, Str(Join(deduped, ",")));
      if deduped == [] then Ok(Step(out, invalid, seen))
      else
        match ti
        case Err(e) => Err(e)
        case Ok(t) =>
          match CellAt(row, t)
          case Str(title) =>
            if IsMyths(title) then Ok(Step(out, invalid, seen))
            else
              var (dups, seen') := DupScan(deduped, seen, sheet);
              Ok(Step(out, invalid + dups, seen'))
          case _ => Err(TypeError)
  }

  function KeywordsStepper(ai: Result<nat, Crash>, ti: Result<nat, Crash>, sheet: string, u: Foreign)
    : (set<string>, Row, nat) -> Result<Step<set<string>>, Crash>
  {
    (seen, row, j) => KeywordsStep(seen, row, ai, ti, sheet, u)
  }

  /** The pass on one sheet, given its column lookups; the seen set starts
      empty on each sheet. */
  function KeywordsSheet(sheet: Sheet, cols: Columns, u: Foreign): Result<(Sheet, seq<Error>), Crash> {
    if IsSkipped(sheet.title, METADATA_SHEETS, u) then Ok((sheet, []))
    else
      match FoldRows(sheet.rows, {}, KeywordsStepper(cols.automation, cols.title, sheet.title, u))
      case Err(e) => Err(e)
      case Ok((rows, errs, _)) => Ok((sheet.(rows := rows), errs))
  }

  /** The body of the row loop of `clean_keywords`, once the automation
      column is known. */
  method CleanRow(seen: set<string>, row: Row, a: nat, ti: Result<nat, Crash>, sheet: string, u: Foreign)
    returns (r: Result<Step<set<string>>, Crash>)
    ensures r == KeywordsStep(seen, row, Ok(a), ti, sheet, u)
  {
    var keywords := Tokens(CellAt(row, a), u);
    var invalid := CheckEmojiKeywords(keywords, sheet, u);
    var deduped := DedupKeywords(keywords);
    var out := SetCell(row, a, Str(Join(deduped, ",")));
    if deduped == [] {
      return Ok(Step(out, invalid, seen));
    }
    if ti.Err? {
      return Err(ti.error);
    }
    var title := CellAt(row, ti.value);
    if !title.Str? {
      return Err(TypeError);
    }
    if IsMyths(title.s) {
      return Ok(Step(out, invalid, seen));
    }
    var dups, seen' := ScanDuplicates(deduped, seen, sheet);
    r := Ok(Step(out, invalid + dups, seen'));
  }

  /** The row loop of `clean_keywords` on one sheet. */
  method CleanKeywords(sheet: Sheet, cols: Columns, u: Foreign) returns (r: Result<(Sheet, seq<Error>), Crash>)
    ensures r == KeywordsSheet(sheet, cols, u)
  {
    if IsSkipped(sheet.title, METADATA_SHEETS, u) {
      return Ok((sheet, []));
    }
    var res := KeywordRows(sheet.rows, cols.automation, cols.title, sheet.title, u);
    if res.Err? {
      return Err(res.error);
    }
    r := Ok((sheet.(rows := res.value.0), res.value.1));
  }

  /** The loop itself: the keywords seen so far start empty and are carried
      from row to row. */
  method KeywordRows(rows: seq<Row>, ai: Result<nat, Crash>, ti: Result<nat, Crash>, sheet: string, u: Foreign)
    returns (r: Result<(seq<Row>, seq<Error>, set<string>), Crash>)
    ensures r == FoldRows(rows, {}, KeywordsStepper(ai, ti, sheet, u))
  {
    ghost var step := KeywordsStepper(ai, ti, sheet, u);
    var seen: set<string> := {};
    var done: seq<Row> := [];
    var errs: seq<Error> := [];
    var j := 0;
    while j < |rows|
      invariant 0 <= j <= |rows|
      invariant FoldRows(rows[..j], {}, step) == Ok((done, errs, seen))
    {
      if ai.Err? {
        assert step(seen, rows[j], j) == Err(ai.error);
        FoldRowsAdvance(rows, j, {}, step, done, errs, seen, Err(ai.error));
        return Err(ai.error);
      }
      var res := CleanRow(seen, rows[j], ai.value, ti, sheet, u);
      assert step(seen, rows[j], j) == res by {
        assert ai == Ok(ai.value);
      }
      FoldRowsAdvance(rows, j, {}, step, done, errs, seen, res);
      if res.Err? {
        return Err(res.error);
      }
      done := done + [res.value.row];
      errs := errs + res.value.errors;
      seen := res.value.state;
      j := j + 1;
    }
    assert rows[..j] == rows;
    r := Ok((done, errs, seen));
  }

  // ---------------------------------------------------------------------
  // what the pass does

  predicate NoneHolds(ks: seq<string>, c: char) {
    forall k :: k in ks ==> c !in k
  }

  lemma PiecesNoComma(text: string)
    ensures NoneHolds(Split(text, ","), ',')
  {
    assert "," == [','];
    SplitPiecesFree(text, ',');
    var pieces := Split(text, ",");
    forall k | k in pieces ensures ',' !in k {
      var m :| 0 <= m < |pieces| && pieces[m] == k;
      assert forall i :: 0 <= i < |k| ==> k[i] != ',';
    }
  }

  lemma StrippedNoneHolds(ks: seq<string>, c: char)
    requires NoneHolds(ks, c)
    ensures NoneHolds(MapStrip(ks), c)
  {
    MapStripSpec(ks);
    forall k | k in MapStrip(ks) ensures c !in k {
      var m :| 0 <= m < |ks| && MapStrip(ks)[m] == k;
      StripSubset(ks[m]);
    }
  }

  lemma BaseEmojiNoneHolds(ks: seq<string>, c: char, u: Foreign)
    requires NoneHolds(ks, c)
    ensures NoneHolds(MapBaseEmoji(ks, u), c)
  {
    MapBaseEmojiSpec(ks, u);
    forall k | k in MapBaseEmoji(ks, u) ensures c !in k {
      var m :| 0 <= m < |ks| && MapBaseEmoji(ks, u)[m] == k;
      BaseEmojiSpec(ks[m], u);
    }
  }

  /** No keyword holds a comma: each comes from a piece of the split at
      commas, and trimming and `base_emoji` only remove characters. */
  lemma TokensNoComma(c: Cell, u: Foreign)
    ensures NoneHolds(Tokens(c, u), ',')
  {
    var pieces := Split(KeywordText(c), ",");
    PiecesNoComma(KeywordText(c));
    StrippedNoneHolds(pieces, ',');
    var stripped := MapStrip(pieces);
    NonEmptySpec(stripped);
    BaseEmojiNoneHolds(NonEmpty(stripped), ',', u);
  }

  /** The rewritten automation cell splits back at commas into exactly the
      cleaned keywords of the row. */
  lemma RewrittenCellSplits(c: Cell, u: Foreign)
    requires Dedup(Tokens(c, u)) != []
    ensures Split(Join(Dedup(Tokens(c, u)), ","), ",") == Dedup(Tokens(c, u))
  {
    TokensNoComma(c, u);
    DedupSpec(Tokens(c, u));
    assert "," == [','];
    SplitJoin(Dedup(Tokens(c, u)), ',');
  }

  /** The keywords a row adds to the sheet's seen set: those of a row with
      keywords whose title is a string not naming myths. */
  function RowSeen(row: Row, a: nat, t: nat, u: Foreign): set<string> {
    var deduped := Dedup(Tokens(CellAt(row, a), u));
    match CellAt(row, t)
    case Str(title) => if deduped != [] && !IsMyths(title) then set k | k in deduped else {}
    case _ => {}
  }

  /** The union of what `f` gives for each of the rows. */
  function UnionRows(rows: seq<Row>, f: Row -> set<string>): set<string> {
    if rows == [] then {} else UnionRows(rows[..|rows| - 1], f) + f(rows[|rows| - 1])
  }

  lemma {:induction false} UnionRowsSpec(rows: seq<Row>, f: Row -> set<string>, k: string)
    ensures k in UnionRows(rows, f) <==> exists i :: 0 <= i < |rows| && k in f(rows[i])
  {
    if rows != [] {
      var n := |rows| - 1;
      var p := rows[..n];
      UnionRowsSpec(p, f, k);
      if k in UnionRows(p, f) {
        var i :| 0 <= i < |p| && k in f(p[i]);
        assert p[i] == rows[i];
      }
      if exists i :: 0 <= i < |rows| && k in f(rows[i]) {
        var i :| 0 <= i < |rows| && k in f(rows[i]);
        if i < n {
          assert p[i] == rows[i];
        }
      }
    }
  }

  function RowSeener(a: nat, t: nat, u: Foreign): Row -> set<string> {
    row => RowSeen(row, a, t, u)
  }

  /** The seen set after some rows: every keyword of a non-myths row among them. */
  function SeenIn(rows: seq<Row>, a: nat, t: nat, u: Foreign): set<string> {
    UnionRows(rows, RowSeener(a, t, u))
  }

  /** A keyword is in the seen set exactly when an earlier non-myths row has it. */
  lemma SeenInSpec(rows: seq<Row>, a: nat, t: nat, u: Foreign, k: string)
    ensures k in SeenIn(rows, a, t, u) <==> exists i :: 0 <= i < |rows| && k in RowSeen(rows[i], a, t, u)
  {
    UnionRowsSpec(rows, RowSeener(a, t, u), k);
  }

  /** What one row logs: its emoji errors, then, unless it adds nothing to
      the seen set, one duplicate error per keyword already in `seen`. */
  function RowErrors(row: Row, seen: set<string>, a: nat, t: nat, sheet: string, u: Foreign): seq<Error> {
    var ks := Tokens(CellAt(row, a), u);
    InvalidErrors(ks, sheet, u) + (if RowSeen(row, a, t, u) == {} then [] else SeenBefore(Dedup(ks), seen, sheet))
  }

  /** The errors of each row in turn, each checked against the rows above it. */
  function ErrorsIn(rows: seq<Row>, a: nat, t: nat, sheet: string, u: Foreign): seq<Error> {
    if rows == [] then []
    else
      var p := rows[..|rows| - 1];
      ErrorsIn(p, a, t, sheet, u) + RowErrors(rows[|rows| - 1], SeenIn(p, a, t, u), a, t, sheet, u)
  }

  /** The row step, when it succeeds: the rewritten row, its errors (emoji
      errors, then one duplicate error per keyword already seen unless the
      row is exempt) and the new seen set. */
  lemma KeywordsStepSpec(seen: set<string>, row: Row, a: nat, t: nat, sheet: string, u: Foreign)
    requires KeywordsStep(seen, row, Ok(a), Ok(t), sheet, u).Ok?
    ensures var st := KeywordsStep(seen, row, Ok(a), Ok(t), sheet, u).value;
      var deduped := Dedup(Tokens(CellAt(row, a), u));
      st.row == SetCell(row, a, Str(Join(deduped, ",")))
      && st.state == seen + RowSeen(row, a, t, u)
      && st.errors == RowErrors(row, seen, a, t, sheet, u)
  {
    var deduped := Dedup(Tokens(CellAt(row, a), u));
    DedupSpec(Tokens(CellAt(row, a), u));
    if deduped != [] && CellAt(row, t).Str? && !IsMyths(CellAt(row, t).s) {
      DupScanSpec(deduped, seen, sheet);
      assert deduped[0] in RowSeen(row, a, t, u);
    }
  }

  /** On a sheet the pass completes, the seen set before each row holds the
      keywords of the non-myths rows above it. */
  lemma {:induction false} KeywordsState(rows: seq<Row>, a: nat, t: nat, sheet: string, u: Foreign)
    requires FoldRows(rows, {}, KeywordsStepper(Ok(a), Ok(t), sheet, u)).Ok?
    ensures FoldRows(rows, {}, KeywordsStepper(Ok(a), Ok(t), sheet, u)).value.2 == SeenIn(rows, a, t, u)
  {
    if rows != [] {
      var step := KeywordsStepper(Ok(a), Ok(t), sheet, u);
      var n := |rows| - 1;
      var p := rows[..n];
      FoldRowsOk(rows, n, {}, step);
      assert p == rows[..n];
      KeywordsState(p, a, t, sheet, u);
      var seen := FoldRows(p, {}, step).value.2;
      assert step(seen, rows[n], n) == KeywordsStep(seen, rows[n], Ok(a), Ok(t), sheet, u);
      KeywordsStepSpec(seen, rows[n], a, t, sheet, u);
    }
  }

  /** Row `j` of a completed sheet: its automation cell is the comma-join of
      its cleaned keywords and its other cells are kept. */
  lemma KeywordsSheetRow(sheet: Sheet, a: nat, t: nat, cols: Columns, u: Foreign, j: nat)
    requires !IsSkipped(sheet.title, METADATA_SHEETS, u)
    requires cols.automation == Ok(a) && cols.title == Ok(t)
    requires KeywordsSheet(sheet, cols, u).Ok? && j < |sheet.rows|
    ensures var out := KeywordsSheet(sheet, cols, u).value.0;
      var row := sheet.rows[j];
      out.title == sheet.title && out.header == sheet.header && |out.rows| == |sheet.rows|
      && CellAt(out.rows[j], a) == Str(Join(Dedup(Tokens(CellAt(row, a), u)), ","))
      && (forall i :: i != a ==> CellAt(out.rows[j], i) == CellAt(row, i))
  {
    var step := KeywordsStepper(Ok(a), Ok(t), sheet.title, u);
    FoldRowsOk(sheet.rows, j, {}, step);
    var seen := FoldRows(sheet.rows[..j], {}, step).value.2;
    assert step(seen, sheet.rows[j], j) == KeywordsStep(seen, sheet.rows[j], Ok(a), Ok(t), sheet.title, u);
    KeywordsStepSpec(seen, sheet.rows[j], a, t, sheet.title, u);
  }

  /** The errors the pass logs for a completed sheet, row after row: each
      row's emoji errors, then one duplicate error for each of its keywords
      that a non-myths row above it already had (none for a myths row). */
  lemma {:induction false} KeywordsErrors(rows: seq<Row>, a: nat, t: nat, sheet: string, u: Foreign)
    requires FoldRows(rows, {}, KeywordsStepper(Ok(a), Ok(t), sheet, u)).Ok?
    ensures FoldRows(rows, {}, KeywordsStepper(Ok(a), Ok(t), sheet, u)).value.1 == ErrorsIn(rows, a, t, sheet, u)
  {
    if rows != [] {
      var step := KeywordsStepper(Ok(a), Ok(t), sheet, u);
      var n := |rows| - 1;
      var p := rows[..n];
      FoldRowsOk(rows, n, {}, step);
      assert p == rows[..n];
      KeywordsErrors(p, a, t, sheet, u);
      KeywordsState(p, a, t, sheet, u);
      var seen := FoldRows(p, {}, step).value.2;
      assert step(seen, rows[n], n) == KeywordsStep(seen, rows[n], Ok(a), Ok(t), sheet, u);
      KeywordsStepSpec(seen, rows[n], a, t, sheet, u);
    }
  }
}
