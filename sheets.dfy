/** The workbook as the normaliser sees it through openpyxl: named sheets,
    each a header row and data rows of cells; logical columns found by header
    synonyms (`get_index`, `get_cell`); the error records `error()` prints;
    and the exceptions that end a run. */
module Sheets {
  import opened Wrappers
  import opened Text
  import opened Unicode

  /** A cell value: `None`, a string or an integer (float cells are not modelled). */
  datatype Cell = Blank | Str(s: string) | Int(n: int)

  /** Python truthiness of a cell value. */
  predicate Truthy(c: Cell) {
    match c
    case Blank => false
    case Str(s) => s != ""
    case Int(n) => n != 0
  }

  /** `str(value)`, as f-strings print a cell value. */
  function CellStr(c: Cell): string {
    match c
    case Blank => "None"
    case Str(s) => s
    case Int(n) => IntToString(n)
  }

  /** `value or ""` used as a string: a non-zero integer has no string
      methods, so calling one on it raises an AttributeError. */
  function TextOrEmpty(c: Cell): (r: Result<string, Crash>)
    ensures r.Err? <==> c.Int? && c.n != 0
    ensures r.Err? ==> r.error == AttributeError
    ensures c.Str? ==> r == Ok(c.s)
    ensures !Truthy(c) ==> r == Ok("")
  {
    match c
    case Blank => Ok("")
    case Str(s) => Ok(s)
    case Int(n) => if n == 0 then Ok("") else Err(AttributeError)
  }

  type Row = seq<Cell>

  datatype Sheet = Sheet(title: string, header: Row, rows: seq<Row>)

  /** The exceptions that stop a run (nothing is saved after one). */
  datatype Crash =
    | MissingHeader(names: seq<string>)  // AttributeError from get_index
    | MissingSheet(title: string)        // KeyError from workbook[title]
    | AttributeError                     // a string method called on an int or None
    | TypeError                          // `len`, `in`, slicing or `startswith` given an int or None
    | KeyError(key: string)              // a title missing from an English map
    | IndexError                         // a paragraph index past the end

  /** The validation errors `error()` records; the run goes on after each. */
  datatype Error =
    | InvalidKeyword(keyword: string, sheet: string)
    | DuplicateKeyword(keyword: string, sheet: string)
    | MissingEnglish(title: string, sheet: string)
    | ContentTooLong(titleCell: Cell, sheet: string)
  {
    /** The line `error()` prints. */
    function Message(): string {
      match this
      case InvalidKeyword(k, sh) => "Invalid keyword, more than just emoji: " + k + "; sheet: " + sh
      case DuplicateKeyword(k, sh) => "Duplicate keyword " + k + "; sheet: " + sh
      case MissingEnglish(t, sh) => "Missing english content " + t + ", sheet: " + sh
      case ContentTooLong(t, sh) => "Content too long: " + CellStr(t) + "; sheet: " + sh
    }
  }

  // ---------------------------------------------------------------------
  // cells of a row

  /** The cell in column `i` of a row; openpyxl reads a cell it never stored as `None`. */
  function CellAt(row: Row, i: nat): Cell {
    if i < |row| then row[i] else Blank
  }

  /** Assigning `cell.value`; openpyxl creates the cell if the row was shorter. */
  function SetCell(row: Row, i: nat, v: Cell): (r: Row)
    ensures CellAt(r, i) == v
    ensures forall j :: j != i ==> CellAt(r, j) == CellAt(row, j)
    ensures |r| == if i < |row| then |row| else i + 1
  {
    if i < |row| then row[i := v] else row + seq(i - |row|, _ => Blank) + [v]
  }

  // ---------------------------------------------------------------------
  // header lookup

  /** A header cell as get_index compares it: `(value or "").strip().lower()`.
      Only a non-zero number has no `strip()`. */
  function HeaderKey(c: Cell, u: Foreign): (r: Result<string, Crash>)
    ensures r.Err? <==> c.Int? && c.n != 0
    ensures r.Err? ==> r.error == AttributeError
  {
    match TextOrEmpty(c)
    case Err(e) => Err(e)
    case Ok(t) => Ok(u.lower(Strip(t)))
  }

  function HeaderKeyOf(u: Foreign): Cell -> Result<string, Crash> {
    c => HeaderKey(c, u)
  }

  /** The list get_index builds from the header row. */
  function HeaderKeys(header: Row, u: Foreign): Result<seq<string>, Crash> {
    MapCells(header, HeaderKeyOf(u))
  }

  /** A list comprehension over cells: `f` of each cell in order; the first
      cell on which `f` raises ends it with that exception. */
  function MapCells<B>(cells: Row, f: Cell -> Result<B, Crash>): (r: Result<seq<B>, Crash>)
    ensures r.Ok? ==> |r.value| == |cells|
  {
    if cells == [] then Ok([])
    else
      match f(cells[0])
      case Err(e) => Err(e)
      case Ok(k) =>
        match MapCells(cells[1..], f)
        case Err(e) => Err(e)
        case Ok(ks) => Ok([k] + ks)
  }

  /** A comprehension that finished holds `f` of each cell. */
  lemma {:induction false} MapCellsOk<B>(cells: Row, f: Cell -> Result<B, Crash>)
    requires MapCells(cells, f).Ok?
    ensures forall i :: 0 <= i < |cells| ==> f(cells[i]) == Ok(MapCells(cells, f).value[i])
  {
    if cells != [] {
      var tail := cells[1..];
      MapCellsOk(tail, f);
      var ks := MapCells(tail, f).value;
      var all := MapCells(cells, f).value;
      assert f(cells[0]).Ok? && all == [f(cells[0]).value] + ks;
      forall i | 0 <= i < |cells|
        ensures f(cells[i]) == Ok(all[i])
      {
        if i > 0 {
          assert cells[i] == tail[i - 1] && all[i] == ks[i - 1];
        }
      }
    }
  }

  /** A comprehension that raised did so on one of the cells, with that
      cell's exception. */
  lemma {:induction false} MapCellsBadCell<B>(cells: Row, f: Cell -> Result<B, Crash>) returns (i: nat)
    requires MapCells(cells, f).Err?
    ensures i < |cells| && f(cells[i]) == Err(MapCells(cells, f).error)
  {
    if f(cells[0]).Err? {
      i := 0;
    } else {
      var j := MapCellsBadCell(cells[1..], f);
      assert cells[j + 1] == cells[1..][j];
      i := j + 1;
    }
  }

  /** A cell on which `f` raises makes the comprehension raise. */
  lemma {:induction false} MapCellsErrAt<B>(cells: Row, i: nat, f: Cell -> Result<B, Crash>)
    requires i < |cells| && f(cells[i]).Err?
    ensures MapCells(cells, f).Err?
  {
    if i > 0 && f(cells[0]).Ok? {
      assert cells[1..][i - 1] == cells[i];
      MapCellsErrAt(cells[1..], i - 1, f);
    }
  }

  /** The header list holds each header cell's key. */
  lemma HeaderKeysOk(header: Row, u: Foreign)
    requires HeaderKeys(header, u).Ok?
    ensures |HeaderKeys(header, u).value| == |header|
    ensures forall i :: 0 <= i < |header| ==> HeaderKey(header[i], u) == Ok(HeaderKeys(header, u).value[i])
  {
    var f := HeaderKeyOf(u);
    MapCellsOk(header, f);
    forall i | 0 <= i < |header| ensures HeaderKey(header[i], u) == Ok(HeaderKeys(header, u).value[i]) {
      assert f(header[i]) == HeaderKey(header[i], u);
    }
  }

  /** Building the header list raises exactly when some header cell is a
      non-zero number, and then with an AttributeError. */
  lemma HeaderKeysErr(header: Row, u: Foreign)
    ensures HeaderKeys(header, u).Err? <==> exists i :: 0 <= i < |header| && header[i].Int? && header[i].n != 0
    ensures HeaderKeys(header, u).Err? ==> HeaderKeys(header, u).error == AttributeError
  {
    var f := HeaderKeyOf(u);
    if HeaderKeys(header, u).Err? {
      var i := MapCellsBadCell(header, f);
      assert f(header[i]) == HeaderKey(header[i], u);
    }
    forall i | 0 <= i < |header| && header[i].Int? && header[i].n != 0 ensures HeaderKeys(header, u).Err? {
      assert f(header[i]) == HeaderKey(header[i], u);
      MapCellsErrAt(header, i, f);
    }
  }

  /** A candidate name as get_index compares it: `name.strip().lower()`. */
  function NormName(name: string, u: Foreign): string {
    u.lower(Strip(name))
  }

  /** `header.index(x)`: the first position of `x`. */
  function IndexOf(keys: seq<string>, x: string): (i: nat)
    requires x in keys
    ensures i < |keys| && keys[i] == x
    ensures forall j :: 0 <= j < i ==> keys[j] != x
  {
    if keys[0] == x then 0 else 1 + IndexOf(keys[1..], x)
  }

  /** Tries the (normalised) names in the order given; the first one present
      in the header wins, at its first position there. */
  function FirstMatch(keys: seq<string>, names: seq<string>): Option<nat> {
    if names == [] then None
    else if names[0] in keys then Some(IndexOf(keys, names[0]))
    else FirstMatch(keys, names[1..])
  }

  /** The lookup fails exactly when no name is in the header; otherwise it
      returns the first header position of the earliest name that is. */
  lemma {:induction false} FirstMatchSpec(keys: seq<string>, names: seq<string>)
    ensures FirstMatch(keys, names).None? <==> forall k :: 0 <= k < |names| ==> names[k] !in keys
    ensures FirstMatch(keys, names).Some? ==>
      var i := FirstMatch(keys, names).value;
      i < |keys| &&
      (exists k :: 0 <= k < |names| && keys[i] == names[k]
        && (forall m :: 0 <= m < k ==> names[m] !in keys)
        && (forall j :: 0 <= j < i ==> keys[j] != keys[i]))
  {
    if FirstMatch(keys, names).Some? {
      var k := FirstMatchName(keys, names);
    } else if names != [] {
      FirstMatchSpec(keys, names[1..]);
      assert forall k :: 1 <= k < |names| ==> names[k] == names[1..][k - 1];
    }
  }

  /** The name a successful lookup found: the earliest one in the header,
      at the first position holding it. */
  lemma {:induction false} FirstMatchName(keys: seq<string>, names: seq<string>) returns (k: nat)
    requires FirstMatch(keys, names).Some?
    ensures var i := FirstMatch(keys, names).value;
      k < |names| && i < |keys| && keys[i] == names[k]
      && (forall m :: 0 <= m < k ==> names[m] !in keys)
      && (forall j :: 0 <= j < i ==> keys[j] != keys[i])
  {
    if names[0] in keys {
      k := 0;
    } else {
      var tail := names[1..];
      var k' := FirstMatchName(keys, tail);
      k := k' + 1;
      assert forall m :: 1 <= m < |names| ==> names[m] == tail[m - 1];
    }
  }

  function NormNames(names: seq<string>, u: Foreign): (r: seq<string>)
    ensures |r| == |names| && forall k :: 0 <= k < |names| ==> r[k] == NormName(names[k], u)
  {
    if names == [] then [] else [NormName(names[0], u)] + NormNames(names[1..], u)
  }

  /** `get_index(sheet, *names)`: the column of the first name found in the
      header, or the AttributeError raised when none is. */
  function GetIndex(header: Row, names: seq<string>, u: Foreign): (r: Result<nat, Crash>)
    ensures r.Ok? ==> r.value < |header|
    ensures r.Err? ==> r.error == AttributeError || r.error == MissingHeader(names)
  {
    match HeaderKeys(header, u)
    case Err(e) => HeaderKeysErr(header, u); Err(e)
    case Ok(keys) =>
      match FirstMatch(keys, NormNames(names, u))
      case None => Err(MissingHeader(names))
      case Some(i) => FirstMatchSpec(keys, NormNames(names, u)); Ok(i)
  }

  /** `get_index` raises an AttributeError exactly when a header cell is a non-zero number. */
  lemma GetIndexBadHeader(header: Row, names: seq<string>, u: Foreign)
    ensures (exists i :: 0 <= i < |header| && header[i].Int? && header[i].n != 0) <==>
      GetIndex(header, names, u) == Err(AttributeError)
  {
    HeaderKeysErr(header, u);
    var hk := HeaderKeys(header, u);
    if hk.Ok? {
      assert GetIndex(header, names, u) != Err(AttributeError) by {
        match FirstMatch(hk.value, NormNames(names, u))
        case None =>
        case Some(_) =>
      }
    }
  }

  /** Given a readable header (whose keys `HeaderKeysOk` describes),
      `get_index` fails exactly when no normalised name is among the keys. */
  lemma GetIndexMissing(header: Row, names: seq<string>, u: Foreign)
    requires HeaderKeys(header, u).Ok?
    ensures GetIndex(header, names, u) == Err(MissingHeader(names)) <==>
      forall k :: 0 <= k < |names| ==> NormName(names[k], u) !in HeaderKeys(header, u).value
  {
    FirstMatchSpec(HeaderKeys(header, u).value, NormNames(names, u));
  }

  /** Name `k` is in the header at position `i`, and no earlier name is in it. */
  predicate EarliestName(keys: seq<string>, names: seq<string>, u: Foreign, i: nat, k: nat) {
    i < |keys| && k < |names| && keys[i] == NormName(names[k], u)
    && forall m :: 0 <= m < k ==> NormName(names[m], u) !in keys
  }

  /** A match of the normalised names `nn` is the earliest name's first position. */
  lemma FirstMatchEarliest(keys: seq<string>, names: seq<string>, nn: seq<string>, u: Foreign)
    requires |nn| == |names| && forall k :: 0 <= k < |names| ==> nn[k] == NormName(names[k], u)
    requires FirstMatch(keys, nn).Some?
    ensures var i := FirstMatch(keys, nn).value;
      (exists k :: EarliestName(keys, names, u, i, k))
      && (forall j :: 0 <= j < i ==> keys[j] != keys[i])
  {
    var i := FirstMatch(keys, nn).value;
    var k := FirstMatchName(keys, nn);
    forall m | 0 <= m < k ensures NormName(names[m], u) !in keys {
      assert nn[m] == NormName(names[m], u);
    }
    assert EarliestName(keys, names, u, i, k);
  }

  /** When `get_index` succeeds it returns the first header position holding
      the earliest name that is in the header at all. */
  lemma GetIndexFound(header: Row, names: seq<string>, u: Foreign)
    requires GetIndex(header, names, u).Ok?
    ensures HeaderKeys(header, u).Ok?
    ensures var keys := HeaderKeys(header, u).value;
      var i := GetIndex(header, names, u).value;
      i < |keys|
      && (exists k :: EarliestName(keys, names, u, i, k))
      && (forall j :: 0 <= j < i ==> keys[j] != keys[i])
  {
    var keys := HeaderKeys(header, u).value;
    assert GetIndex(header, names, u) == Ok(FirstMatch(keys, NormNames(names, u)).value);
    FirstMatchEarliest(keys, names, NormNames(names, u), u);
  }

  /** The logical columns `get_cell` knows. */
  datatype Column = Title | Content | Language | Automation

  /** The header synonyms `get_cell` accepts for each logical column, in order. */
  function Aliases(col: Column): seq<string> {
    match col
    case Title => ["content_title", "content title", "automation title"]
    case Content => ["content"]
    case Language => ["language"]
    case Automation => ["automation"]
  }

  /** The column index `get_cell(sheet, row, col)` reads. */
  function ColumnIndex(sheet: Sheet, col: Column, u: Foreign): Result<nat, Crash> {
    GetIndex(sheet.header, Aliases(col), u)
  }

  /** The four lookups of a sheet, each resolved once: the header row is never
      written by a pass, so every call of `get_cell` on the sheet gives the same
      index (or raises the same way). A pass consumes them where the source
      first calls `get_cell`. */
  datatype Columns = Columns(
    title: Result<nat, Crash>, content: Result<nat, Crash>,
    language: Result<nat, Crash>, automation: Result<nat, Crash>)

  function ResolveColumns(sheet: Sheet, u: Foreign): Columns {
    Columns(ColumnIndex(sheet, Title, u), ColumnIndex(sheet, Content, u),
            ColumnIndex(sheet, Language, u), ColumnIndex(sheet, Automation, u))
  }

  /** The lookup of `cols` that serves column `col`. */
  function Lookup(cols: Columns, col: Column): Result<nat, Crash> {
    match col
    case Title => cols.title
    case Content => cols.content
    case Language => cols.language
    case Automation => cols.automation
  }

  /** `get_cell(sheet, row, name)` reads the column of the first synonym of
      `name` found in the header: a resolved column is a header position whose
      cell, stripped and lower-cased, is one of the synonyms, with no earlier
      synonym anywhere in the header. A lookup that fails raises the
      AttributeError naming the synonyms, or the one for a numeric header cell. */
  lemma ResolveColumnsSpec(sheet: Sheet, col: Column, u: Foreign)
    ensures var r := Lookup(ResolveColumns(sheet, u), col);
      r.Ok? ==> HeaderCellNamed(sheet.header, Aliases(col), u, r.value)
    ensures var r := Lookup(ResolveColumns(sheet, u), col);
      r.Err? ==> r.error == AttributeError || r.error == MissingHeader(Aliases(col))
  {
    assert Lookup(ResolveColumns(sheet, u), col) == GetIndex(sheet.header, Aliases(col), u) by {
      match col
      case Title =>
      case Content =>
      case Language =>
      case Automation =>
    }
    GetIndexNamed(sheet.header, Aliases(col), u);
  }

  /** Header cell `i`, stripped and lower-cased, is name `k` of `names`, and
      no earlier name is anywhere in the header. */
  predicate HeaderCellNamed(header: Row, names: seq<string>, u: Foreign, i: nat) {
    i < |header| && HeaderKeys(header, u).Ok?
    && exists k :: 0 <= k < |names|
         && HeaderKey(header[i], u) == Ok(NormName(names[k], u))
         && forall m :: 0 <= m < k ==> NormName(names[m], u) !in HeaderKeys(header, u).value
  }

  /** A found column is a header cell that reads as the earliest name present. */
  lemma GetIndexNamed(header: Row, names: seq<string>, u: Foreign)
    ensures GetIndex(header, names, u).Ok? ==> HeaderCellNamed(header, names, u, GetIndex(header, names, u).value)
  {
    var r := GetIndex(header, names, u);
    if r.Ok? {
      GetIndexFound(header, names, u);
      HeaderKeysOk(header, u);
      var keys := HeaderKeys(header, u).value;
      var k :| EarliestName(keys, names, u, r.value, k);
      assert HeaderKey(header[r.value], u) == Ok(keys[r.value]);
    }
  }

  // ---------------------------------------------------------------------
  // sheets of a workbook

  /** Sheets every pass leaves alone. */
  const METADATA_SHEETS: seq<string> := ["language codes", "importinfo"]

  /** Sheets the two English-filling passes leave alone. */
  const EXEMPT_SHEETS: seq<string> := METADATA_SHEETS + ["english master", "sepedi (sa)"]

  const ENGLISH_MASTER: string := "English master"

  /** The metadata sheets are among the exempt ones. */
  lemma MetadataExempt(title: string, u: Foreign)
    requires IsSkipped(title, METADATA_SHEETS, u)
    ensures IsSkipped(title, EXEMPT_SHEETS, u)
  {
  }

  /** `sheet.title.strip().lower() in names`. */
  predicate IsSkipped(title: string, names: seq<string>, u: Foreign) {
    u.lower(Strip(title)) in names
  }

  /** `workbook[title]`: the first sheet with exactly that title. */
  function FindSheet(sheets: seq<Sheet>, title: string): (r: Option<nat>)
    ensures r.Some? ==> r.value < |sheets| && sheets[r.value].title == title
                        && forall j :: 0 <= j < r.value ==> sheets[j].title != title
    ensures r.None? ==> forall j :: 0 <= j < |sheets| ==> sheets[j].title != title
  {
    if sheets == [] then None
    else if sheets[0].title == title then Some(0)
    else
      match FindSheet(sheets[1..], title)
      case None => None
      case Some(i) => Some(i + 1)
  }

  lemma EnglishMasterAscii()
    ensures IsAscii(ENGLISH_MASTER)
  {
    var e := ENGLISH_MASTER;
    forall i | 0 <= i < |e| ensures e[i] < '\U{80}' {
      assert 'A' <= e[i] <= 'z' || e[i] == ' ';
    }
  }

  lemma EnglishMasterLower()
    ensures AsciiLower(ENGLISH_MASTER) == "english master"
  {
    var e := ENGLISH_MASTER;
    var l := AsciiLower(e);
    forall i | 0 <= i < |l| ensures l[i] == "english master"[i] {
      assert l[i] == AsciiLowerChar(e[i]);
    }
  }

  lemma EnglishMasterLowered(u: Foreign)
    ensures u.lower(ENGLISH_MASTER) == "english master"
  {
    EnglishMasterAscii();
    EnglishMasterLower();
  }

  lemma EnglishMasterStripped()
    ensures Strip(ENGLISH_MASTER) == ENGLISH_MASTER
  {
    StripTrimmed(ENGLISH_MASTER);
  }

  /** The English master sheet is among the sheets the English-filling passes
      skip, so reading it while those passes run sees it unchanged. */
  lemma EnglishMasterExempt(u: Foreign)
    ensures IsSkipped(ENGLISH_MASTER, EXEMPT_SHEETS, u)
  {
    EnglishMasterStripped();
    EnglishMasterLowered(u);
    ExemptHasMaster();
  }

  lemma ExemptHasMaster()
    ensures "english master" in EXEMPT_SHEETS
  {
    assert EXEMPT_SHEETS[2] == "english master";
  }

  /** `strip the language prefix`: `title[len(language) + 1:]` when the title
      starts with the language, which must be a string (`startswith(None)` raises). */
  function StripLanguagePrefix(title: string, language: Cell): (r: Result<string, Crash>)
    ensures r.Err? <==> !language.Str?
    ensures language.Str? && !(language.s <= title) ==> r == Ok(title)
    ensures language.Str? && language.s <= title ==> r == Ok(Drop(title, |language.s| + 1))
  {
    match language
    case Str(l) => Ok(if l <= title then Drop(title, |l| + 1) else title)
    case _ => Err(TypeError)
  }

  // ---------------------------------------------------------------------
  // the loops every pass runs

  /** What one row of a pass produces: the row as written back, the errors
      logged for it, and the loop state carried to the next row. */
  datatype Step<S> = Step(row: Row, errors: seq<Error>, state: S)

  /** `for row in sheet.iter_rows(min_row=2)`: the step runs on each data row in
      order (with its index), threading the loop state; the first exception
      ends the loop. */
  function FoldRows<S>(rows: seq<Row>, init: S, step: (S, Row, nat) -> Result<Step<S>, Crash>)
    : (r: Result<(seq<Row>, seq<Error>, S), Crash>)
    ensures r.Ok? ==> |r.value.0| == |rows|
  {
    if rows == [] then Ok(([], [], init))
    else
      match FoldRows(rows[..|rows| - 1], init, step)
      case Err(e) => Err(e)
      case Ok((done, errs, st)) =>
        match step(st, rows[|rows| - 1], |rows| - 1)
        case Err(e) => Err(e)
        case Ok(s) => Ok((done + [s.row], errs + s.errors, s.state))
  }

  /** One more iteration of the loop: the step runs on row `j` from the state
      the first `j` rows left. */
  lemma FoldRowsNext<S>(rows: seq<Row>, j: nat, init: S, step: (S, Row, nat) -> Result<Step<S>, Crash>)
    requires j < |rows| && FoldRows(rows[..j], init, step).Ok?
    ensures var (done, errs, st) := FoldRows(rows[..j], init, step).value;
            FoldRows(rows[..j + 1], init, step) ==
              match step(st, rows[j], j)
              case Err(e) => Err(e)
              case Ok(s) => Ok((done + [s.row], errs + s.errors, s.state))
  {
    assert rows[..j + 1][..j] == rows[..j];
  }

  /** The loop's bookkeeping for row `j`, given what the step made of it: a
      raising step ends the whole loop with its exception; otherwise the
      first `j + 1` rows leave the row, the errors and the state it made
      appended to what the first `j` rows left. */
  lemma FoldRowsAdvance<S>(rows: seq<Row>, j: nat, init: S, step: (S, Row, nat) -> Result<Step<S>, Crash>,
                           done: seq<Row>, errs: seq<Error>, st: S, res: Result<Step<S>, Crash>)
    requires j < |rows| && FoldRows(rows[..j], init, step) == Ok((done, errs, st))
    requires res == step(st, rows[j], j)
    ensures res.Err? ==> FoldRows(rows, init, step) == Err(res.error)
    ensures res.Ok? ==> FoldRows(rows[..j + 1], init, step) == Ok((done + [res.value.row], errs + res.value.errors, res.value.state))
  {
    FoldRowsNext(rows, j, init, step);
    if res.Err? {
      FoldRowsErr(rows, j + 1, init, step);
    }
  }

  /** Once a prefix of the rows raises, the whole loop raises the same exception. */
  lemma {:induction false} FoldRowsErr<S>(rows: seq<Row>, j: nat, init: S, step: (S, Row, nat) -> Result<Step<S>, Crash>)
    requires j <= |rows| && FoldRows(rows[..j], init, step).Err?
    ensures FoldRows(rows, init, step) == FoldRows(rows[..j], init, step)
    decreases |rows| - j
  {
    if j < |rows| {
      assert rows[..j + 1][..j] == rows[..j];
      FoldRowsErr(rows, j + 1, init, step);
    } else {
      assert rows[..j] == rows;
    }
  }

  /** A loop that finished ran the step on every row: row `j` was produced by
      the step from the state the first `j` rows left. */
  lemma {:induction false} FoldRowsOk<S>(rows: seq<Row>, j: nat, init: S, step: (S, Row, nat) -> Result<Step<S>, Crash>)
    requires j < |rows| && FoldRows(rows, init, step).Ok?
    ensures FoldRows(rows[..j], init, step).Ok?
    ensures var st := FoldRows(rows[..j], init, step).value.2;
            step(st, rows[j], j).Ok? && FoldRows(rows, init, step).value.0[j] == step(st, rows[j], j).value.row
    decreases |rows|
  {
    var n := |rows| - 1;
    var p := rows[..n];
    assert FoldRows(p, init, step).Ok?;
    if j < n {
      FoldRowsOk(p, j, init, step);
      assert p[..j] == rows[..j];
      assert p[j] == rows[j];
    } else {
      assert p == rows[..j];
    }
  }

  /** A loop that finished: what the first `j + 1` rows leave is what the
      first `j` rows leave extended by the step on row `j`. */
  lemma FoldRowsAt<S>(rows: seq<Row>, j: nat, init: S, step: (S, Row, nat) -> Result<Step<S>, Crash>)
    requires j < |rows| && FoldRows(rows, init, step).Ok?
    ensures FoldRows(rows[..j], init, step).Ok?
    ensures var (done, errs, st) := FoldRows(rows[..j], init, step).value;
            var s := step(st, rows[j], j);
            s.Ok? && FoldRows(rows[..j + 1], init, step) == Ok((done + [s.value.row], errs + s.value.errors, s.value.state))
  {
    FoldRowsOk(rows, j, init, step);
    FoldRowsNext(rows, j, init, step);
  }

  /** The errors a loop with no state logs: each row's, in row order. */
  function Logged(rows: seq<Row>, step: ((), Row, nat) -> Result<Step<()>, Crash>): seq<Error> {
    if rows == [] then []
    else
      var n := |rows| - 1;
      Logged(rows[..n], step) + (match step((), rows[n], n) case Ok(s) => s.errors case Err(_) => [])
  }

  lemma {:induction false} FoldRowsLogged(rows: seq<Row>, step: ((), Row, nat) -> Result<Step<()>, Crash>)
    requires FoldRows(rows, (), step).Ok?
    ensures FoldRows(rows, (), step).value.1 == Logged(rows, step)
  {
    if rows != [] {
      var n := |rows| - 1;
      FoldRowsOk(rows, n, (), step);
      FoldRowsNext(rows, n, (), step);
      assert rows[..n + 1] == rows;
      FoldRowsLogged(rows[..n], step);
      assert FoldRows(rows[..n], (), step).value.2 == ();
    }
  }

  /** `for sheet in workbook`: the per-sheet step on every sheet in order; the
      errors of all sheets are logged in that order; the first exception ends
      the pass. */
  function MapSheets(sheets: seq<Sheet>, f: Sheet -> Result<(Sheet, seq<Error>), Crash>)
    : (r: Result<(seq<Sheet>, seq<Error>), Crash>)
    ensures r.Ok? ==> |r.value.0| == |sheets|
  {
    if sheets == [] then Ok(([], []))
    else
      match MapSheets(sheets[..|sheets| - 1], f)
      case Err(e) => Err(e)
      case Ok((done, errs)) =>
        match f(sheets[|sheets| - 1])
        case Err(e) => Err(e)
        case Ok((s, es)) => Ok((done + [s], errs + es))
  }

  /** A pass that finished ran the per-sheet step on every sheet: sheet `i`
      of the result is what the step made of sheet `i`. */
  lemma {:induction false} MapSheetsAt(sheets: seq<Sheet>, i: nat, f: Sheet -> Result<(Sheet, seq<Error>), Crash>)
    requires i < |sheets| && MapSheets(sheets, f).Ok?
    ensures f(sheets[i]).Ok? && MapSheets(sheets, f).value.0[i] == f(sheets[i]).value.0
  {
    var n := |sheets| - 1;
    var p := sheets[..n];
    if i < n {
      MapSheetsAt(p, i, f);
      assert p[i] == sheets[i];
    }
  }

  /** The sheet loop's bookkeeping for sheet `i`, given what the step made
      of it: a raising step ends the pass with its exception, otherwise the
      first `i + 1` sheets give the sheets and errors so far extended by it. */
  lemma MapSheetsAdvance(sheets: seq<Sheet>, i: nat, f: Sheet -> Result<(Sheet, seq<Error>), Crash>,
                         done: seq<Sheet>, errs: seq<Error>, one: Result<(Sheet, seq<Error>), Crash>)
    requires i < |sheets| && MapSheets(sheets[..i], f) == Ok((done, errs))
    requires one == f(sheets[i])
    ensures one.Err? ==> MapSheets(sheets, f) == Err(one.error)
    ensures one.Ok? ==> MapSheets(sheets[..i + 1], f) == Ok((done + [one.value.0], errs + one.value.1))
  {
    assert sheets[..i + 1][..i] == sheets[..i];
    if one.Err? {
      MapSheetsErr(sheets, i + 1, f);
    }
  }

  lemma {:induction false} MapSheetsErr(sheets: seq<Sheet>, j: nat, f: Sheet -> Result<(Sheet, seq<Error>), Crash>)
    requires j <= |sheets| && MapSheets(sheets[..j], f).Err?
    ensures MapSheets(sheets, f) == MapSheets(sheets[..j], f)
    decreases |sheets| - j
  {
    if j < |sheets| {
      assert sheets[..j + 1][..j] == sheets[..j];
      MapSheetsErr(sheets, j + 1, f);
    } else {
      assert sheets[..j] == sheets;
    }
  }
}
