/** The exporter's main loop: for every ImportInfo entry, in order, the
    content rows of the named sheet become Turn records (answer text after
    substitution, attached media, automators), collected per output file. */
module Export {
  import opened Wrappers
  import opened Text
  import opened Unicode
  import opened Sheets
  import opened Automations
  import opened Substitution
  import opened ImportTable

  /** The attachment fields of a media export entry; `None` where the entry
      has no such field or there is no entry. The values are kept as text. */
  datatype Media = Media(mediaObject: Option<string>, mediaType: Option<string>,
                         mimeType: Option<string>, uri: Option<string>)

  const NO_MEDIA: Media := Media(None, None, None, None)

  /** One exported content record (`"is_deleted"` is always false). */
  datatype Record = Record(
    answer: string,
    media: Media,
    automators: seq<Automator>,
    deleted: bool,
    language: Cell,
    question: string)

  /** The output files, in the order first created, each with its records. */
  type Output = Entries<seq<Record>>

  const ENGLISH: string := "eng"

  /** `media.get(strip_language(question), {})`: the media map is what the
      export endpoint returned, keyed by question without its language. */
  function MediaFor(media: map<string, Media>, question: string): Media {
    var k := StripLanguage(question);
    if k in media then media[k] else NO_MEDIA
  }

  /** Media are keyed by the question without its language code: the
      translations of one question, `eng_x` and `zul_x` say, share the
      attachment exported for `x`, and a question with no entry gets none. */
  lemma MediaForLanguages(media: map<string, Media>, l1: string, l2: string, t: string)
    requires '_' !in l1 && '_' !in l2
    ensures MediaFor(media, l1 + "_" + t) == MediaFor(media, l2 + "_" + t)
    ensures MediaFor(media, l1 + "_" + t) == if t in media then media[t] else NO_MEDIA
  {
    StripLanguageOfPrefixed(l1, t);
    StripLanguageOfPrefixed(l2, t);
  }

  /** The reply automator of a row with triggers, named after the question
      with `_` made `-`, and for English rows a second one answering contacts
      of any language, named with "eng" made "null-language". */
  function ReplyAutomators(question: string, language: Cell, keywords: Cell,
                           triggers: seq<Trigger>, u: Foreign): seq<Automator>
  {
    if triggers == [] then []
    else
      var name := ReplaceAll(question, "_", "-");
      var reply := MakeAutomator(name, [Reply], triggers);
      if language == Str(ENGLISH) then
        var any := ProcessAutomators(keywords, Str(NO_LANG), u);
        if any.Ok? && any.value != [] then
          [reply, MakeAutomator(ReplaceAll(name, ENGLISH, "null-language"), [Reply], any.value)]
        else [reply]
      else [reply]
  }

  /** The record a content row becomes (lines 171-231 of the loop body); the
      row's cells are question, content, language, keywords and
      language-switch keywords. Each `Err` is the exception the source
      raises at that point. */
  function RowRecord(row: Row, info: SheetInfo, languages: map<Cell, seq<string>>,
                     media: map<string, Media>, u: Foreign): (r: Result<Record, Crash>)
    ensures r.Ok? ==> r.value.language == CellAt(row, 2) && CellAt(row, 0) == Str(r.value.question)
                      && r.value.media == MediaFor(media, r.value.question) && !r.value.deleted
  {
    var question := CellAt(row, 0);
    var content := CellAt(row, 1);
    var language := CellAt(row, 2);
    match ProcessAutomators(CellAt(row, 3), language, u)
    case Err(e) => Err(e)
    case Ok(triggers) =>
      match ProcessLanguageAutomations(CellAt(row, 4), language, u)
      case Err(e) => Err(e)
      case Ok(switch) =>
        if triggers != [] && !question.Str? then Err(AttributeError)
        else
          var replies := if triggers != [] then ReplyAutomators(question.s, language, CellAt(row, 3), triggers, u) else [];
          var automators := replies + (if switch.Some? then [switch.value] else []);
          if !content.Str? then Err(AttributeError)
          else
            var replaced := ApplyReplacements(content.s, info.replace);
            if info.country !in languages then Err(KeyError(CellStr(info.country)))
            else
              match ReplaceContentLanguages(question, replaced, languages[info.country])
              case Err(e) => Err(e)
              case Ok(answer) =>
                if !question.Str? then Err(AttributeError)
                else Ok(Record(answer, MediaFor(media, question.s), automators, false, language, question.s))
  }

  /** The automators of a record come in a fixed order: the reply automator
      when the row has triggers, then for English rows its any-language
      copy, then the language switch whenever there is one. */
  lemma AutomatorOrder(row: Row, info: SheetInfo, languages: map<Cell, seq<string>>,
                       media: map<string, Media>, u: Foreign)
    requires RowRecord(row, info, languages, media, u).Ok?
    ensures var a := RowRecord(row, info, languages, media, u).value.automators;
            var q := RowRecord(row, info, languages, media, u).value.question;
            var t := ProcessAutomators(CellAt(row, 3), CellAt(row, 2), u).value;
            var sw := ProcessLanguageAutomations(CellAt(row, 4), CellAt(row, 2), u).value;
            var english := t != [] && CellAt(row, 2) == Str(ENGLISH);
            |a| == (if t != [] then 1 else 0) + (if english then 1 else 0) + (if sw.Some? then 1 else 0)
            && (t != [] ==> a[0] == MakeAutomator(ReplaceAll(q, "_", "-"), [Reply], t))
            && (english ==>
                  a[1] == MakeAutomator(ReplaceAll(ReplaceAll(q, "_", "-"), ENGLISH, "null-language"), [Reply],
                                        ProcessAutomators(CellAt(row, 3), Str(NO_LANG), u).value))
            && (sw.Some? ==> a[|a| - 1] == sw.value)
  {
    RecordAutomators(row, info, languages, media, u);
    var r := RowRecord(row, info, languages, media, u).value;
    var t := ProcessAutomators(CellAt(row, 3), CellAt(row, 2), u).value;
    var sw := ProcessLanguageAutomations(CellAt(row, 4), CellAt(row, 2), u).value;
    var replies := ReplyAutomators(r.question, CellAt(row, 2), CellAt(row, 3), t, u);
    ReplyOrder(r.question, CellAt(row, 2), CellAt(row, 3), t, u);
    ConcatEnds(replies, if sw.Some? then [sw.value] else []);
  }

  lemma ConcatEnds<T>(a: seq<T>, b: seq<T>)
    ensures |a + b| == |a| + |b|
    ensures forall i :: 0 <= i < |a| ==> (a + b)[i] == a[i]
    ensures b != [] ==> (a + b)[|a + b| - 1] == b[|b| - 1]
  {
  }

  /** A record's automators are its reply automators followed by its language switch. */
  lemma RecordAutomators(row: Row, info: SheetInfo, languages: map<Cell, seq<string>>,
                         media: map<string, Media>, u: Foreign)
    requires RowRecord(row, info, languages, media, u).Ok?
    ensures ProcessAutomators(CellAt(row, 3), CellAt(row, 2), u).Ok?
    ensures ProcessLanguageAutomations(CellAt(row, 4), CellAt(row, 2), u).Ok?
    ensures var r := RowRecord(row, info, languages, media, u).value;
            var t := ProcessAutomators(CellAt(row, 3), CellAt(row, 2), u).value;
            var sw := ProcessLanguageAutomations(CellAt(row, 4), CellAt(row, 2), u).value;
            r.automators == ReplyAutomators(r.question, CellAt(row, 2), CellAt(row, 3), t, u)
                            + (if sw.Some? then [sw.value] else [])
  {
  }

  /** The reply automators: the reply, then for English rows the copy
      answering contacts of any language. */
  lemma ReplyOrder(question: string, language: Cell, keywords: Cell, t: seq<Trigger>, u: Foreign)
    requires ProcessAutomators(keywords, language, u) == Ok(t)
    ensures var a := ReplyAutomators(question, language, keywords, t, u);
            var english := t != [] && language == Str(ENGLISH);
            |a| == (if t != [] then 1 else 0) + (if english then 1 else 0)
            && (t != [] ==> a[0] == MakeAutomator(ReplaceAll(question, "_", "-"), [Reply], t))
            && (english ==>
                  a[1] == MakeAutomator(ReplaceAll(ReplaceAll(question, "_", "-"), ENGLISH, "null-language"), [Reply],
                                        ProcessAutomators(keywords, Str(NO_LANG), u).value))
  {
    if t != [] && language == Str(ENGLISH) {
      AutomatorsNoLanguage(keywords, ENGLISH, u);
    }
  }

  /** The answer is the content after the country's replacements. For any
      row but the language menu nothing else happens to it; the menu's third
      paragraph becomes the country's languages, one per line, and only its
      first four paragraphs are kept. */
  lemma RecordAnswer(row: Row, info: SheetInfo, languages: map<Cell, seq<string>>,
                     media: map<string, Media>, u: Foreign)
    requires RowRecord(row, info, languages, media, u).Ok?
    ensures CellAt(row, 1).Str? && info.country in languages
    ensures var r := RowRecord(row, info, languages, media, u).value;
            r.question != LANGUAGE_MENU ==> r.answer == ApplyReplacements(CellAt(row, 1).s, info.replace)
    ensures var r := RowRecord(row, info, languages, media, u).value;
            var parts := Split(ApplyReplacements(CellAt(row, 1).s, info.replace), PARAGRAPH);
            r.question == LANGUAGE_MENU ==>
              |parts| >= 4 && r.answer == Join(parts[..4][2 := Join(languages[info.country], "\n")], PARAGRAPH)
  {
    var r := RowRecord(row, info, languages, media, u).value;
    if r.question == LANGUAGE_MENU {
      var replaced := ApplyReplacements(CellAt(row, 1).s, info.replace);
      assert ReplaceContentLanguages(Str(LANGUAGE_MENU), replaced, languages[info.country]) == Ok(r.answer);
      LanguagesSplice(replaced, languages[info.country]);
    }
  }

  /** The only way a row raises KeyError is a country without a language
      list, which an ImportInfo entry never has. */
  lemma RecordKeyError(row: Row, info: SheetInfo, languages: map<Cell, seq<string>>,
                       media: map<string, Media>, u: Foreign)
    requires info.country in languages
    ensures !(RowRecord(row, info, languages, media, u).Err? && RowRecord(row, info, languages, media, u).error.KeyError?)
  {
  }

  // ---------------------------------------------------------------------
  // a sheet's records

  /** The rows with truthy content, in order. */
  function ContentRows(rows: seq<Row>): seq<Row> {
    if rows == [] then []
    else
      var last := rows[|rows| - 1];
      ContentRows(rows[..|rows| - 1]) + (if Truthy(CellAt(last, 1)) then [last] else [])
  }

  /** The record maker of one ImportInfo entry. */
  function RecordMaker(info: SheetInfo, languages: map<Cell, seq<string>>,
                       media: map<string, Media>, u: Foreign): Row -> Result<Record, Crash>
  {
    row => RowRecord(row, info, languages, media, u)
  }

  /** The records of a sheet's data rows, stopping at the first row that raises. */
  function SheetRecords(rows: seq<Row>, make: Row -> Result<Record, Crash>): Result<seq<Record>, Crash>
  {
    if rows == [] then Ok([])
    else
      match SheetRecords(rows[..|rows| - 1], make)
      case Err(e) => Err(e)
      case Ok(rs) =>
        var last := rows[|rows| - 1];
        if !Truthy(CellAt(last, 1)) then Ok(rs)
        else
          match make(last)
          case Err(e) => Err(e)
          case Ok(r) => Ok(rs + [r])
  }

  /** A sheet yields one record per content row, in row order, exactly when
      no content row raises. */
  lemma {:induction false} SheetRecordsSpec(rows: seq<Row>, make: Row -> Result<Record, Crash>)
    ensures var c := ContentRows(rows);
            var r := SheetRecords(rows, make);
            (r.Ok? <==> forall i :: 0 <= i < |c| ==> make(c[i]).Ok?)
            && (r.Ok? ==> |r.value| == |c| && forall i :: 0 <= i < |c| ==> r.value[i] == make(c[i]).value)
  {
    if rows != [] {
      var p := rows[..|rows| - 1];
      var last := rows[|rows| - 1];
      SheetRecordsSpec(p, make);
      var cp := ContentRows(p);
      var c := ContentRows(rows);
      var rp := SheetRecords(p, make);
      if Truthy(CellAt(last, 1)) {
        assert c == cp + [last];
        assert forall i :: 0 <= i < |cp| ==> c[i] == cp[i];
        assert c[|cp|] == last;
        if rp.Err? {
          assert SheetRecords(rows, make) == rp;
          var i :| 0 <= i < |cp| && !make(cp[i]).Ok?;
          assert !make(c[i]).Ok?;
        } else if make(last).Err? {
          assert SheetRecords(rows, make).Err?;
        } else {
          assert SheetRecords(rows, make) == Ok(rp.value + [make(last).value]);
        }
      } else {
        assert c == cp + [];
        assert cp + [] == cp;
        assert SheetRecords(rows, make) == rp;
        if rp.Err? {
          var i :| 0 <= i < |cp| && !make(cp[i]).Ok?;
          assert |c| == |cp|;
          assert !make(c[i]).Ok?;
          assert SheetRecords(rows, make).Err?;
          assert !(forall i :: 0 <= i < |c| ==> make(c[i]).Ok?);
          assert (SheetRecords(rows, make).Ok? <==> forall i :: 0 <= i < |ContentRows(rows)| ==> make(ContentRows(rows)[i]).Ok?);
        } else {
          forall i | 0 <= i < |c| ensures make(c[i]).Ok? && rp.value[i] == make(c[i]).value {
            assert c[i] == cp[i];
          }
        }
      }
    }
  }

  /** Once a prefix of the rows raises, the whole sheet raises the same. */
  lemma {:induction false} SheetRecordsErr(rows: seq<Row>, j: nat, make: Row -> Result<Record, Crash>)
    requires j <= |rows| && SheetRecords(rows[..j], make).Err?
    ensures SheetRecords(rows, make) == SheetRecords(rows[..j], make)
    decreases |rows| - j
  {
    if j < |rows| {
      var p := rows[..|rows| - 1];
      assert p[..j] == rows[..j];
      SheetRecordsErr(p, j, make);
    } else {
      assert rows[..j] == rows;
    }
  }

  // ---------------------------------------------------------------------
  // the output files

  /** `f"content_{country}_{number_type}.json"`. */
  function FileName(info: SheetInfo): string {
    "content_" + CellStr(info.country) + "_" + CellStr(info.numberType) + ".json"
  }

  /** `wb[sheet_name]`: a sheet title that names no sheet raises KeyError. */
  function SheetOf(wb: seq<Sheet>, info: SheetInfo): Result<Sheet, Crash> {
    match info.sheetName
    case Str(t) =>
      (match FindSheet(wb, t)
       case None => Err(MissingSheet(t))
       case Some(i) => Ok(wb[i]))
    case _ => Err(MissingSheet(CellStr(info.sheetName)))
  }

  /** The records one ImportInfo entry contributes: those of its sheet's
      content rows, or the exception looking up the sheet or building a
      record raises. */
  function EntryRecords(wb: seq<Sheet>, info: SheetInfo, languages: map<Cell, seq<string>>,
                        media: map<string, Media>, u: Foreign): Result<seq<Record>, Crash>
  {
    match SheetOf(wb, info)
    case Err(e) => Err(e)
    case Ok(ws) => SheetRecords(ws.rows, RecordMaker(info, languages, media, u))
  }

  /** `wb[sheet_name]` gives the first sheet titled by the entry's sheet name,
      and raises a KeyError for it exactly when no sheet has that title. */
  lemma SheetOfSpec(wb: seq<Sheet>, info: SheetInfo)
    ensures SheetOf(wb, info).Ok? <==>
      info.sheetName.Str? && exists i :: 0 <= i < |wb| && wb[i].title == info.sheetName.s
    ensures SheetOf(wb, info).Ok? ==>
      exists i :: 0 <= i < |wb| && wb[i] == SheetOf(wb, info).value && wb[i].title == info.sheetName.s
        && forall j :: 0 <= j < i ==> wb[j].title != info.sheetName.s
    ensures SheetOf(wb, info).Err? ==> SheetOf(wb, info).error == MissingSheet(CellStr(info.sheetName))
  {
  }

  /** Entries for the same country and number type share one output file,
      whose name begins with "content_" and ends with ".json". */
  lemma FileNameShared(a: SheetInfo, b: SheetInfo)
    requires a.country == b.country && a.numberType == b.numberType
    ensures FileName(a) == FileName(b)
    ensures "content_" <= FileName(a) && FileName(a)[|FileName(a)| - 5..] == ".json"
  {
  }

  /** The records file `f` holds: `number_data.get(f, [])`. */
  function FileOf(out: Output, f: string): seq<Record> {
    match Find(out, f)
    case None => []
    case Some(i) => out[i].1
  }

  /** `if d not in number_data: number_data[d] = []`. */
  function Touch(out: Output, d: string): (r: Output)
    ensures Keys(r) == AddAbsent(Keys(out), d) && d in Keys(r)
    ensures forall i :: 0 <= i < |out| ==> r[i] == out[i]
    ensures d !in Keys(out) ==> r == out + [(d, [])]
  {
    if d in Keys(out) then out
    else
      var r := out + [(d, [])];
      assert Keys(r) == Keys(out) + [d];
      r
  }

  /** Appends records to file `d`'s list. */
  function AppendAt(out: Output, d: string, recs: seq<Record>): (r: Output)
    requires d in Keys(out)
    ensures Keys(r) == Keys(out)
    ensures var i := Find(out, d).value;
            |r| == |out| && r[i] == (d, out[i].1 + recs)
            && forall j :: 0 <= j < |out| && j != i ==> r[j] == out[j]
  {
    var i := Find(out, d).value;
    out[i := (d, out[i].1 + recs)]
  }

  /** `Find` looks only at the keys. */
  lemma {:induction false} FindKeys<V>(a: Entries<V>, b: Entries<V>, k: string)
    requires Keys(a) == Keys(b)
    ensures Find(a, k) == Find(b, k)
  {
    if a != [] {
      assert a[|a| - 1].0 == Keys(a)[|a| - 1] == Keys(b)[|b| - 1] == b[|b| - 1].0;
      var pa, pb := a[..|a| - 1], b[..|b| - 1];
      assert Keys(pa) == Keys(a)[..|a| - 1] == Keys(b)[..|b| - 1] == Keys(pb);
      FindKeys(pa, pb, k);
    }
  }

  /** Creating a file changes no file's records; a new file holds none. */
  lemma TouchFiles(out: Output, d: string, f: string)
    ensures FileOf(Touch(out, d), f) == FileOf(out, f)
  {
    if d !in Keys(out) {
      var r := Touch(out, d);
      assert r[..|r| - 1] == out;
    }
  }

  /** Appending to file `d` extends exactly `d`'s records. */
  lemma AppendAtFiles(out: Output, d: string, recs: seq<Record>, f: string)
    requires d in Keys(out)
    ensures FileOf(AppendAt(out, d, recs), f) == if f == d then FileOf(out, f) + recs else FileOf(out, f)
  {
    var r := AppendAt(out, d, recs);
    FindKeys(r, out, f);
  }

  lemma ExportAdvance(wb: seq<Sheet>, sheets: Entries<SheetInfo>, k: nat, languages: map<Cell, seq<string>>,
                      media: map<string, Media>, u: Foreign, out: Output, res: Result<Output, Crash>)
    requires k < |sheets| && FoldEntries(sheets[..k], ExportStepper(wb, languages, media, u)) == Ok(out)
    requires res == ExportStep(wb, out, sheets[k].1, languages, media, u)
    ensures res.Err? ==> ExportEntries(wb, sheets, languages, media, u) == res
    ensures res.Ok? ==> FoldEntries(sheets[..k + 1], ExportStepper(wb, languages, media, u)) == res
  {
    var step := ExportStepper(wb, languages, media, u);
    assert step(out, sheets[k].1) == res;
    FoldEntriesAdvance(sheets, k, step, out, res);
  }

  /** One entry of the outer loop: its file is created if new, its sheet
      looked up and its records appended to the file. */
  function ExportStep(wb: seq<Sheet>, out: Output, info: SheetInfo, languages: map<Cell, seq<string>>,
                      media: map<string, Media>, u: Foreign): (r: Result<Output, Crash>)
    ensures r.Ok? ==> Keys(r.value) == AddAbsent(Keys(out), FileName(info))
    ensures r.Ok? <==> EntryRecords(wb, info, languages, media, u).Ok?
    ensures r.Ok? ==> r.value == AppendAt(Touch(out, FileName(info)), FileName(info),
                                          EntryRecords(wb, info, languages, media, u).value)
    ensures r.Err? ==> r.error == EntryRecords(wb, info, languages, media, u).error
  {
    var d := FileName(info);
    var touched := Touch(out, d);
    match SheetOf(wb, info)
    case Err(e) => Err(e)
    case Ok(ws) =>
      match SheetRecords(ws.rows, RecordMaker(info, languages, media, u))
      case Err(e) => Err(e)
      case Ok(recs) => Ok(AppendAt(touched, d, recs))
  }

  /** `for sheet in sheets`: the step on every entry in order, from an empty
      output; the first exception ends the loop. */
  function FoldEntries(entries: Entries<SheetInfo>, step: (Output, SheetInfo) -> Result<Output, Crash>)
    : Result<Output, Crash>
  {
    if entries == [] then Ok([])
    else
      match FoldEntries(entries[..|entries| - 1], step)
      case Err(e) => Err(e)
      case Ok(out) => step(out, entries[|entries| - 1].1)
  }

  /** The outer loop's bookkeeping for entry `k`, given what its step made:
      a raising step ends the loop with its exception, otherwise its output
      is what the first `k + 1` entries leave. */
  lemma FoldEntriesAdvance(entries: Entries<SheetInfo>, k: nat, step: (Output, SheetInfo) -> Result<Output, Crash>,
                           out: Output, res: Result<Output, Crash>)
    requires k < |entries| && FoldEntries(entries[..k], step) == Ok(out)
    requires res == step(out, entries[k].1)
    ensures res.Err? ==> FoldEntries(entries, step) == res
    ensures res.Ok? ==> FoldEntries(entries[..k + 1], step) == res
  {
    assert entries[..k + 1][..k] == entries[..k];
    if res.Err? {
      FoldEntriesErr(entries, k + 1, step);
    }
  }

  lemma {:induction false} FoldEntriesErr(entries: Entries<SheetInfo>, j: nat, step: (Output, SheetInfo) -> Result<Output, Crash>)
    requires j <= |entries| && FoldEntries(entries[..j], step).Err?
    ensures FoldEntries(entries, step) == FoldEntries(entries[..j], step)
    decreases |entries| - j
  {
    if j < |entries| {
      var p := entries[..|entries| - 1];
      assert p[..j] == entries[..j];
      FoldEntriesErr(p, j, step);
    } else {
      assert entries[..j] == entries;
    }
  }

  function ExportStepper(wb: seq<Sheet>, languages: map<Cell, seq<string>>, media: map<string, Media>, u: Foreign)
    : (Output, SheetInfo) -> Result<Output, Crash>
  {
    (out, info) => ExportStep(wb, out, info, languages, media, u)
  }

  /** The records of all entries, each sheet's records appended to its file. */
  function ExportEntries(wb: seq<Sheet>, entries: Entries<SheetInfo>, languages: map<Cell, seq<string>>,
                         media: map<string, Media>, u: Foreign): Result<Output, Crash>
  {
    FoldEntries(entries, ExportStepper(wb, languages, media, u))
  }

  /** The file names of the entries, one per entry, in order. */
  function FileNames(entries: Entries<SheetInfo>): seq<string> {
    if entries == [] then []
    else FileNames(entries[..|entries| - 1]) + [FileName(entries[|entries| - 1].1)]
  }

  /** There is one output file per distinct file name, in the order the
      names first occur. */
  lemma {:induction false} ExportFiles(wb: seq<Sheet>, entries: Entries<SheetInfo>,
                                       languages: map<Cell, seq<string>>, media: map<string, Media>, u: Foreign)
    requires ExportEntries(wb, entries, languages, media, u).Ok?
    ensures Keys(ExportEntries(wb, entries, languages, media, u).value) == Dedup(FileNames(entries))
    ensures NoDuplicates(Keys(ExportEntries(wb, entries, languages, media, u).value))
  {
    DedupSpec(FileNames(entries));
    if entries != [] {
      var step := ExportStepper(wb, languages, media, u);
      var p := entries[..|entries| - 1];
      var info := entries[|entries| - 1].1;
      ExportFiles(wb, p, languages, media, u);
      var out := FoldEntries(p, step).value;
      assert step(out, info) == ExportStep(wb, out, info, languages, media, u);
      AddAbsentDedup(FileNames(p), FileName(info));
    }
  }

  /** The records of the entries whose file name is `f`, in entry order;
      an entry that raises contributes none (a completed export has none). */
  function Grouped(wb: seq<Sheet>, entries: Entries<SheetInfo>, languages: map<Cell, seq<string>>,
                   media: map<string, Media>, u: Foreign, f: string): seq<Record>
  {
    if entries == [] then []
    else
      var info := entries[|entries| - 1].1;
      var own := EntryRecords(wb, info, languages, media, u);
      Grouped(wb, entries[..|entries| - 1], languages, media, u, f)
        + (if FileName(info) == f && own.Ok? then own.value else [])
  }

  /** After a completed export, file `f` holds the records of every entry
      whose file name is `f`, sheet after sheet in entry order, and a name no
      entry gives holds nothing. */
  lemma {:induction false} ExportContents(wb: seq<Sheet>, entries: Entries<SheetInfo>,
                                          languages: map<Cell, seq<string>>, media: map<string, Media>,
                                          u: Foreign, f: string)
    requires ExportEntries(wb, entries, languages, media, u).Ok?
    ensures FileOf(ExportEntries(wb, entries, languages, media, u).value, f)
              == Grouped(wb, entries, languages, media, u, f)
  {
    if entries != [] {
      var step := ExportStepper(wb, languages, media, u);
      var p := entries[..|entries| - 1];
      var info := entries[|entries| - 1].1;
      var out := FoldEntries(p, step).value;
      ExportContents(wb, p, languages, media, u, f);
      assert step(out, info) == ExportStep(wb, out, info, languages, media, u);
      var d := FileName(info);
      TouchFiles(out, d, f);
      AppendAtFiles(Touch(out, d), d, EntryRecords(wb, info, languages, media, u).value, f);
    }
  }

  /** The whole conversion: the ImportInfo sheet must exist; its rows, the
      heading row included, give the entries and language lists. */
  function ConvertWorkbook(wb: seq<Sheet>, media: map<string, Media>, u: Foreign): Result<Output, Crash> {
    match FindSheet(wb, IMPORT_INFO)
    case None => Err(MissingSheet(IMPORT_INFO))
    case Some(i) =>
      var rows := [wb[i].header] + wb[i].rows;
      ExportEntries(wb, BuildSheets(rows, u), BuildLanguages(rows, u), media, u)
  }

  const IMPORT_INFO: string := "ImportInfo"

  /** Without an ImportInfo sheet the conversion raises a KeyError for it;
      with one, a conversion that completes has one output file per distinct
      file name of the ImportInfo entries, in the order they first occur. */
  lemma ConvertSpec(wb: seq<Sheet>, media: map<string, Media>, u: Foreign)
    ensures (forall i :: 0 <= i < |wb| ==> wb[i].title != IMPORT_INFO) ==>
      ConvertWorkbook(wb, media, u) == Err(MissingSheet(IMPORT_INFO))
    ensures ConvertWorkbook(wb, media, u).Ok? ==>
      exists i :: 0 <= i < |wb| && wb[i].title == IMPORT_INFO
        && Keys(ConvertWorkbook(wb, media, u).value) == Dedup(FileNames(BuildSheets([wb[i].header] + wb[i].rows, u)))
  {
    if ConvertWorkbook(wb, media, u).Ok? {
      var i := FindSheet(wb, IMPORT_INFO).value;
      var rows := [wb[i].header] + wb[i].rows;
      ExportFiles(wb, BuildSheets(rows, u), BuildLanguages(rows, u), media, u);
    }
  }

  /** A completed conversion gives file `f` the records of the ImportInfo
      entries named `f`, in entry order. */
  lemma ConvertContents(wb: seq<Sheet>, media: map<string, Media>, u: Foreign, f: string)
    requires ConvertWorkbook(wb, media, u).Ok?
    ensures FindSheet(wb, IMPORT_INFO).Some?
    ensures var ws := wb[FindSheet(wb, IMPORT_INFO).value];
            var rows := [ws.header] + ws.rows;
            FileOf(ConvertWorkbook(wb, media, u).value, f)
              == Grouped(wb, BuildSheets(rows, u), BuildLanguages(rows, u), media, u, f)
  {
    var ws := wb[FindSheet(wb, IMPORT_INFO).value];
    var rows := [ws.header] + ws.rows;
    ExportContents(wb, BuildSheets(rows, u), BuildLanguages(rows, u), media, u, f);
  }

  /** The exporter run on a loaded workbook and fetched media: the ImportInfo
      loop and then the nested loop over entries and rows filling
      `number_data`. */
  method Convert(wb: seq<Sheet>, media: map<string, Media>, u: Foreign) returns (r: Result<Output, Crash>)
    ensures r == ConvertWorkbook(wb, media, u)
  {
    var found := FindSheet(wb, IMPORT_INFO);
    if found.None? {
      return Err(MissingSheet(IMPORT_INFO));
    }
    var ws := wb[found.value];
    var rows := [ws.header] + ws.rows;
    var sheets, allLanguages, uniqLanguages := ReadImportInfo(rows, u);
    r := ExportAll(wb, sheets, allLanguages, media, u);
  }

  /** The outer loop over the ImportInfo entries. */
  method ExportAll(wb: seq<Sheet>, sheets: Entries<SheetInfo>, allLanguages: map<Cell, seq<string>>,
                   media: map<string, Media>, u: Foreign) returns (r: Result<Output, Crash>)
    ensures r == ExportEntries(wb, sheets, allLanguages, media, u)
  {
    ghost var step := ExportStepper(wb, allLanguages, media, u);
    var numberData: Output := [];
    var k := 0;
    while k < |sheets|
      invariant 0 <= k <= |sheets|
      invariant FoldEntries(sheets[..k], step) == Ok(numberData)
    {
      r := ExportSheet(wb, numberData, sheets[k].1, allLanguages, media, u);
      ExportAdvance(wb, sheets, k, allLanguages, media, u, numberData, r);
      if r.Err? {
        return r;
      }
      numberData := r.value;
      k := k + 1;
    }
    assert sheets[..|sheets|] == sheets;
    r := Ok(numberData);
  }

  /** One entry of the outer loop: its file is created if new, then its
      sheet's records are appended to it. */
  method ExportSheet(wb: seq<Sheet>, numberData: Output, info: SheetInfo, allLanguages: map<Cell, seq<string>>,
                     media: map<string, Media>, u: Foreign) returns (r: Result<Output, Crash>)
    ensures r == ExportStep(wb, numberData, info, allLanguages, media, u)
  {
    var desc := FileName(info);
    var make := RecordMaker(info, allLanguages, media, u);
    var touched := Touch(numberData, desc);
    var sheet := SheetOf(wb, info);
    if sheet.Err? {
      return Err(sheet.error);
    }
    var out;
    out, r := SheetRows(sheet.value.rows, make, touched, desc);
  }

  /** The inner loop: each content row's record appended to file `desc`'s list. */
  method SheetRows(rows: seq<Row>, make: Row -> Result<Record, Crash>, numberData: Output, desc: string)
    returns (out: Output, r: Result<Output, Crash>)
    requires desc in Keys(numberData)
    ensures match SheetRecords(rows, make)
            case Err(e) => r == Err(e)
            case Ok(recs) => r == Ok(out) && out == AppendAt(numberData, desc, recs)
  {
    var idx := Find(numberData, desc).value;
    out := numberData;
    ghost var recs: seq<Record> := [];
    assert numberData[idx].1 + recs == numberData[idx].1;
    assert numberData[idx := (desc, numberData[idx].1)] == numberData;
    var j := 0;
    while j < |rows|
      invariant 0 <= j <= |rows|
      invariant SheetRecords(rows[..j], make) == Ok(recs)
      invariant out == numberData[idx := (desc, numberData[idx].1 + recs)]
    {
      assert rows[..j + 1][..j] == rows[..j];
      var row := rows[j];
      if Truthy(CellAt(row, 1)) {
        var rec := make(row);
        if rec.Err? {
          SheetRecordsErr(rows, j + 1, make);
          return out, Err(rec.error);
        }
        out := out[idx := (desc, out[idx].1 + [rec.value])];
        assert numberData[idx].1 + recs + [rec.value] == numberData[idx].1 + (recs + [rec.value]);
        recs := recs + [rec.value];
      }
      j := j + 1;
    }
    assert rows[..|rows|] == rows;
    r := Ok(out);
  }
}
