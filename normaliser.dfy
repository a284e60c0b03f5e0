/** The `__main__` block of process_sheet.py: the six passes over the
    workbook in order, the error log `error()` keeps, and the decision to save. */
module Normaliser {
  import opened Wrappers
  import opened Unicode
  import opened Sheets
  import LanguageFill
  import TitleClean
  import KeywordClean
  import EnglishMaster
  import EnglishKeywords
  import ContentChecks

  /** A pass over the workbook; the two English passes carry the map they
      read from the English master before the loop. */
  datatype Pass =
    | CleanLanguage
    | CleanContentTitle
    | CleanKeywords
    | AddEnglishKeywords(keywords: map<string, seq<string>>, master: Sheet)
    | CheckContentLength
    | AddMissingContent(content: map<string, Cell>)

  /** A pass on one sheet, with the sheet's columns looked up by header. */
  function OnSheet(p: Pass, s: Sheet, u: Foreign): Result<(Sheet, seq<Error>), Crash> {
    var cols := ResolveColumns(s, u);
    match p
    case CleanLanguage => LanguageFill.LanguageSheet(s, cols, u)
    case CleanContentTitle => TitleClean.TitleSheet(s, cols, u)
    case CleanKeywords => KeywordClean.KeywordsSheet(s, cols, u)
    case AddEnglishKeywords(eng, master) => EnglishKeywords.EnglishSheet(s, cols, eng, master, u)
    case CheckContentLength => ContentChecks.LengthSheet(s, cols, u)
    case AddMissingContent(eng) => ContentChecks.FillSheet(s, cols, eng, u)
  }

  function Sheeter(p: Pass, u: Foreign): Sheet -> Result<(Sheet, seq<Error>), Crash> {
    s => OnSheet(p, s, u)
  }

  /** Runs the row loop of a pass on one sheet. */
  method RunOnSheet(p: Pass, s: Sheet, u: Foreign) returns (r: Result<(Sheet, seq<Error>), Crash>)
    ensures r == OnSheet(p, s, u)
  {
    var cols := ResolveColumns(s, u);
    match p
    case CleanLanguage => r := LanguageFill.FillLanguage(s, cols, u);
    case CleanContentTitle => r := TitleClean.CleanTitles(s, cols, u);
    case CleanKeywords => r := KeywordClean.CleanKeywords(s, cols, u);
    case AddEnglishKeywords(eng, master) => r := EnglishKeywords.AddEnglishKeywords(s, cols, eng, master, u);
    case CheckContentLength => r := ContentChecks.CheckContentLength(s, cols, u);
    case AddMissingContent(eng) => r := ContentChecks.AddMissingContent(s, cols, eng, u);
  }

  /** `get_keywords(workbook["English master"])`: a workbook without that
      sheet raises before any sheet is visited. */
  function EnglishKeywordsPass(sheets: seq<Sheet>, u: Foreign): Result<Pass, Crash> {
    match FindSheet(sheets, ENGLISH_MASTER)
    case None => Err(MissingSheet(ENGLISH_MASTER))
    case Some(i) =>
      var master := sheets[i];
      match EnglishMaster.GetKeywords(master, ResolveColumns(master, u))
      case Err(e) => Err(e)
      case Ok(m) => Ok(AddEnglishKeywords(m, master))
  }

  /** `get_content(workbook["English master"])`. */
  function MissingContentPass(sheets: seq<Sheet>, u: Foreign): Result<Pass, Crash> {
    match FindSheet(sheets, ENGLISH_MASTER)
    case None => Err(MissingSheet(ENGLISH_MASTER))
    case Some(i) =>
      var master := sheets[i];
      match EnglishMaster.GetContent(master, ResolveColumns(master, u))
      case Err(e) => Err(e)
      case Ok(m) => Ok(AddMissingContent(m))
  }

  /** The `k`-th pass of `__main__`, prepared on the workbook as it stands then. */
  function PassOf(k: nat, sheets: seq<Sheet>, u: Foreign): Result<Pass, Crash> {
    if k == 0 then Ok(CleanLanguage)
    else if k == 1 then Ok(CleanContentTitle)
    else if k == 2 then Ok(CleanKeywords)
    else if k == 3 then EnglishKeywordsPass(sheets, u)
    else if k == 4 then Ok(CheckContentLength)
    else MissingContentPass(sheets, u)
  }

  const PASSES: nat := 6

  /** One pass over all sheets: the new sheets and the errors it logged. */
  function RunPass(sheets: seq<Sheet>, p: Result<Pass, Crash>, u: Foreign): Result<(seq<Sheet>, seq<Error>), Crash> {
    match p
    case Err(e) => Err(e)
    case Ok(p) => MapSheets(sheets, Sheeter(p, u))
  }

  /** A pass over all sheets, by its position in `__main__`. */
  type Runner = (seq<Sheet>, nat) -> Result<(seq<Sheet>, seq<Error>), Crash>

  function MainPasses(u: Foreign): Runner {
    (sheets: seq<Sheet>, k: nat) => RunPass(sheets, PassOf(k, sheets, u), u)
  }

  /** Passes `k` onwards, the log extended by each pass in turn; the first
      exception ends the run. */
  function RunFrom(sheets: seq<Sheet>, log: seq<Error>, k: nat, run: Runner): Result<(seq<Sheet>, seq<Error>), Crash>
    decreases PASSES - k
  {
    if k >= PASSES then Ok((sheets, log))
    else
      match run(sheets, k)
      case Err(e) => Err(e)
      case Ok((next, es)) => RunFrom(next, log + es, k + 1, run)
  }

  /** The six passes from a fresh log. */
  function Normalise(sheets: seq<Sheet>, u: Foreign): Result<(seq<Sheet>, seq<Error>), Crash> {
    RunFrom(sheets, [], 0, MainPasses(u))
  }

  /** How a run ends: saved, refused because errors were logged, or an exception. */
  datatype Outcome = Saved | NotSaved | Crashed(crash: Crash)

  /** How the run on a workbook ends. */
  function Decide(sheets: seq<Sheet>, u: Foreign): Outcome {
    match Normalise(sheets, u)
    case Err(e) => Crashed(e)
    case Ok((_, log)) => if log == [] then Saved else NotSaved
  }

  /** The state after a workbook-level step: a pass that completes replaces
      the sheets and extends the log; one that raises leaves both. */
  predicate Applied(res: Result<(seq<Sheet>, seq<Error>), Crash>, r: Result<(), Crash>,
                    oldSheets: seq<Sheet>, oldLog: seq<Error>, sheets: seq<Sheet>, log: seq<Error>)
  {
    match res
    case Err(e) => r == Err(e) && sheets == oldSheets && log == oldLog
    case Ok((next, es)) => r == Ok(()) && sheets == next && log == oldLog + es
  }

  /** The loop over the sheets of one pass, on the sheets as they were
      when the pass began. */
  method PassLoop(input: seq<Sheet>, p: Pass, u: Foreign) returns (res: Result<(seq<Sheet>, seq<Error>), Crash>)
    ensures res == MapSheets(input, Sheeter(p, u))
  {
    ghost var f := Sheeter(p, u);
    var done: seq<Sheet> := [];
    var errs: seq<Error> := [];
    var i := 0;
    while i < |input|
      invariant 0 <= i <= |input|
      invariant MapSheets(input[..i], f) == Ok((done, errs))
    {
      var one := RunOnSheet(p, input[i], u);
      assert f(input[i]) == one;
      MapSheetsAdvance(input, i, f, done, errs, one);
      if one.Err? {
        return Err(one.error);
      }
      done := done + [one.value.0];
      errs := errs + one.value.1;
      i := i + 1;
    }
    assert input[..i] == input;
    res := Ok((done, errs));
  }

  class Workbook {
    var sheets: seq<Sheet>
    /** The messages `error()` printed, in order; `is_error` is `log != []`. */
    var log: seq<Error>
    const u: Foreign

    constructor (sheets: seq<Sheet>, u: Foreign)
      ensures this.sheets == sheets && log == [] && this.u == u
    {
      this.sheets := sheets;
      this.log := [];
      this.u := u;
    }

    /** `for sheet in workbook:` the pass on each sheet in order. */
    method Run(p: Pass) returns (r: Result<(), Crash>)
      modifies this
      ensures Applied(RunPass(old(sheets), Ok(p), u), r, old(sheets), old(log), sheets, log)
    {
      var res := PassLoop(sheets, p, u);
      if res.Err? {
        return Err(res.error);
      }
      sheets := res.value.0;
      log := log + res.value.1;
      r := Ok(());
    }

    /** `clean_language(workbook)` */
    method CleanLanguage() returns (r: Result<(), Crash>)
      modifies this
      ensures Applied(RunPass(old(sheets), PassOf(0, old(sheets), u), u), r, old(sheets), old(log), sheets, log)
    {
      r := Run(Pass.CleanLanguage);
    }

    /** `clean_content_title(workbook)` */
    method CleanContentTitle() returns (r: Result<(), Crash>)
      modifies this
      ensures Applied(RunPass(old(sheets), PassOf(1, old(sheets), u), u), r, old(sheets), old(log), sheets, log)
    {
      r := Run(Pass.CleanContentTitle);
    }

    /** `clean_keywords(workbook)` */
    method CleanKeywords() returns (r: Result<(), Crash>)
      modifies this
      ensures Applied(RunPass(old(sheets), PassOf(2, old(sheets), u), u), r, old(sheets), old(log), sheets, log)
    {
      r := Run(Pass.CleanKeywords);
    }

    /** `add_english_keywords(workbook)` */
    method AddEnglishKeywords() returns (r: Result<(), Crash>)
      modifies this
      ensures Applied(RunPass(old(sheets), PassOf(3, old(sheets), u), u), r, old(sheets), old(log), sheets, log)
    {
      assert PassOf(3, sheets, u) == EnglishKeywordsPass(sheets, u);
      var i := FindSheet(sheets, ENGLISH_MASTER);
      if i.None? {
        assert EnglishKeywordsPass(sheets, u) == Err(MissingSheet(ENGLISH_MASTER));
        return Err(MissingSheet(ENGLISH_MASTER));
      }
      var master := sheets[i.value];
      var eng := EnglishMaster.GetKeywords(master, ResolveColumns(master, u));
      if eng.Err? {
        assert EnglishKeywordsPass(sheets, u) == Err(eng.error);
        return Err(eng.error);
      }
      assert EnglishKeywordsPass(sheets, u) == Ok(Pass.AddEnglishKeywords(eng.value, master));
      r := Run(Pass.AddEnglishKeywords(eng.value, master));
    }

    /** `check_content_length(workbook)` */
    method CheckContentLength() returns (r: Result<(), Crash>)
      modifies this
      ensures Applied(RunPass(old(sheets), PassOf(4, old(sheets), u), u), r, old(sheets), old(log), sheets, log)
    {
      r := Run(Pass.CheckContentLength);
    }

    /** `add_missing_content(workbook)` */
    method AddMissingContent() returns (r: Result<(), Crash>)
      modifies this
      ensures Applied(RunPass(old(sheets), PassOf(5, old(sheets), u), u), r, old(sheets), old(log), sheets, log)
    {
      assert PassOf(5, sheets, u) == MissingContentPass(sheets, u);
      var i := FindSheet(sheets, ENGLISH_MASTER);
      if i.None? {
        assert MissingContentPass(sheets, u) == Err(MissingSheet(ENGLISH_MASTER));
        return Err(MissingSheet(ENGLISH_MASTER));
      }
      var master := sheets[i.value];
      var eng := EnglishMaster.GetContent(master, ResolveColumns(master, u));
      if eng.Err? {
        assert MissingContentPass(sheets, u) == Err(eng.error);
        return Err(eng.error);
      }
      assert MissingContentPass(sheets, u) == Ok(Pass.AddMissingContent(eng.value));
      r := Run(Pass.AddMissingContent(eng.value));
    }

    /** `__main__` on a freshly loaded workbook: the six passes, then the
        workbook is saved exactly when no pass raised and nothing was logged. */
    method Process() returns (outcome: Outcome)
      requires log == []
      modifies this
      ensures outcome == Decide(old(sheets), u)
      ensures outcome == Saved <==> Normalise(old(sheets), u).Ok? && log == []
      ensures Normalise(old(sheets), u).Ok? ==> sheets == Normalise(old(sheets), u).value.0 && log == Normalise(old(sheets), u).value.1
    {
      ghost var s0 := sheets;
      var r := CleanLanguage();
      if r.Err? { return Crashed(r.error); }
      ghost var s1 := sheets;
      ghost var l1 := log;
      r := CleanContentTitle();
      if r.Err? { CrashFrom(s1, l1, 1, MainPasses(u)); return Crashed(r.error); }
      ghost var s2 := sheets;
      ghost var l2 := log;
      r := CleanKeywords();
      if r.Err? { CrashFrom(s2, l2, 2, MainPasses(u)); return Crashed(r.error); }
      ghost var s3 := sheets;
      ghost var l3 := log;
      r := AddEnglishKeywords();
      if r.Err? { CrashFrom(s3, l3, 3, MainPasses(u)); return Crashed(r.error); }
      ghost var s4 := sheets;
      ghost var l4 := log;
      r := CheckContentLength();
      if r.Err? { CrashFrom(s4, l4, 4, MainPasses(u)); return Crashed(r.error); }
      ghost var s5 := sheets;
      ghost var l5 := log;
      r := AddMissingContent();
      if r.Err? { CrashFrom(s5, l5, 5, MainPasses(u)); return Crashed(r.error); }
      assert RunFrom(sheets, log, 6, MainPasses(u)) == Ok((sheets, log));
      if log != [] {
        return NotSaved;
      }
      outcome := Saved;
    }
  }

  /** The log a run starts from does not decide whether a later pass raises. */
  lemma CrashFrom(sheets: seq<Sheet>, log: seq<Error>, k: nat, run: Runner)
    requires k < PASSES && run(sheets, k).Err?
    ensures RunFrom(sheets, log, k, run) == Err(run(sheets, k).error)
  {
  }

  /** The save gate: a run is saved exactly when no pass raised and the log
      is empty; with a non-empty log it is refused. */
  lemma DecideSpec(sheets: seq<Sheet>, u: Foreign)
    ensures Decide(sheets, u) == Saved <==> Normalise(sheets, u).Ok? && Normalise(sheets, u).value.1 == []
    ensures Decide(sheets, u) == NotSaved <==> Normalise(sheets, u).Ok? && Normalise(sheets, u).value.1 != []
    ensures Decide(sheets, u).Crashed? <==> Normalise(sheets, u).Err?
  {
  }

  /** Later passes only add to the log: what was logged stays logged, in order. */
  lemma {:induction false} LogGrows(sheets: seq<Sheet>, log: seq<Error>, k: nat, run: Runner)
    requires RunFrom(sheets, log, k, run).Ok?
    ensures log <= RunFrom(sheets, log, k, run).value.1
    decreases PASSES - k
  {
    if k < PASSES {
      var (next, es) := run(sheets, k).value;
      LogGrows(next, log + es, k + 1, run);
    }
  }

  /** An error logged by an earlier pass is enough to stop the save: the
      run ends refused or with an exception. */
  lemma ErrorBlocksSave(sheets: seq<Sheet>, log: seq<Error>, k: nat, u: Foreign)
    requires log != []
    ensures RunFrom(sheets, log, k, MainPasses(u)).Ok? ==> RunFrom(sheets, log, k, MainPasses(u)).value.1 != []
  {
    if RunFrom(sheets, log, k, MainPasses(u)).Ok? {
      LogGrows(sheets, log, k, MainPasses(u));
    }
  }

  /** Every pass leaves the metadata sheets alone and logs nothing for them. */
  lemma MetadataUntouched(p: Pass, s: Sheet, u: Foreign)
    requires IsSkipped(s.title, METADATA_SHEETS, u)
    ensures OnSheet(p, s, u) == Ok((s, []))
  {
    if p.AddEnglishKeywords? || p.AddMissingContent? {
      MetadataExempt(s.title, u);
      ExemptUntouched(p, s, u);
    }
  }

  /** The English passes leave every exempt sheet alone. */
  lemma ExemptUntouched(p: Pass, s: Sheet, u: Foreign)
    requires p.AddEnglishKeywords? || p.AddMissingContent?
    requires IsSkipped(s.title, EXEMPT_SHEETS, u)
    ensures OnSheet(p, s, u) == Ok((s, []))
  {
    var cols := ResolveColumns(s, u);
    match p
    case AddEnglishKeywords(eng, master) =>
      assert OnSheet(p, s, u) == EnglishKeywords.EnglishSheet(s, cols, eng, master, u);
    case AddMissingContent(eng) =>
      assert OnSheet(p, s, u) == ContentChecks.FillSheet(s, cols, eng, u);
  }

  /** The English passes are prepared only on a workbook that has the English master. */
  lemma EnglishPassFound(sheets: seq<Sheet>, u: Foreign, p: Pass)
    requires EnglishKeywordsPass(sheets, u) == Ok(p) || MissingContentPass(sheets, u) == Ok(p)
    ensures FindSheet(sheets, ENGLISH_MASTER).Some? && (p.AddEnglishKeywords? || p.AddMissingContent?)
  {
    if EnglishKeywordsPass(sheets, u) == Ok(p) {
      KeywordsPassFound(sheets, u, p);
    } else {
      ContentPassFound(sheets, u, p);
    }
  }

  lemma KeywordsPassFound(sheets: seq<Sheet>, u: Foreign, p: Pass)
    requires EnglishKeywordsPass(sheets, u) == Ok(p)
    ensures FindSheet(sheets, ENGLISH_MASTER).Some? && p.AddEnglishKeywords?
  {
  }

  lemma ContentPassFound(sheets: seq<Sheet>, u: Foreign, p: Pass)
    requires MissingContentPass(sheets, u) == Ok(p)
    ensures FindSheet(sheets, ENGLISH_MASTER).Some? && p.AddMissingContent?
  {
  }

  /** The English master is not changed by the passes that read it, so the
      map read before the loop and the fallback lookups during it see the same
      sheet. */
  lemma MasterUntouched(sheets: seq<Sheet>, u: Foreign, p: Pass)
    requires EnglishKeywordsPass(sheets, u) == Ok(p) || MissingContentPass(sheets, u) == Ok(p)
    requires MapSheets(sheets, Sheeter(p, u)).Ok?
    ensures FindSheet(sheets, ENGLISH_MASTER).Some?
    ensures var i := FindSheet(sheets, ENGLISH_MASTER).value;
      MapSheets(sheets, Sheeter(p, u)).value.0[i] == sheets[i]
  {
    EnglishPassFound(sheets, u, p);
    var i := FindSheet(sheets, ENGLISH_MASTER).value;
    MasterSkipped(p, sheets[i], u);
    MapSheetsAt(sheets, i, Sheeter(p, u));
  }

  lemma MasterSkipped(p: Pass, master: Sheet, u: Foreign)
    requires p.AddEnglishKeywords? || p.AddMissingContent?
    requires master.title == ENGLISH_MASTER
    ensures Sheeter(p, u)(master) == Ok((master, []))
  {
    EnglishMasterExempt(u);
    ExemptUntouched(p, master, u);
  }
}
