/** The exporter's reading of the ImportInfo sheet: one entry per listed
    content sheet (its title, number type, country and find/replace table),
    the languages of every country in first-seen order, and the list of all
    languages. */
module ImportTable {
  import opened Wrappers
  import opened Text
  import opened Unicode
  import opened Sheets
  import opened Substitution

  /** The value `sheets[key]` holds for a listed sheet. */
  datatype SheetInfo = SheetInfo(sheetName: Cell, numberType: Cell, country: Cell, replace: Replacements)

  /** An insertion-ordered dict from strings (a Python dict keeps a key at the
      position it was first inserted, however often it is reassigned). */
  type Entries<V> = seq<(string, V)>

  function Keys<V>(e: Entries<V>): (ks: seq<string>)
    ensures |ks| == |e| && forall i :: 0 <= i < |e| ==> ks[i] == e[i].0
  {
    seq(|e|, i requires 0 <= i < |e| => e[i].0)
  }

  /** The position of key `k`, if present. */
  function Find<V>(e: Entries<V>, k: string): (r: Option<nat>)
    ensures r.None? <==> k !in Keys(e)
    ensures r.Some? ==> r.value < |e| && e[r.value].0 == k
  {
    if e == [] then None
    else if e[|e| - 1].0 == k then Some(|e| - 1)
    else
      var p := e[..|e| - 1];
      assert Keys(e) == Keys(p) + [e[|e| - 1].0];
      Find(p, k)
  }

  /** `d[k] = v`: reassigns a present key in place, or appends a new one. */
  function Upsert<V>(e: Entries<V>, k: string, v: V): (r: Entries<V>)
    ensures Keys(r) == if k in Keys(e) then Keys(e) else Keys(e) + [k]
    ensures forall i :: 0 <= i < |r| && r[i].0 != k ==> i < |e| && r[i] == e[i]
  {
    match Find(e, k)
    case Some(i) => e[i := (k, v)]
    case None => e + [(k, v)]
  }

  /** In a dict (keys distinct) the keys stay distinct and `k` now holds `v`. */
  lemma UpsertDistinct<V>(e: Entries<V>, k: string, v: V)
    requires NoDuplicates(Keys(e))
    ensures var r := Upsert(e, k, v);
            NoDuplicates(Keys(r)) && forall i :: 0 <= i < |r| && r[i].0 == k ==> r[i].1 == v
  {
  }

  /** The three collections the ImportInfo loop fills. */
  datatype ImportInfo = ImportInfo(
    sheets: Entries<SheetInfo>,
    allLanguages: map<Cell, seq<string>>,
    uniqLanguages: seq<string>)

  // ---------------------------------------------------------------------
  // one ImportInfo row

  /** A row names a content sheet when its number type is truthy and its
      first cell is not the "Sheet" heading. */
  predicate Listed(row: Row, u: Foreign) {
    Truthy(CellAt(row, 1)) && u.lower(CellStr(CellAt(row, 0))) != "sheet"
  }

  /** The sheet title with spaces made underscores and parentheses dropped. */
  function Slug(title: string): string {
    ReplaceAll(ReplaceAll(ReplaceAll(title, " ", "_"), "(", ""), ")", "")
  }

  /** `f"{country}_{slug}_{number_type}"`. */
  function SheetKey(row: Row): string {
    CellStr(CellAt(row, 2)) + "_" + Slug(CellStr(CellAt(row, 0))) + "_" + CellStr(CellAt(row, 1))
  }

  function InfoOf(row: Row, u: Foreign): SheetInfo {
    SheetInfo(CellAt(row, 0), CellAt(row, 1), CellAt(row, 2),
              CountryReplacements(CellAt(row, 2), CellAt(row, 3), u))
  }

  /** The language a sheet holds: its title up to the first " (". */
  function LanguageOf(row: Row): string {
    Split(CellStr(CellAt(row, 0)), " (")[0]
  }

  /** On an ASCII title a row is listed exactly when its number type is
      truthy and its first cell is not "Sheet" in any mix of cases, so the
      heading row of the ImportInfo sheet is never an entry. */
  lemma ListedAscii(row: Row, u: Foreign)
    requires IsAscii(CellStr(CellAt(row, 0)))
    ensures Listed(row, u) <==> Truthy(CellAt(row, 1)) && AsciiLower(CellStr(CellAt(row, 0))) != "sheet"
  {
  }

  /** A slug has no spaces and no parentheses; every other character of the
      title is kept, and a space becomes an underscore. */
  lemma SlugSpec(title: string)
    ensures ' ' !in Slug(title) && '(' !in Slug(title) && ')' !in Slug(title)
    ensures forall x :: x in Slug(title) <==>
      x != ' ' && x != '(' && x != ')' && (x in title || (x == '_' && ' ' in title))
  {
    var a := ReplaceAll(title, " ", "_");
    ReplaceCharByChar(title, ' ', '_');
    assert forall x :: x in a <==> x != ' ' && (x in title || (x == '_' && ' ' in title)) by {
      forall x ensures x in a <==> x != ' ' && (x in title || (x == '_' && ' ' in title)) {
        if x in a {
          var i :| 0 <= i < |a| && a[i] == x;
          assert title[i] in title;
        }
        if x != ' ' && x in title {
          var i :| 0 <= i < |title| && title[i] == x;
          assert a[i] == x;
        }
        if x == '_' && ' ' in title {
          var i :| 0 <= i < |title| && title[i] == ' ';
          assert a[i] == '_';
        }
      }
    }
    ReplaceCharByNothing(a, '(');
    ReplaceCharByNothing(ReplaceAll(a, "(", ""), ')');
  }

  /** The language of a sheet is its title up to the first " (", or the whole
      title when it has none. */
  lemma LanguageOfSpec(row: Row)
    ensures var t := CellStr(CellAt(row, 0));
      LanguageOf(row) <= t && !Contains(LanguageOf(row), " (")
      && (!Contains(t, " (") ==> LanguageOf(row) == t)
      && (Contains(t, " (") ==> LanguageOf(row) + " (" <= t)
  {
    SplitFirst(CellStr(CellAt(row, 0)), " (");
  }

  /** `x` appended unless already present (`if x not in l: l.append(x)`). */
  function AddAbsent<T(==)>(l: seq<T>, x: T): seq<T> {
    if x in l then l else l + [x]
  }

  /** A row's contribution to `sheets`: its key and entry when it is listed. */
  function SheetEntry(row: Row, u: Foreign): Option<(string, SheetInfo)> {
    if Listed(row, u) then Some((SheetKey(row), InfoOf(row, u))) else None
  }

  function SheetEntries(u: Foreign): Row -> Option<(string, SheetInfo)> {
    row => SheetEntry(row, u)
  }

  /** A dict filled row by row: each row that gives a key and a value stores
      the value under the key. */
  function Collect<V>(rows: seq<Row>, f: Row -> Option<(string, V)>): Entries<V> {
    if rows == [] then []
    else
      var e := Collect(rows[..|rows| - 1], f);
      match f(rows[|rows| - 1])
      case None => e
      case Some((k, v)) => Upsert(e, k, v)
  }

  /** `sheets` after the rows: each listed row's entry stored under its key. */
  function BuildSheets(rows: seq<Row>, u: Foreign): Entries<SheetInfo> {
    Collect(rows, SheetEntries(u))
  }

  /** `all_languages` after the rows: each listed row's language added to
      its country's list unless already there. */
  function BuildLanguages(rows: seq<Row>, u: Foreign): map<Cell, seq<string>> {
    if rows == [] then map[]
    else
      var m := BuildLanguages(rows[..|rows| - 1], u);
      var last := rows[|rows| - 1];
      if Listed(last, u) then
        var c := CellAt(last, 2);
        m[c := AddAbsent(if c in m then m[c] else [], LanguageOf(last))]
      else m
  }

  lemma CollectNext<V>(rows: seq<Row>, i: nat, f: Row -> Option<(string, V)>)
    requires i < |rows|
    ensures Collect(rows[..i + 1], f)
              == match f(rows[i]) case None => Collect(rows[..i], f) case Some((k, v)) => Upsert(Collect(rows[..i], f), k, v)
  {
    assert rows[..i + 1][..i] == rows[..i];
  }

  lemma BuildUniqNext(rows: seq<Row>, i: nat, u: Foreign)
    requires i < |rows|
    ensures BuildUniq(rows[..i + 1], u)
              == if Listed(rows[i], u) then AddAbsent(BuildUniq(rows[..i], u), LanguageOf(rows[i]))
                 else BuildUniq(rows[..i], u)
  {
    assert rows[..i + 1][..i] == rows[..i];
  }

  lemma BuildLanguagesNext(rows: seq<Row>, i: nat, u: Foreign)
    requires i < |rows|
    ensures var m := BuildLanguages(rows[..i], u);
            var c := CellAt(rows[i], 2);
            BuildLanguages(rows[..i + 1], u)
              == if Listed(rows[i], u) then m[c := AddAbsent(if c in m then m[c] else [], LanguageOf(rows[i]))] else m
  {
    assert rows[..i + 1][..i] == rows[..i];
  }

  /** `uniq_languages` after the rows. */
  function BuildUniq(rows: seq<Row>, u: Foreign): seq<string> {
    if rows == [] then []
    else
      var l := BuildUniq(rows[..|rows| - 1], u);
      var last := rows[|rows| - 1];
      if Listed(last, u) then AddAbsent(l, LanguageOf(last)) else l
  }

  /** The loop over the rows, every row of the sheet in order (the heading
      row included: `Listed` is what skips it). */
  function BuildImportInfo(rows: seq<Row>, u: Foreign): ImportInfo {
    ImportInfo(BuildSheets(rows, u), BuildLanguages(rows, u), BuildUniq(rows, u))
  }

  /** The module-level loop that fills `sheets`, `all_languages` and
      `uniq_languages`. */
  method ReadImportInfo(rows: seq<Row>, u: Foreign)
    returns (sheets: Entries<SheetInfo>, allLanguages: map<Cell, seq<string>>, uniqLanguages: seq<string>)
    ensures sheets == BuildSheets(rows, u)
    ensures allLanguages == BuildLanguages(rows, u)
    ensures uniqLanguages == BuildUniq(rows, u)
  {
    sheets, allLanguages, uniqLanguages := [], map[], [];
    var i := 0;
    while i < |rows|
      invariant 0 <= i <= |rows|
      invariant ImportInfo(sheets, allLanguages, uniqLanguages) == BuildImportInfo(rows[..i], u)
    {
      BuildImportInfoNext(rows, i, u);
      sheets, allLanguages, uniqLanguages := ReadRow(rows[i], u, sheets, allLanguages, uniqLanguages);
      i := i + 1;
    }
    assert rows[..|rows|] == rows;
  }

  /** What one row adds to the three collections. */
  function ImportStep(info: ImportInfo, row: Row, u: Foreign): ImportInfo {
    var m := info.allLanguages;
    var c := CellAt(row, 2);
    if Listed(row, u) then
      ImportInfo(Upsert(info.sheets, SheetKey(row), InfoOf(row, u)),
                 m[c := AddAbsent(if c in m then m[c] else [], LanguageOf(row))],
                 AddAbsent(info.uniqLanguages, LanguageOf(row)))
    else info
  }

  lemma BuildImportInfoNext(rows: seq<Row>, i: nat, u: Foreign)
    requires i < |rows|
    ensures BuildImportInfo(rows[..i + 1], u) == ImportStep(BuildImportInfo(rows[..i], u), rows[i], u)
  {
    CollectNext(rows, i, SheetEntries(u));
    assert SheetEntries(u)(rows[i]) == SheetEntry(rows[i], u);
    BuildLanguagesNext(rows, i, u);
    BuildUniqNext(rows, i, u);
  }

  /** The loop body for one row: a listed row stores its entry and records
      its language for its country and overall. */
  method ReadRow(row: Row, u: Foreign, sheets: Entries<SheetInfo>, allLanguages: map<Cell, seq<string>>, uniqLanguages: seq<string>)
    returns (sheets': Entries<SheetInfo>, allLanguages': map<Cell, seq<string>>, uniqLanguages': seq<string>)
    ensures ImportInfo(sheets', allLanguages', uniqLanguages') == ImportStep(ImportInfo(sheets, allLanguages, uniqLanguages), row, u)
  {
    sheets', allLanguages', uniqLanguages' := sheets, allLanguages, uniqLanguages;
    if Listed(row, u) {
      sheets' := Upsert(sheets, SheetKey(row), InfoOf(row, u));
      var language := LanguageOf(row);
      var country := CellAt(row, 2);
      // the country's list, created empty on first sight, then appended to
      var list := if country in allLanguages then allLanguages[country] else [];
      if language !in list {
        list := list + [language];
      }
      allLanguages' := allLanguages[country := list];
      if language !in uniqLanguages {
        uniqLanguages' := uniqLanguages + [language];
      }
    }
  }

  // ---------------------------------------------------------------------
  // reference definitions over the listed rows

  /** The keys the rows give, one per row that gives one, in order. */
  function GivenKeys<V>(rows: seq<Row>, f: Row -> Option<(string, V)>): seq<string> {
    if rows == [] then []
    else
      var p := GivenKeys(rows[..|rows| - 1], f);
      match f(rows[|rows| - 1])
      case None => p
      case Some((k, _)) => p + [k]
  }

  /** The value of the last row that gives key `k`. */
  function LastGiven<V>(rows: seq<Row>, f: Row -> Option<(string, V)>, k: string): Option<V> {
    if rows == [] then None
    else
      match f(rows[|rows| - 1])
      case Some((k', v)) => if k' == k then Some(v) else LastGiven(rows[..|rows| - 1], f, k)
      case None => LastGiven(rows[..|rows| - 1], f, k)
  }

  /** Every entry holds what the last row giving its key gave. */
  predicate FromLast<V(==)>(rows: seq<Row>, f: Row -> Option<(string, V)>, e: Entries<V>) {
    forall i :: 0 <= i < |e| ==> LastGiven(rows, f, e[i].0) == Some(e[i].1)
  }

  /** The keys of the listed rows, one per row, in order. */
  function ListedKeys(rows: seq<Row>, u: Foreign): seq<string> {
    GivenKeys(rows, SheetEntries(u))
  }

  /** The entry of the last listed row with key `k`. */
  function LastInfo(rows: seq<Row>, k: string, u: Foreign): Option<SheetInfo> {
    LastGiven(rows, SheetEntries(u), k)
  }

  /** The languages of the listed rows of country `c`, one per row, in order. */
  function CountryLanguages(rows: seq<Row>, c: Cell, u: Foreign): seq<string> {
    if rows == [] then []
    else
      var last := rows[|rows| - 1];
      CountryLanguages(rows[..|rows| - 1], c, u)
        + (if Listed(last, u) && CellAt(last, 2) == c then [LanguageOf(last)] else [])
  }

  /** The languages of all listed rows, one per row, in order. */
  function ListedLanguages(rows: seq<Row>, u: Foreign): seq<string> {
    if rows == [] then []
    else
      var last := rows[|rows| - 1];
      ListedLanguages(rows[..|rows| - 1], u) + (if Listed(last, u) then [LanguageOf(last)] else [])
  }

  /** Appending if absent extends a deduplication by one element. */
  lemma AddAbsentDedup<T>(s: seq<T>, x: T)
    ensures AddAbsent(Dedup(s), x) == Dedup(s + [x])
  {
    DedupSpec(s);
    assert (s + [x])[..|s + [x]| - 1] == s;
  }

  /** The dict's keys are the keys given, each once, in the order first given. */
  lemma {:induction false} CollectKeys<V>(rows: seq<Row>, f: Row -> Option<(string, V)>)
    ensures Keys(Collect(rows, f)) == Dedup(GivenKeys(rows, f))
  {
    if rows != [] {
      var p := rows[..|rows| - 1];
      CollectKeys(p, f);
      match f(rows[|rows| - 1])
      case None =>
      case Some((k, v)) =>
        AddAbsentDedup(GivenKeys(p, f), k);
    }
  }

  /** Each key of the dict holds the value of the last row giving it. */
  lemma {:induction false} CollectValues<V>(rows: seq<Row>, f: Row -> Option<(string, V)>)
    ensures FromLast(rows, f, Collect(rows, f))
  {
    if rows != [] {
      var p := rows[..|rows| - 1];
      CollectValues(p, f);
      var e := Collect(p, f);
      var r := Collect(rows, f);
      match f(rows[|rows| - 1])
      case None =>
        forall i | 0 <= i < |r| ensures LastGiven(rows, f, r[i].0) == Some(r[i].1) {
          assert LastGiven(p, f, e[i].0) == Some(e[i].1);
        }
      case Some((k, v)) =>
        CollectKeys(p, f);
        DedupSpec(GivenKeys(p, f));
        UpsertDistinct(e, k, v);
        forall i | 0 <= i < |r| ensures LastGiven(rows, f, r[i].0) == Some(r[i].1) {
          if r[i].0 != k {
            assert r[i] == e[i];
            assert LastGiven(p, f, e[i].0) == Some(e[i].1);
          }
        }
    }
  }

  /** The row that gave a key its value: the last row giving the key. */
  function LastGivenAt<V>(rows: seq<Row>, f: Row -> Option<(string, V)>, k: string): (j: nat)
    requires LastGiven(rows, f, k).Some?
    ensures j < |rows| && f(rows[j]) == Some((k, LastGiven(rows, f, k).value))
  {
    var n := |rows| - 1;
    var p := rows[..n];
    if f(rows[n]).Some? && f(rows[n]).value.0 == k then n
    else
      var j := LastGivenAt(p, f, k);
      assert rows[j] == p[j];
      j
  }

  /** The entries are keyed by the listed rows' keys, each key once, in the
      order of the row where it first appears. */
  lemma ImportKeys(rows: seq<Row>, u: Foreign)
    ensures Keys(BuildSheets(rows, u)) == Dedup(ListedKeys(rows, u))
  {
    CollectKeys(rows, SheetEntries(u));
  }

  /** No two entries share a key. */
  lemma SheetsDistinct(rows: seq<Row>, u: Foreign)
    ensures NoDuplicates(Keys(BuildSheets(rows, u)))
  {
    ImportKeys(rows, u);
    DedupSpec(ListedKeys(rows, u));
  }

  /** Each entry holds what the last listed row with its key gave. */
  lemma ImportValues(rows: seq<Row>, u: Foreign)
    ensures var e := BuildSheets(rows, u);
            forall i :: 0 <= i < |e| ==> LastInfo(rows, e[i].0, u) == Some(e[i].1)
  {
    CollectValues(rows, SheetEntries(u));
  }

  /** A country has a language list exactly when some listed row is of that
      country, and the list is that country's languages, each once, in the
      order first seen. */
  lemma {:induction false} ImportLanguages(rows: seq<Row>, u: Foreign)
    ensures LanguagesFromRows(rows, BuildLanguages(rows, u), u)
  {
    if rows != [] {
      var p := rows[..|rows| - 1];
      var last := rows[|rows| - 1];
      ImportLanguages(p, u);
      var m0 := BuildLanguages(p, u);
      var m := BuildLanguages(rows, u);
      forall c' ensures (c' in m <==> CountryLanguages(rows, c', u) != [])
                        && (c' in m ==> m[c'] == Dedup(CountryLanguages(rows, c', u)))
      {
        CountryLanguagesStep(rows, c', u);
        assert c' in m0 <==> CountryLanguages(p, c', u) != [];
        assert c' in m0 ==> m0[c'] == Dedup(CountryLanguages(p, c', u));
        if Listed(last, u) && CellAt(last, 2) == c' {
          var lang := LanguageOf(last);
          assert m == m0[c' := AddAbsent(if c' in m0 then m0[c'] else [], lang)];
          AddAbsentDedup(CountryLanguages(p, c', u), lang);
          assert Dedup([lang]) == [lang] by { assert [lang][..0] == []; }
          assert [] + [lang] == [lang];
        } else {
          assert c' in m <==> c' in m0;
          assert c' in m ==> m[c'] == m0[c'];
        }
      }
    }
  }

  /** Each country's list holds exactly its rows' languages, each once, in
      the order first seen; countries without listed rows have none. */
  ghost predicate LanguagesFromRows(rows: seq<Row>, m: map<Cell, seq<string>>, u: Foreign) {
    (forall c :: c in m <==> CountryLanguages(rows, c, u) != [])
    && (forall c :: c in m ==> m[c] == Dedup(CountryLanguages(rows, c, u)))
  }

  lemma CountryLanguagesStep(rows: seq<Row>, c: Cell, u: Foreign)
    requires rows != []
    ensures var last := rows[|rows| - 1];
            CountryLanguages(rows, c, u)
              == if Listed(last, u) && CellAt(last, 2) == c
                 then CountryLanguages(rows[..|rows| - 1], c, u) + [LanguageOf(last)]
                 else CountryLanguages(rows[..|rows| - 1], c, u)
  {
    assert CountryLanguages(rows[..|rows| - 1], c, u) + [] == CountryLanguages(rows[..|rows| - 1], c, u);
  }

  /** The overall list is every listed row's language, each once, in the
      order first seen. */
  lemma {:induction false} ImportUniq(rows: seq<Row>, u: Foreign)
    ensures BuildUniq(rows, u) == Dedup(ListedLanguages(rows, u))
  {
    if rows != [] {
      var p := rows[..|rows| - 1];
      var last := rows[|rows| - 1];
      ImportUniq(p, u);
      if Listed(last, u) {
        assert ListedLanguages(rows, u) == ListedLanguages(p, u) + [LanguageOf(last)];
        AddAbsentDedup(ListedLanguages(p, u), LanguageOf(last));
      } else {
        assert ListedLanguages(rows, u) == ListedLanguages(p, u) + [];
        assert ListedLanguages(p, u) + [] == ListedLanguages(p, u);
        assert BuildUniq(rows, u) == BuildUniq(p, u);
      }
    }
  }

  /** Every language list is free of duplicates. */
  lemma LanguagesDistinct(rows: seq<Row>, u: Foreign)
    ensures var m := BuildLanguages(rows, u);
            (forall c :: c in m ==> NoDuplicates(m[c])) && NoDuplicates(BuildUniq(rows, u))
  {
    ImportLanguages(rows, u);
    ImportUniq(rows, u);
    var m := BuildLanguages(rows, u);
    forall c | c in m ensures NoDuplicates(m[c]) {
      DedupSpec(CountryLanguages(rows, c, u));
    }
    DedupSpec(ListedLanguages(rows, u));
  }

  /** A listed row's country has a language list. */
  lemma {:induction false} CountryOfListed(rows: seq<Row>, j: nat, u: Foreign)
    requires j < |rows| && Listed(rows[j], u)
    ensures CountryLanguages(rows, CellAt(rows[j], 2), u) != []
  {
    var n := |rows| - 1;
    var c := CellAt(rows[j], 2);
    CountryLanguagesStep(rows, c, u);
    if j < n {
      var p := rows[..n];
      assert p[j] == rows[j];
      CountryOfListed(p, j, u);
    }
  }

  /** The row an entry comes from is of a country that has a language list. */
  lemma LastInfoCountry(rows: seq<Row>, k: string, u: Foreign)
    requires LastInfo(rows, k, u).Some?
    ensures CountryLanguages(rows, LastInfo(rows, k, u).value.country, u) != []
  {
    var f := SheetEntries(u);
    var v := LastInfo(rows, k, u).value;
    var j := LastGivenAt(rows, f, k);
    assert SheetEntry(rows[j], u) == Some((k, v));
    SheetEntryCountry(rows[j], u, k, v);
    CountryOfListed(rows, j, u);
  }

  lemma SheetEntryCountry(row: Row, u: Foreign, k: string, v: SheetInfo)
    requires SheetEntry(row, u) == Some((k, v))
    ensures Listed(row, u) && v.country == CellAt(row, 2)
  {
    assert Listed(row, u);
  }

  /** Every entry's country has a language list, so the exporter's
      `all_languages[country_name]` never raises. */
  lemma CountriesKnown(rows: seq<Row>, u: Foreign)
    ensures var e := BuildSheets(rows, u);
            forall i :: 0 <= i < |e| ==> e[i].1.country in BuildLanguages(rows, u)
  {
    var e := BuildSheets(rows, u);
    ImportValues(rows, u);
    forall i | 0 <= i < |e| ensures e[i].1.country in BuildLanguages(rows, u) {
      LastInfoCountry(rows, e[i].0, u);
      CountryKnown(rows, e[i].1.country, u);
    }
  }

  lemma CountryKnown(rows: seq<Row>, c: Cell, u: Foreign)
    requires CountryLanguages(rows, c, u) != []
    ensures c in BuildLanguages(rows, u)
  {
    ImportLanguages(rows, u);
  }
}
