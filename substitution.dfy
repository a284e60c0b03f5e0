/** The two rewrites the exporter applies to a row's answer text: the
    country's literal find/replace table, and, for the language-menu row, the
    splice of the country's language list into the third paragraph. */
module Substitution {
  import opened Wrappers
  import opened Text
  import opened Unicode
  import opened Sheets

  /** An ordered find/replace table (a Python dict, in insertion order). */
  type Replacements = seq<(string, string)>

  /** The table ImportInfo builds for one row: the placeholder country names
      become the row's country, in its own spelling and upper-cased, and the
      placeholder number becomes the row's number without its `=` signs. */
  function CountryReplacements(country: Cell, number: Cell, u: Foreign): Replacements
  {
    var c := CellStr(country);
    Table(c, u.upper(c), PhoneNumber(number))
  }

  /** A row's table replaces each of the five placeholders once, in order:
      both placeholder country names become the row's country, their
      upper-case forms the upper-cased country, and the placeholder number a
      number with no `=` in it. */
  lemma CountryReplacementsSpec(country: Cell, number: Cell, u: Foreign)
    ensures var t := CountryReplacements(country, number, u);
      |t| == |PLACEHOLDERS| && NoDuplicates(PLACEHOLDERS)
      && (forall i :: 0 <= i < |t| ==> t[i].0 == PLACEHOLDERS[i])
      && t[0].1 == t[2].1 == CellStr(country)
      && t[1].1 == t[3].1 == u.upper(CellStr(country))
      && '=' !in t[4].1
  {
    var c := CellStr(country);
    TableKeys(c, u.upper(c), PhoneNumber(number));
    PlaceholdersDistinct();
    NumberWithoutEquals(number);
  }

  /** The dict literal, given the country in both spellings and the number. */
  function Table(country: string, upperCountry: string, number: string): Replacements {
    [(PLACEHOLDERS[0], country), (PLACEHOLDERS[1], upperCountry), (PLACEHOLDERS[2], country),
     (PLACEHOLDERS[3], upperCountry), (PLACEHOLDERS[4], number)]
  }

  /** The table has the placeholders as its keys, in order and each once, so
      applying it pair by pair is applying the dict. */
  lemma TableKeys(country: string, upperCountry: string, number: string)
    ensures var t := Table(country, upperCountry, number);
            |t| == |PLACEHOLDERS|
            && (forall i :: 0 <= i < |t| ==> t[i].0 == PLACEHOLDERS[i])
            && (forall i, j :: 0 <= i < j < |t| ==> t[i].0 != t[j].0)
  {
    PlaceholdersDistinct();
  }

  /** `str(number).replace("=", "")`. */
  function PhoneNumber(number: Cell): string {
    ReplaceAll(CellStr(number), "=", "")
  }

  /** The texts the content was written with, which the table replaces. */
  const PLACEHOLDERS: seq<string> := ["South Africa", "SOUTH AFRICA", "Mozambique", "MOZAMBIQUE", "27600109000"]

  /** The table's keys are distinct, as the keys of a dict are. */
  lemma PlaceholdersDistinct()
    ensures NoDuplicates(PLACEHOLDERS)
  {
    var k := PLACEHOLDERS;
    assert k[0][1] == 'o' && k[1][1] == 'O' && k[2][1] == 'o' && k[3][1] == 'O';
    assert |k[0]| == 12 && |k[1]| == 12 && |k[2]| == 10 && |k[3]| == 10 && |k[4]| == 11;
  }

  /** The number a content row gets has no `=` left in it. */
  lemma NumberWithoutEquals(number: Cell)
    ensures '=' !in PhoneNumber(number)
  {
    ReplaceCharByNothing(CellStr(number), '=');
  }

  /** The replacements of `table` applied one after another, in order. */
  function ApplyReplacements(content: string, table: Replacements): string
  {
    if table == [] then content
    else
      var last := table[|table| - 1];
      ReplaceAll(ApplyReplacements(content, table[..|table| - 1]), last.0, last.1)
  }

  /** `replace_content_values(content, values)`: each pair of the table in
      turn replaces every occurrence of its key in the text so far. */
  method ReplaceContentValues(content: string, table: Replacements) returns (r: string)
    ensures r == ApplyReplacements(content, table)
  {
    r := content;
    var i := 0;
    while i < |table|
      invariant 0 <= i <= |table|
      invariant r == ApplyReplacements(content, table[..i])
    {
      assert table[..i + 1][..i] == table[..i];
      r := ReplaceAll(r, table[i].0, table[i].1);
      i := i + 1;
    }
    assert table[..|table|] == table;
  }

  /** Applying two tables in turn is applying their concatenation: the
      replacements are strictly sequential. */
  lemma {:induction false} ApplyConcat(content: string, a: Replacements, b: Replacements)
    ensures ApplyReplacements(content, a + b) == ApplyReplacements(ApplyReplacements(content, a), b)
  {
    if b == [] {
      assert a + b == a;
    } else {
      var b' := b[..|b| - 1];
      assert (a + b)[..|a + b| - 1] == a + b';
      ApplyConcat(content, a, b');
    }
  }

  /** Text containing none of the keys is returned unchanged. */
  lemma {:induction false} ApplyAbsent(content: string, table: Replacements)
    requires forall i :: 0 <= i < |table| ==> !Contains(content, table[i].0)
    ensures ApplyReplacements(content, table) == content
  {
    if table != [] {
      var p := table[..|table| - 1];
      assert forall i :: 0 <= i < |p| ==> p[i] == table[i];
      ApplyAbsent(content, p);
      ReplaceAbsent(content, table[|table| - 1].0, table[|table| - 1].1);
    }
  }

  // ---------------------------------------------------------------------
  // replace_content_languages

  const LANGUAGE_MENU: string := "eng_language"
  const PARAGRAPH: string := "\n\n"

  /** `replace_content_languages(name, content, languages)`: the language-menu
      row keeps its first, second and fourth paragraphs and gets the
      newline-separated languages as its third; any later paragraph is
      dropped. Every other row is unchanged. */
  function ReplaceContentLanguages(name: Cell, content: string, languages: seq<string>): (r: Result<string, Crash>)
    ensures name != Str(LANGUAGE_MENU) ==> r == Ok(content)
    ensures r.Err? <==> name == Str(LANGUAGE_MENU) && |Split(content, PARAGRAPH)| < 4
    ensures r.Err? ==> r.error == IndexError
  {
    if name == Str(LANGUAGE_MENU) then
      var parts := Split(content, PARAGRAPH);
      if |parts| < 4 then Err(IndexError)
      else Ok(Join([parts[0], parts[1], Join(languages, "\n"), parts[3]], PARAGRAPH))
    else Ok(content)
  }

  /** The splice is the text's own paragraphs with the third replaced by the
      language list, cut after the fourth. */
  lemma {:induction false} LanguagesSplice(content: string, languages: seq<string>)
    requires |Split(content, PARAGRAPH)| >= 4
    ensures var parts := Split(content, PARAGRAPH);
            ReplaceContentLanguages(Str(LANGUAGE_MENU), content, languages)
              == Ok(Join(parts[..4][2 := Join(languages, "\n")], PARAGRAPH))
  {
    var parts := Split(content, PARAGRAPH);
    assert parts[..4][2 := Join(languages, "\n")] == [parts[0], parts[1], Join(languages, "\n"), parts[3]];
  }

  /** A four-paragraph menu whose third paragraph already lists the languages
      is left as it is. */
  lemma {:induction false} LanguagesSpliceFixpoint(content: string, languages: seq<string>)
    requires |Split(content, PARAGRAPH)| == 4
    requires Split(content, PARAGRAPH)[2] == Join(languages, "\n")
    ensures ReplaceContentLanguages(Str(LANGUAGE_MENU), content, languages) == Ok(content)
  {
    var parts := Split(content, PARAGRAPH);
    assert [parts[0], parts[1], Join(languages, "\n"), parts[3]] == parts;
    JoinSplit(content, PARAGRAPH);
  }
}
