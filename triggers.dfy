/** The Turn automations the exporter synthesises from a content row's
    keyword cells: keyword cleaning, the trigger list of a reply automator and
    the language-switch automation. JSON objects become datatypes; the
    constant members of every automation (`"operator": "AND"`,
    `"version": "0.2.0"`, `"enabled": true`, `"is_deleted": false`) are fields
    the constructor function `MakeAutomator` fixes. */
module Automations {
  import opened Wrappers
  import opened Text
  import opened Unicode
  import opened Sheets

  /** `trigger_params`: a match on the contact's language field
      (`"contact_field_match": "exact"`, `"contact_field_name": "language"`),
      a single keyword or a keyword list. */
  datatype TriggerParams =
    | LanguageField(value: Option<string>)
    | ExactMatch(keyword: string)
    | ExactMatches(keywords: seq<string>)

  datatype TriggerType = MessageInbound | MessageInboundCatchAll

  datatype Trigger = Trigger(params: TriggerParams, kind: TriggerType)

  /** `{"action_type": "reply"}` and an `update_contact` of one contact field. */
  datatype Action = Reply | UpdateContact(field: string, value: string)

  datatype Automator = Automator(
    name: string,
    actions: seq<Action>,
    triggers: seq<Trigger>,
    operator: string,
    version: string,
    enabled: bool,
    deleted: bool)

  const CATCHALL: string := "CATCHALL"
  const NO_LANG: string := "no-lang"
  const LANGUAGE_FIELD: string := "language"

  /** An automation with the members every automation the exporter writes shares. */
  function MakeAutomator(name: string, actions: seq<Action>, triggers: seq<Trigger>): (a: Automator)
    ensures a.name == name && a.actions == actions && a.triggers == triggers
    ensures a.operator == "AND" && a.version == "0.2.0" && a.enabled && !a.deleted
  {
    Automator(name, actions, triggers, "AND", "0.2.0", true, false)
  }

  // ---------------------------------------------------------------------
  // strip_language

  /** The text after the first underscore; `k` must contain one. */
  function AfterUnderscore(k: string): (r: string)
    requires '_' in k
    ensures exists p :: '_' !in p && k == p + "_" + r
  {
    if k[0] == '_' then
      assert k == "" + "_" + k[1..];
      k[1..]
    else
      var r := AfterUnderscore(k[1..]);
      var p :| '_' !in p && k[1..] == p + "_" + r;
      assert k == [k[0]] + p + "_" + r && '_' !in [k[0]] + p;
      r
  }

  /** `keyword.split("_", 1)[-1]`: the text after the first underscore, or
      the whole keyword when it has none. */
  function StripLanguage(k: string): (r: string)
    ensures '_' !in k ==> r == k
    ensures '_' in k ==> exists p :: '_' !in p && k == p + "_" + r
  {
    if '_' in k then AfterUnderscore(k) else k
  }

  /** A language code and an underscore are stripped exactly. */
  lemma {:induction false} StripLanguageOfPrefixed(p: string, rest: string)
    requires '_' !in p
    ensures StripLanguage(p + "_" + rest) == rest
    decreases |p|
  {
    var k := p + "_" + rest;
    if p == [] {
      assert k == "_" + rest && k[0] == '_' && k[1..] == rest;
    } else {
      assert k[0] == p[0] && k[0] != '_';
      assert k[1..] == p[1..] + "_" + rest;
      assert '_' !in p[1..] by { assert forall c :: c in p[1..] ==> c in p; }
      StripLanguageOfPrefixed(p[1..], rest);
    }
  }

  // ---------------------------------------------------------------------
  // clean_keyword

  /** The largest magnitude up to which every integer is exactly a double
      (2^53); beyond it `float` rounds some integers. */
  const FLOAT_EXACT: int := 0x20_0000_0000_0000

  /** An integer literal within the range where `float` represents every
      integer exactly. */
  predicate IsExactLiteral(t: string) {
    IsIntLiteral(t) && -FLOAT_EXACT <= ParseInt(t) <= FLOAT_EXACT
  }

  /** `clean_keyword`: the trimmed keyword, and for an integer literal of
      magnitude at most 2^53 the decimal text of its value
      (`str(int(float(word)))`, which drops a sign "+" and leading zeros). */
  function CleanKeyword(w: string): string {
    var t := Strip(w);
    if IsExactLiteral(t) then IntToString(ParseInt(t)) else t
  }

  /** The decimal text of an integer is a clean keyword. */
  lemma IntegerKeywordClean(n: int)
    ensures CleanKeyword(IntToString(n)) == IntToString(n)
  {
    IntToStringNoSpace(n);
    StripNoSpace(IntToString(n));
    IntToStringRoundTrip(n);
  }

  /** Cleaning a keyword twice is cleaning it once. */
  lemma CleanKeywordIdempotent(w: string)
    ensures CleanKeyword(CleanKeyword(w)) == CleanKeyword(w)
  {
    var t := Strip(w);
    if IsExactLiteral(t) {
      IntegerKeywordClean(ParseInt(t));
    } else {
      StripIdempotent(w);
    }
  }

  /** The keyword list of a cell: `str(keywords)` split at commas, each piece cleaned. */
  function KeywordList(keywords: Cell): (ks: seq<string>)
    ensures |ks| == |Split(CellStr(keywords), ",")| && |ks| > 0
    ensures forall i :: 0 <= i < |ks| ==> ks[i] == CleanKeyword(Split(CellStr(keywords), ",")[i])
  {
    var ws := Split(CellStr(keywords), ",");
    seq(|ws|, i requires 0 <= i < |ws| => CleanKeyword(ws[i]))
  }

  /** A language trigger's `contact_field_value`: none for "no-lang", the
      upper-cased language otherwise; a language that is not a string has no
      `upper()`. */
  function LanguageMatch(language: Cell, u: Foreign): (r: Result<Option<string>, Crash>)
  {
    match language
    case Str(l) => Ok(if l == NO_LANG then None else Some(u.upper(l)))
    case _ => Err(AttributeError)
  }

  /** The keyword trigger: one keyword matches exactly, several match as a list. */
  function KeywordParams(ks: seq<string>): TriggerParams
    requires |ks| > 0
  {
    if |ks| == 1 then ExactMatch(ks[0]) else ExactMatches(ks)
  }

  // ---------------------------------------------------------------------
  // process_automators

  /** `process_automators(keywords, language)`: the triggers of a row's reply
      automator. */
  function ProcessAutomators(keywords: Cell, language: Cell, u: Foreign): (r: Result<seq<Trigger>, Crash>)
    ensures r.Err? <==> Truthy(keywords) && !language.Str?
    ensures r.Err? ==> r.error == AttributeError
  {
    if !Truthy(keywords) then Ok([])
    else
      var ks := KeywordList(keywords);
      match LanguageMatch(language, u)
      case Err(e) => Err(e)
      case Ok(lm) =>
        if |ks| == 1 && ks[0] == CATCHALL then
          Ok([Trigger(LanguageField(lm), MessageInboundCatchAll)])
        else
          Ok([Trigger(LanguageField(lm), MessageInbound), Trigger(KeywordParams(ks), MessageInbound)])
  }

  /** A falsy keyword cell gives no triggers, whatever the language. */
  lemma AutomatorsOfFalsy(keywords: Cell, language: Cell, u: Foreign)
    requires !Truthy(keywords)
    ensures ProcessAutomators(keywords, language, u) == Ok([])
  {
  }

  /** The language trigger matches no language for "no-lang" and the
      upper-cased language otherwise. */
  lemma AutomatorsLanguageValue(keywords: Cell, l: string, u: Foreign)
    requires Truthy(keywords)
    ensures var r := ProcessAutomators(keywords, Str(l), u);
            r.Ok? && |r.value| > 0 && r.value[0].params.LanguageField?
            && (r.value[0].params.value.None? <==> l == NO_LANG)
            && (l != NO_LANG ==> r.value[0].params.value == Some(u.upper(l)))
  {
  }

  /** A cell whose only keyword is CATCHALL gives exactly one trigger, a
      catch-all restricted to the language. */
  lemma AutomatorsCatchAll(keywords: Cell, l: string, u: Foreign)
    requires Truthy(keywords) && KeywordList(keywords) == [CATCHALL]
    ensures var r := ProcessAutomators(keywords, Str(l), u);
            r.Ok? && |r.value| == 1
            && r.value[0].kind == MessageInboundCatchAll
            && r.value[0].params == LanguageField(LanguageMatch(Str(l), u).value)
  {
  }

  /** Any other truthy cell gives exactly two inbound-message triggers: the
      language match, then the cleaned keywords in cell order, one keyword
      by itself and several as a list. */
  lemma AutomatorsKeywords(keywords: Cell, l: string, u: Foreign)
    requires Truthy(keywords) && KeywordList(keywords) != [CATCHALL]
    ensures var r := ProcessAutomators(keywords, Str(l), u);
            var ws := Split(CellStr(keywords), ",");
            r.Ok? && |r.value| == 2
            && r.value[0] == Trigger(LanguageField(LanguageMatch(Str(l), u).value), MessageInbound)
            && r.value[1].kind == MessageInbound
            && (|ws| == 1 ==> r.value[1].params == ExactMatch(CleanKeyword(ws[0])))
            && (|ws| > 1 ==>
                  (r.value[1].params.ExactMatches?
                   && |r.value[1].params.keywords| == |ws|
                   && forall i :: 0 <= i < |ws| ==> r.value[1].params.keywords[i] == CleanKeyword(ws[i])))
  {
    AutomatorsPair(keywords, l, u);
  }

  lemma AutomatorsPair(keywords: Cell, l: string, u: Foreign)
    requires Truthy(keywords) && KeywordList(keywords) != [CATCHALL]
    ensures ProcessAutomators(keywords, Str(l), u)
              == Ok([Trigger(LanguageField(LanguageMatch(Str(l), u).value), MessageInbound),
                     Trigger(KeywordParams(KeywordList(keywords)), MessageInbound)])
  {
    var ks := KeywordList(keywords);
    if |ks| == 1 { assert ks == [ks[0]]; }
  }

  /** The language trigger does not depend on the keywords: any two truthy
      cells give first triggers with the same language match. */
  lemma AutomatorsSameLanguage(k1: Cell, k2: Cell, l: string, u: Foreign)
    requires Truthy(k1) && Truthy(k2)
    ensures ProcessAutomators(k1, Str(l), u).value[0].params == ProcessAutomators(k2, Str(l), u).value[0].params
  {
  }

  /** The "no-lang" triggers of a truthy cell are the language's triggers
      with the language match dropped: same number, same kinds, same
      keyword trigger. */
  lemma AutomatorsNoLanguage(keywords: Cell, l: string, u: Foreign)
    requires Truthy(keywords)
    ensures var t := ProcessAutomators(keywords, Str(l), u).value;
            var n := ProcessAutomators(keywords, Str(NO_LANG), u).value;
            |n| == |t| && |t| > 0
            && n[0] == Trigger(LanguageField(None), t[0].kind)
            && n[1..] == t[1..]
  {
    assert LanguageMatch(Str(NO_LANG), u) == Ok(None);
    if KeywordList(keywords) == [CATCHALL] {
      AutomatorsCatchAll(keywords, l, u);
      AutomatorsCatchAll(keywords, NO_LANG, u);
    } else {
      AutomatorsPair(keywords, l, u);
      AutomatorsPair(keywords, NO_LANG, u);
    }
  }

  // ---------------------------------------------------------------------
  // process_language_automations

  /** `process_language_automations(keywords, language)`: the automation that
      switches the contact's language when one of the keywords arrives. */
  function ProcessLanguageAutomations(keywords: Cell, language: Cell, u: Foreign): (r: Result<Option<Automator>, Crash>)
    ensures r.Err? <==> Truthy(keywords) && !language.Str?
    ensures r.Err? ==> r.error == AttributeError
  {
    if !Truthy(keywords) then Ok(None)
    else
      var ks := KeywordList(keywords);
      match language
      case Str(l) =>
        Ok(Some(MakeAutomator(
          l + "-language-switch",
          [Reply, UpdateContact(LANGUAGE_FIELD, u.upper(l))],
          [Trigger(KeywordParams(ks), MessageInbound)])))
      case _ => Err(AttributeError)
  }

  /** No automation for a falsy cell; otherwise one automation named after
      the language, replying and then setting the contact's language to its
      upper-case form, on one inbound-message trigger for the cleaned keywords. */
  lemma LanguageSwitchShape(keywords: Cell, l: string, u: Foreign)
    ensures var r := ProcessLanguageAutomations(keywords, Str(l), u);
            r.Ok?
            && (r.value.None? <==> !Truthy(keywords))
            && (r.value.Some? ==>
                  var a := r.value.value;
                  var ws := Split(CellStr(keywords), ",");
                  a.name == l + "-language-switch"
                  && a.actions == [Reply, UpdateContact(LANGUAGE_FIELD, u.upper(l))]
                  && |a.triggers| == 1 && a.triggers[0].kind == MessageInbound
                  && (|ws| == 1 <==> a.triggers[0].params.ExactMatch?)
                  && (|ws| == 1 ==> a.triggers[0].params.keyword == CleanKeyword(ws[0]))
                  && (|ws| > 1 ==> a.triggers[0].params == ExactMatches(KeywordList(keywords)))
                  && a.enabled && !a.deleted)
  {
  }
}
