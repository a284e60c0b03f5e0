/** `base_emoji` (process_sheet.py) and the emoji test `clean_keywords`
    applies to each keyword. */
module EmojiKeywords {
  import opened Text
  import opened Unicode

  /** The five skin-type modifiers, U+1F3FB to U+1F3FF, in the order removed. */
  const SKIN_TONES: seq<string> := ["\U{1F3FB}", "\U{1F3FC}", "\U{1F3FD}", "\U{1F3FE}", "\U{1F3FF}"]

  predicate IsSkinTone(c: char) {
    '\U{1F3FB}' <= c <= '\U{1F3FF}'
  }

  /** `for m in modifiers: keyword = keyword.replace(m, "")` */
  function ReplaceEach(k: string, mods: seq<string>): string {
    if mods == [] then k
    else ReplaceAll(ReplaceEach(k, mods[..|mods| - 1]), mods[|mods| - 1], "")
  }

  /** `base_emoji(keyword)`: a keyword the emoji pattern matches at its
      start loses its skin-type modifiers; any other keyword is returned as is. */
  function BaseEmoji(k: string, u: Foreign): string {
    if u.emojiLen(k) > 0 then ReplaceEach(k, SKIN_TONES) else k
  }

  /** The characters of `s` outside `cs`, in order. */
  function RemoveSet(s: string, cs: set<char>): (r: string)
    ensures forall i :: 0 <= i < |r| ==> r[i] !in cs
    ensures forall x :: x in r <==> x in s && x !in cs
  {
    if s == [] then [] else (if s[0] in cs then [] else [s[0]]) + RemoveSet(s[1..], cs)
  }

  lemma {:induction false} RemoveCharOfSet(s: string, cs: set<char>, c: char)
    ensures RemoveChar(RemoveSet(s, cs), c) == RemoveSet(s, cs + {c})
  {
    if s != [] {
      RemoveCharOfSet(s[1..], cs, c);
      var head := if s[0] in cs then [] else [s[0]];
      RemoveCharAppend(head, RemoveSet(s[1..], cs), c);
    }
  }

  lemma {:induction false} RemoveCharAppend(a: string, b: string, c: char)
    ensures RemoveChar(a + b, c) == RemoveChar(a, c) + RemoveChar(b, c)
  {
    if a != [] {
      assert (a + b)[0] == a[0];
      assert (a + b)[1..] == a[1..] + b;
      RemoveCharAppend(a[1..], b, c);
    } else {
      assert a + b == b;
    }
  }

  lemma RemoveSetEmpty(s: string)
    ensures RemoveSet(s, {}) == s
  {
  }

  /** The first characters of one-character strings. */
  function CharsOf(mods: seq<string>): set<char>
    requires forall i :: 0 <= i < |mods| ==> |mods[i]| == 1
  {
    set i | 0 <= i < |mods| :: mods[i][0]
  }

  /** Removing one-character strings one after another removes every one of
      their characters, wherever it stands. */
  lemma {:induction false} ReplaceEachChars(k: string, mods: seq<string>)
    requires forall i :: 0 <= i < |mods| ==> |mods[i]| == 1
    ensures ReplaceEach(k, mods) == RemoveSet(k, CharsOf(mods))
  {
    if mods == [] {
      RemoveSetEmpty(k);
      assert CharsOf(mods) == {};
    } else {
      var p := mods[..|mods| - 1];
      var m := mods[|mods| - 1];
      assert forall i :: 0 <= i < |p| ==> p[i] == mods[i];
      ReplaceEachChars(k, p);
      var c := m[0];
      assert m == [c];
      calc {
        ReplaceEach(k, mods);
        ReplaceAll(ReplaceEach(k, p), [c], "");
        { ReplaceCharByNothing(ReplaceEach(k, p), c); }
        RemoveChar(RemoveSet(k, CharsOf(p)), c);
        { RemoveCharOfSet(k, CharsOf(p), c); }
        RemoveSet(k, CharsOf(p) + {c});
        { CharsSnoc(mods); }
        RemoveSet(k, CharsOf(mods));
      }
    }
  }

  lemma CharsSnoc(mods: seq<string>)
    requires mods != [] && forall i :: 0 <= i < |mods| ==> |mods[i]| == 1
    ensures CharsOf(mods) == CharsOf(mods[..|mods| - 1]) + {mods[|mods| - 1][0]}
  {
    var p := mods[..|mods| - 1];
    assert forall i :: 0 <= i < |p| ==> p[i] == mods[i];
  }

  lemma SkinToneChars()
    ensures forall i :: 0 <= i < |SKIN_TONES| ==> |SKIN_TONES[i]| == 1
    ensures forall c :: c in CharsOf(SKIN_TONES) <==> IsSkinTone(c)
  {
    assert forall c :: IsSkinTone(c) ==>
      c == '\U{1F3FB}' || c == '\U{1F3FC}' || c == '\U{1F3FD}' || c == '\U{1F3FE}' || c == '\U{1F3FF}';
    assert SKIN_TONES[0][0] == '\U{1F3FB}' && SKIN_TONES[1][0] == '\U{1F3FC}' && SKIN_TONES[2][0] == '\U{1F3FD}';
    assert SKIN_TONES[3][0] == '\U{1F3FE}' && SKIN_TONES[4][0] == '\U{1F3FF}';
  }

  /** The characters of `s` that are not skin-type modifiers, in order. */
  function WithoutSkinTones(s: string): string {
    RemoveSet(s, CharsOf(SKIN_TONES))
  }

  /** `base_emoji` leaves a keyword without a leading emoji unchanged, and
      otherwise removes every skin-type modifier from it, wherever it stands,
      keeping all other characters in order. */
  lemma BaseEmojiSpec(k: string, u: Foreign)
    ensures u.emojiLen(k) == 0 ==> BaseEmoji(k, u) == k
    ensures u.emojiLen(k) > 0 ==> BaseEmoji(k, u) == WithoutSkinTones(k)
    ensures u.emojiLen(k) > 0 ==> forall i :: 0 <= i < |BaseEmoji(k, u)| ==> !IsSkinTone(BaseEmoji(k, u)[i])
  {
    SkinToneChars();
    ReplaceEachChars(k, SKIN_TONES);
  }

  lemma WithoutSkinTonesIdempotent(s: string)
    ensures WithoutSkinTones(WithoutSkinTones(s)) == WithoutSkinTones(s)
  {
    RemoveSetNone(WithoutSkinTones(s), CharsOf(SKIN_TONES));
  }

  lemma {:induction false} RemoveSetNone(s: string, cs: set<char>)
    requires forall i :: 0 <= i < |s| ==> s[i] !in cs
    ensures RemoveSet(s, cs) == s
  {
    if s != [] {
      RemoveSetNone(s[1..], cs);
    }
  }

  /** Applying `base_emoji` twice is applying it once. */
  lemma BaseEmojiIdempotent(k: string, u: Foreign)
    ensures BaseEmoji(BaseEmoji(k, u), u) == BaseEmoji(k, u)
  {
    BaseEmojiSpec(k, u);
    var b := BaseEmoji(k, u);
    BaseEmojiSpec(b, u);
    if u.emojiLen(k) > 0 {
      WithoutSkinTonesIdempotent(k);
    }
  }

  /** The keyword as the emoji test sees it: variation selectors U+FE0F and
      U+FE0E removed. */
  function WithoutVariation(k: string): string {
    ReplaceAll(ReplaceAll(k, "\U{FE0F}", ""), "\U{FE0E}", "")
  }

  /** After removing variation selectors the emoji test sees neither. */
  lemma WithoutVariationSpec(k: string)
    ensures WithoutVariation(k) == RemoveChar(RemoveChar(k, '\U{FE0F}'), '\U{FE0E}')
    ensures forall i :: 0 <= i < |WithoutVariation(k)| ==>
      WithoutVariation(k)[i] != '\U{FE0F}' && WithoutVariation(k)[i] != '\U{FE0E}'
  {
    ReplaceCharByNothing(k, '\U{FE0F}');
    ReplaceCharByNothing(RemoveChar(k, '\U{FE0F}'), '\U{FE0E}');
    var r := WithoutVariation(k);
    forall i | 0 <= i < |r| ensures r[i] != '\U{FE0F}' && r[i] != '\U{FE0E}' {
      assert r[i] in r;
    }
  }

  /** A keyword that starts with an emoji but holds more than that emoji. */
  predicate IsInvalid(v: string, u: Foreign) {
    0 < u.emojiLen(v) < |v|
  }
}
