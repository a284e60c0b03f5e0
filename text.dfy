/** String primitives with the semantics of the Python `str` methods the
    scripts use: `strip()`, `split(sep)`, `sep.join(parts)`, `replace(a, b)`,
    `startswith`, `in`, slicing, `str(int)` and integer parsing. */
module Text {

  /** Python's `str.isspace()` (the characters `strip()` removes by default). */
  predicate IsSpace(c: char) {
    c == ' ' || ('\t' <= c <= '\r') || ('\U{1C}' <= c <= '\U{1F}')
    || c == '\U{85}' || c == '\U{A0}' || c == '\U{1680}'
    || ('\U{2000}' <= c <= '\U{200A}') || c == '\U{2028}' || c == '\U{2029}'
    || c == '\U{202F}' || c == '\U{205F}' || c == '\U{3000}'
  }

  function TrimLeft(s: string): (r: string)
    ensures |r| <= |s| && r == s[|s| - |r|..]
    ensures r == [] || !IsSpace(r[0])
    ensures forall i :: 0 <= i < |s| - |r| ==> IsSpace(s[i])
  {
    if |s| > 0 && IsSpace(s[0]) then TrimLeft(s[1..]) else s
  }

  function TrimRight(s: string): (r: string)
    ensures |r| <= |s| && r == s[..|r|]
    ensures r == [] || !IsSpace(r[|r| - 1])
    ensures forall i :: |r| <= i < |s| ==> IsSpace(s[i])
  {
    if |s| > 0 && IsSpace(s[|s| - 1]) then TrimRight(s[..|s| - 1]) else s
  }

  /** `s.strip()`: the slice of `s` between its leading and trailing whitespace. */
  function Strip(s: string): (r: string)
  {
    TrimRight(TrimLeft(s))
  }

  /** `strip` cuts a slice out of `s`: everything before it and after it
      is whitespace, and the slice neither starts nor ends with whitespace. */
  lemma StripSlice(s: string)
    ensures var i := |s| - |TrimLeft(s)|;
            var j := i + |Strip(s)|;
            j <= |s| && Strip(s) == s[i..j]
            && (forall k :: 0 <= k < i ==> IsSpace(s[k]))
            && (forall k :: j <= k < |s| ==> IsSpace(s[k]))
            && (Strip(s) == [] || (!IsSpace(s[i]) && !IsSpace(s[j - 1])))
  {
    StripSliceAt(s);
    StripSpaceAround(s);
    StripEdges(s);
  }

  lemma StripSliceAt(s: string)
    ensures var i := |s| - |TrimLeft(s)|;
            i + |Strip(s)| <= |s| && Strip(s) == s[i..i + |Strip(s)|]
  {
    var l := TrimLeft(s);
    var r := TrimRight(l);
    var i := |s| - |l|;
    assert l == s[i..] && r == l[..|r|];
  }

  lemma StripSpaceAround(s: string)
    ensures var i := |s| - |TrimLeft(s)|;
            (forall k :: 0 <= k < i ==> IsSpace(s[k]))
            && (forall k :: i + |Strip(s)| <= k < |s| ==> IsSpace(s[k]))
  {
    var l := TrimLeft(s);
    var r := TrimRight(l);
    var i := |s| - |l|;
    assert l == s[i..];
    forall k | i + |r| <= k < |s| ensures IsSpace(s[k]) {
      assert s[k] == l[k - i];
    }
  }

  lemma StripEdges(s: string)
    ensures Strip(s) == [] || (!IsSpace(Strip(s)[0]) && !IsSpace(Strip(s)[|Strip(s)| - 1]))
  {
    var l := TrimLeft(s);
    var r := TrimRight(l);
    if r != [] {
      assert r == l[..|r|];
      assert r[0] == l[0];
    }
  }

  predicate NoSpace(s: string) {
    forall i :: 0 <= i < |s| ==> !IsSpace(s[i])
  }

  /** A string without whitespace is its own strip. */
  lemma StripNoSpace(s: string)
    requires NoSpace(s)
    ensures Strip(s) == s
  {
    assert TrimLeft(s) == s;
  }

  /** A string that neither starts nor ends with whitespace is its own strip. */
  lemma StripTrimmed(s: string)
    requires s == [] || (!IsSpace(s[0]) && !IsSpace(s[|s| - 1]))
    ensures Strip(s) == s
  {
    assert TrimLeft(s) == s;
  }

  lemma StripIdempotent(s: string)
    ensures Strip(Strip(s)) == Strip(s)
  {
    var r := Strip(s);
    assert TrimLeft(r) == r;
    assert TrimRight(r) == r;
  }

  /** `s[n:]` in Python: slicing past the end gives the empty string. */
  function Drop(s: string, n: nat): (r: string)
    ensures n <= |s| ==> r == s[n..]
    ensures n >= |s| ==> r == []
  {
    if n <= |s| then s[n..] else []
  }

  /** `pat in s` for strings. */
  predicate Contains(s: string, pat: string)
    decreases |s|
  {
    pat <= s || (|s| > 0 && Contains(s[1..], pat))
  }

  lemma ContainsShorter(s: string, pat: string)
    requires |s| < |pat|
    ensures !Contains(s, pat)
    decreases |s|
  {
    if |s| > 0 { ContainsShorter(s[1..], pat); }
  }

  // ---------------------------------------------------------------------
  // split / join

  /** `s.split(sep)` for a non-empty separator: the pieces between the
      non-overlapping occurrences of `sep`, found left to right. */
  function Split(s: string, sep: string): (parts: seq<string>)
    requires |sep| > 0
    ensures |parts| > 0
    decreases |s|
  {
    if |s| < |sep| then [s]
    else if sep <= s then [""] + Split(s[|sep|..], sep)
    else
      var rest := Split(s[1..], sep);
      [[s[0]] + rest[0]] + rest[1..]
  }

  /** `sep.join(parts)`. */
  function Join(parts: seq<string>, sep: string): string
  {
    if |parts| == 0 then ""
    else if |parts| == 1 then parts[0]
    else parts[0] + sep + Join(parts[1..], sep)
  }

  lemma JoinCons(p: string, ps: seq<string>, sep: string)
    requires |ps| > 0
    ensures Join([p] + ps, sep) == p + sep + Join(ps, sep)
  {
    assert ([p] + ps)[1..] == ps;
  }

  /** Prepending a character to the first piece prepends it to the joined string. */
  lemma JoinPrependChar(c: char, parts: seq<string>, sep: string)
    requires |parts| > 0
    ensures Join([[c] + parts[0]] + parts[1..], sep) == [c] + Join(parts, sep)
  {
    if |parts| > 1 {
      JoinCons([c] + parts[0], parts[1..], sep);
      assert parts == [parts[0]] + parts[1..];
      JoinCons(parts[0], parts[1..], sep);
    }
  }

  /** Joining the pieces of a split with the same separator gives back the string. */
  lemma {:induction false} JoinSplit(s: string, sep: string)
    requires |sep| > 0
    ensures Join(Split(s, sep), sep) == s
    decreases |s|
  {
    if |s| < |sep| {
    } else if sep <= s {
      var rest := Split(s[|sep|..], sep);
      assert Split(s, sep) == [""] + rest;
      JoinSplit(s[|sep|..], sep);
      JoinCons("", rest, sep);
      assert s == sep + s[|sep|..];
    } else {
      var rest := Split(s[1..], sep);
      assert Split(s, sep) == [[s[0]] + rest[0]] + rest[1..];
      JoinSplit(s[1..], sep);
      JoinPrependChar(s[0], rest, sep);
      assert s == [s[0]] + s[1..];
    }
  }

  /** The first piece of a split is the text before the first occurrence of
      the separator, or the whole string when the separator does not occur. */
  lemma {:induction false} SplitFirst(s: string, sep: string)
    requires |sep| > 0
    ensures Split(s, sep)[0] <= s && !Contains(Split(s, sep)[0], sep)
    ensures |Split(s, sep)| == 1 <==> !Contains(s, sep)
    ensures |Split(s, sep)| == 1 ==> Split(s, sep)[0] == s
    ensures |Split(s, sep)| > 1 ==> Split(s, sep)[0] + sep <= s
    decreases |s|
  {
    if |s| < |sep| {
      ContainsShorter(s, sep);
    } else if !(sep <= s) {
      var rest := Split(s[1..], sep);
      SplitFirst(s[1..], sep);
      PrefixExtend(s, sep, rest[0]);
      PrefixCons(s, rest[0], sep);
      assert Split(s, sep) == [[s[0]] + rest[0]] + rest[1..];
    }
  }

  /** A separator-free prefix of `s[1..]`, with `s[0]` put back, is a
      separator-free prefix of `s` when no separator starts at `s[0]`. */
  lemma PrefixExtend(s: string, sep: string, q: string)
    requires |sep| > 0 && |s| >= 1 && !(sep <= s) && q <= s[1..] && !Contains(q, sep)
    ensures [s[0]] + q <= s && !Contains([s[0]] + q, sep)
  {
    var p := [s[0]] + q;
    assert p[1..] == q;
    if |sep| <= |p| {
      assert p[..|sep|] == s[..|sep|];
    }
  }

  /** Putting `s[0]` back in front of a prefix of `s[1..]`. */
  lemma PrefixCons(s: string, q: string, sep: string)
    requires |s| >= 1
    ensures q == s[1..] ==> [s[0]] + q == s
    ensures q + sep <= s[1..] ==> [s[0]] + q + sep <= s
  {
    assert s == [s[0]] + s[1..];
    assert [s[0]] + q + sep == [s[0]] + (q + sep);
  }

  /** A one-character separator never occurs inside a piece of the split. */
  lemma {:induction false} SplitPiecesFree(s: string, c: char)
    ensures forall k, i :: 0 <= k < |Split(s, [c])| && 0 <= i < |Split(s, [c])[k]| ==> Split(s, [c])[k][i] != c
    decreases |s|
  {
    if |s| < 1 {
    } else if [c] <= s {
      SplitPiecesFree(s[1..], c);
    } else {
      SplitPiecesFree(s[1..], c);
      var rest := Split(s[1..], [c]);
      assert Split(s, [c]) == [[s[0]] + rest[0]] + rest[1..];
      forall k, i | 0 <= k < |Split(s, [c])| && 0 <= i < |Split(s, [c])[k]|
        ensures Split(s, [c])[k][i] != c
      {
        if k == 0 {
          if i > 0 { assert Split(s, [c])[0][i] == rest[0][i - 1]; }
        } else {
          assert Split(s, [c])[k] == rest[k];
        }
      }
    }
  }

  /** A piece without the separator character and then the separator: the
      split starts with that piece. */
  lemma {:induction false} SplitAfterPiece(p: string, c: char, rest: string)
    requires c !in p
    ensures Split(p + [c] + rest, [c]) == [p] + Split(rest, [c])
    decreases |p|
  {
    var s := p + [c] + rest;
    if p == [] {
      assert s == [c] + rest;
      assert s[1..] == rest;
    } else {
      assert s[0] == p[0] && s[1..] == p[1..] + [c] + rest;
      SplitAfterPiece(p[1..], c, rest);
      assert [p[0]] + p[1..] == p;
    }
  }

  /** A string without the separator character splits into itself. */
  lemma {:induction false} SplitWithout(p: string, c: char)
    requires c !in p
    ensures Split(p, [c]) == [p]
    decreases |p|
  {
    if p != [] {
      SplitWithout(p[1..], c);
      assert [p[0]] + p[1..] == p;
    }
  }

  /** Splitting a join at a one-character separator that no piece contains
      gives back the pieces. */
  lemma {:induction false} SplitJoin(parts: seq<string>, c: char)
    requires |parts| > 0 && forall k :: k in parts ==> c !in k
    ensures Split(Join(parts, [c]), [c]) == parts
  {
    if |parts| == 1 {
      SplitWithout(parts[0], c);
    } else {
      var tail := parts[1..];
      var j := Join(tail, [c]);
      assert Join(parts, [c]) == parts[0] + [c] + j;
      assert parts[0] in parts;
      SplitAfterPiece(parts[0], c, j);
      assert forall k :: k in tail ==> k in parts;
      SplitJoin(tail, c);
      assert parts == [parts[0]] + tail;
    }
  }

  // ---------------------------------------------------------------------
  // replace

  /** `s.replace("", rep)`: `rep` before every character and at the end. */
  function ReplaceEmpty(s: string, rep: string): string
  {
    if s == [] then rep else rep + [s[0]] + ReplaceEmpty(s[1..], rep)
  }

  /** `s.replace(pat, rep)`: every non-overlapping occurrence of `pat`, found
      left to right, is replaced by `rep`. */
  function ReplaceAll(s: string, pat: string, rep: string): string
    decreases |s|
  {
    if |pat| == 0 then ReplaceEmpty(s, rep)
    else if |s| < |pat| then s
    else if pat <= s then rep + ReplaceAll(s[|pat|..], pat, rep)
    else [s[0]] + ReplaceAll(s[1..], pat, rep)
  }

  /** Replacement is joining the split pieces with the replacement: the same
      occurrences are found by both. */
  lemma {:induction false} ReplaceIsSplitJoin(s: string, pat: string, rep: string)
    requires |pat| > 0
    ensures ReplaceAll(s, pat, rep) == Join(Split(s, pat), rep)
    decreases |s|
  {
    if |s| < |pat| {
    } else if pat <= s {
      ReplaceIsSplitJoin(s[|pat|..], pat, rep);
      JoinCons("", Split(s[|pat|..], pat), rep);
    } else {
      ReplaceIsSplitJoin(s[1..], pat, rep);
      JoinPrependChar(s[0], Split(s[1..], pat), rep);
    }
  }

  /** A string without an occurrence of the pattern is not changed by replacing it. */
  lemma {:induction false} ReplaceAbsent(s: string, pat: string, rep: string)
    requires !Contains(s, pat)
    ensures ReplaceAll(s, pat, rep) == s
    decreases |s|
  {
    assert |pat| > 0;
    if |s| >= |pat| {
      assert !(pat <= s);
      ReplaceAbsent(s[1..], pat, rep);
      assert s == [s[0]] + s[1..];
    }
  }

  /** Replacing a single character by another maps that character and keeps
      every other one in place. */
  lemma {:induction false} ReplaceCharByChar(s: string, c: char, d: char)
    ensures |ReplaceAll(s, [c], [d])| == |s|
    ensures forall i :: 0 <= i < |s| ==> ReplaceAll(s, [c], [d])[i] == if s[i] == c then d else s[i]
    decreases |s|
  {
    if |s| >= 1 {
      ReplaceCharByChar(s[1..], c, d);
      assert [c] <= s <==> s[0] == c;
      var r := ReplaceAll(s, [c], [d]);
      assert r == [if s[0] == c then d else s[0]] + ReplaceAll(s[1..], [c], [d]);
    }
  }

  /** Replacing a single character by nothing removes exactly that character. */
  lemma {:induction false} ReplaceCharByNothing(s: string, c: char)
    ensures ReplaceAll(s, [c], "") == RemoveChar(s, c)
    decreases |s|
  {
    if |s| >= 1 {
      ReplaceCharByNothing(s[1..], c);
      assert s == [s[0]] + s[1..];
      assert [c] <= s <==> s[0] == c;
    }
  }

  /** The characters of `s` other than `c`, in order. */
  function RemoveChar(s: string, c: char): (r: string)
    ensures forall i :: 0 <= i < |r| ==> r[i] != c
    ensures forall x :: x in r <==> x in s && x != c
  {
    if s == [] then [] else (if s[0] == c then [] else [s[0]]) + RemoveChar(s[1..], c)
  }

  // ---------------------------------------------------------------------
  // sequences of tokens

  /** The non-empty strings of `s`, in order (`[k for k in s if k]`). */
  function NonEmpty(s: seq<string>): seq<string>
  {
    if s == [] then [] else (if s[0] == "" then [] else [s[0]]) + NonEmpty(s[1..])
  }

  /** Dropping empties keeps exactly the non-empty strings. */
  lemma {:induction false} NonEmptySpec(s: seq<string>)
    ensures forall k :: k in NonEmpty(s) <==> k in s && k != ""
  {
    if s != [] {
      NonEmptySpec(s[1..]);
      assert s == [s[0]] + s[1..];
    }
  }

  lemma NonEmptyAppend(a: seq<string>, b: seq<string>)
    ensures NonEmpty(a + b) == NonEmpty(a) + NonEmpty(b)
  {
    if a != [] {
      assert (a + b)[0] == a[0];
      assert (a + b)[1..] == a[1..] + b;
      NonEmptyAppend(a[1..], b);
      assert NonEmpty(a + b) == (if a[0] == "" then [] else [a[0]]) + NonEmpty(a[1..] + b);
    } else {
      assert a + b == b;
    }
  }

  /** `[f(x) for x in s]`. */
  function MapStrings(s: seq<string>, f: string -> string): seq<string>
  {
    if s == [] then [] else [f(s[0])] + MapStrings(s[1..], f)
  }

  /** The comprehension has one entry per element: entry `i` is `f(s[i])`. */
  lemma {:induction false} MapStringsSpec(s: seq<string>, f: string -> string)
    ensures |MapStrings(s, f)| == |s| && forall i :: 0 <= i < |s| ==> MapStrings(s, f)[i] == f(s[i])
  {
    if s != [] {
      MapStringsSpec(s[1..], f);
      var m := MapStrings(s, f);
      assert m == [f(s[0])] + MapStrings(s[1..], f);
      forall i | 0 <= i < |s| ensures m[i] == f(s[i]) {
        if i > 0 {
          assert m[i] == MapStrings(s[1..], f)[i - 1] && s[i] == s[1..][i - 1];
        }
      }
    }
  }

  /** `[k.strip() for k in s]`. */
  function MapStrip(s: seq<string>): seq<string>
  {
    MapStrings(s, Strip)
  }

  lemma MapStripSpec(s: seq<string>)
    ensures |MapStrip(s)| == |s| && forall i :: 0 <= i < |s| ==> MapStrip(s)[i] == Strip(s[i])
  {
    MapStringsSpec(s, Strip);
  }

  lemma SliceSubset<T>(s: seq<T>, i: nat, j: nat)
    requires i <= j <= |s|
    ensures forall x :: x in s[i..j] ==> x in s
  {
    forall x | x in s[i..j] ensures x in s {
      var k :| 0 <= k < j - i && s[i..j][k] == x;
      assert s[i + k] == x;
    }
  }

  /** Stripping only removes characters. */
  lemma StripSubset(s: string)
    ensures forall x :: x in Strip(s) ==> x in s
  {
    StripSliceAt(s);
    var i := |s| - |TrimLeft(s)|;
    SliceSubset(s, i, i + |Strip(s)|);
  }

  predicate NoDuplicates<T(==)>(s: seq<T>) {
    forall i, j :: 0 <= i < j < |s| ==> s[i] != s[j]
  }

  /** The first occurrence of every element, in order of first occurrence:
      `s[i]` is kept exactly when it does not occur in `s[..i]`. */
  function Dedup<T(==)>(s: seq<T>): seq<T>
  {
    if s == [] then []
    else
      var p := s[..|s| - 1];
      if s[|s| - 1] in p then Dedup(p) else Dedup(p) + [s[|s| - 1]]
  }

  /** Deduplication keeps exactly the elements, and keeps each once. */
  lemma {:induction false} DedupSpec<T>(s: seq<T>)
    ensures forall x :: x in Dedup(s) <==> x in s
    ensures NoDuplicates(Dedup(s))
  {
    if s != [] {
      var p := s[..|s| - 1];
      DedupSpec(p);
      assert s == p + [s[|s| - 1]];
    }
  }

  /** A sequence without duplicates is its own deduplication. */
  lemma {:induction false} DedupOfDistinct<T>(s: seq<T>)
    requires NoDuplicates(s)
    ensures Dedup(s) == s
  {
    if s != [] {
      var p := s[..|s| - 1];
      DedupOfDistinct(p);
      assert s == p + [s[|s| - 1]];
    }
  }

  // ---------------------------------------------------------------------
  // integers as text

  function DigitChar(d: nat): char
    requires d < 10
  {
    "0123456789"[d]
  }

  predicate IsDigit(c: char) { '0' <= c <= '9' }

  function DigitValue(c: char): nat
    requires IsDigit(c)
  {
    (c as int - '0' as int) as nat
  }

  function NatToString(n: nat): (r: string)
    ensures |r| > 0 && forall i :: 0 <= i < |r| ==> IsDigit(r[i])
  {
    if n < 10 then [DigitChar(n)] else NatToString(n / 10) + [DigitChar(n % 10)]
  }

  /** `str(n)` for a Python `int`. */
  function IntToString(n: int): (r: string)
    ensures |r| > 0
  {
    if n < 0 then "-" + NatToString(-n) else NatToString(n)
  }

  predicate AllDigits(s: string) {
    |s| > 0 && forall i :: 0 <= i < |s| ==> IsDigit(s[i])
  }

  function ParseDigits(s: string): nat
    requires forall i :: 0 <= i < |s| ==> IsDigit(s[i])
  {
    if s == [] then 0 else ParseDigits(s[..|s| - 1]) * 10 + DigitValue(s[|s| - 1])
  }

  /** An optional sign followed by ASCII digits. */
  predicate IsIntLiteral(s: string) {
    AllDigits(s) || (|s| > 1 && (s[0] == '+' || s[0] == '-') && AllDigits(s[1..]))
  }

  function ParseInt(s: string): int
    requires IsIntLiteral(s)
  {
    if AllDigits(s) then ParseDigits(s)
    else if s[0] == '-' then -(ParseDigits(s[1..]) as int)
    else ParseDigits(s[1..])
  }

  lemma {:induction false} ParseNatToString(n: nat)
    ensures ParseDigits(NatToString(n)) == n
  {
    if n >= 10 {
      ParseNatToString(n / 10);
      var r := NatToString(n);
      assert r[..|r| - 1] == NatToString(n / 10);
    }
  }

  /** The decimal text of an integer is an integer literal that parses back to it. */
  lemma IntToStringRoundTrip(n: int)
    ensures IsIntLiteral(IntToString(n))
    ensures ParseInt(IntToString(n)) == n
  {
    if n < 0 {
      NegativeRoundTrip(-n);
      assert IntToString(n) == "-" + NatToString(-n);
    } else {
      ParseNatToString(n);
    }
  }

  lemma NegativeRoundTrip(m: nat)
    ensures var r := "-" + NatToString(m);
            IsIntLiteral(r) && ParseInt(r) == -(m as int)
  {
    var d := NatToString(m);
    var r := "-" + d;
    ParseNatToString(m);
    assert r[1..] == d;
    assert !AllDigits(r) by { assert !IsDigit(r[0]); }
  }

  lemma IntToStringNoSpace(n: int)
    ensures NoSpace(IntToString(n))
  {
    var d := NatToString(if n < 0 then -n else n);
    assert forall i :: 0 <= i < |d| ==> !IsSpace(d[i]);
  }
}
