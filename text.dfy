/** The handful of Python string operations the bot relies on: `str.strip()`,
    `str.lower()`, `str.startswith`, the `in` substring test, `re.split`
    on runs of commas and whitespace, and `str.join`. */
module Text {

  /** Python's `str.isspace()` for one character: the set that `str.strip()`
      removes and that the regular-expression class `\s` matches. */
  predicate IsSpace(c: char) {
    || c == ' '
    || '\t' <= c <= '\r'
    || '\U{1C}' <= c <= '\U{1F}'
    || c == '\U{85}' || c == '\U{A0}' || c == '\U{1680}'
    || '\U{2000}' <= c <= '\U{200A}'
    || c == '\U{2028}' || c == '\U{2029}' || c == '\U{202F}'
    || c == '\U{205F}' || c == '\U{3000}'
  }

  /** `s.lstrip()`: the suffix of `s` left once the leading whitespace is dropped. */
  function TrimStart(s: string): (r: string)
    ensures |r| <= |s| && r == s[|s| - |r|..]
    ensures forall i :: 0 <= i < |s| - |r| ==> IsSpace(s[i])
    ensures r != [] ==> !IsSpace(r[0])
    decreases |s|
  {
    if s != [] && IsSpace(s[0]) then TrimStart(s[1..]) else s
  }

  /** `s.rstrip()`: the prefix of `s` left once the trailing whitespace is dropped. */
  function TrimEnd(s: string): (r: string)
    ensures |r| <= |s| && r == s[..|r|]
    ensures forall i :: |r| <= i < |s| ==> IsSpace(s[i])
    ensures r != [] ==> !IsSpace(r[|r| - 1])
    decreases |s|
  {
    if s != [] && IsSpace(s[|s| - 1]) then TrimEnd(s[..|s| - 1]) else s
  }

  /** `s.strip()`: what is left of `s` once the `a` leading and the trailing
      whitespace characters are dropped. */
  function Trim(s: string): (r: string)
    ensures |r| <= |s|
    ensures var a := |s| - |TrimStart(s)|;
      && a + |r| <= |s| && r == s[a..][..|r|]
      && (forall k :: 0 <= k < a ==> IsSpace(s[k]))
      && (forall k :: a + |r| <= k < |s| ==> IsSpace(s[k]))
    ensures r != [] ==> !IsSpace(r[0]) && !IsSpace(r[|r| - 1])
  {
    var t := TrimStart(s);
    var r := TrimEnd(t);
    SpaceAfterPrefix(s, t, r);
    r
  }

  /** Whitespace after the prefix `r` of a suffix `t` of `s` is whitespace in `s`. */
  lemma SpaceAfterPrefix(s: string, t: string, r: string)
    requires |t| <= |s| && t == s[|s| - |t|..] && |r| <= |t|
    requires forall i :: |r| <= i < |t| ==> IsSpace(t[i])
    ensures forall k :: |s| - |t| + |r| <= k < |s| ==> IsSpace(s[k])
  {
    forall k | |s| - |t| + |r| <= k < |s| ensures IsSpace(s[k]) {
      assert s[k] == t[k - (|s| - |t|)];
    }
  }

  /** A string that neither starts nor ends with whitespace is its own strip,
      so stripping twice is stripping once. */
  lemma TrimIdempotent(s: string)
    ensures Trim(Trim(s)) == Trim(s)
  {
    var t := Trim(s);
    if t != [] {
      assert TrimStart(t) == t;
      assert TrimEnd(t) == t;
    }
  }

  /** `str.lower()` on one character, for the ASCII letters. */
  function LowerChar(c: char): char {
    if 'A' <= c <= 'Z' then (c as int + 32) as char else c
  }

  /** `s.lower()`: every character lowered, the length kept. */
  function Lower(s: string): (r: string)
    ensures |r| == |s|
    ensures forall i :: 0 <= i < |s| ==> r[i] == LowerChar(s[i])
  {
    if s == [] then [] else [LowerChar(s[0])] + Lower(s[1..])
  }

  /** A string with no whitespace at either end is its own strip. */
  lemma TrimPlain(s: string)
    requires s != [] && !IsSpace(s[0]) && !IsSpace(s[|s| - 1])
    ensures Trim(s) == s
  {
  }

  /** A string without upper-case letters is its own lower-case form. */
  lemma LowerPlain(s: string)
    requires forall i :: 0 <= i < |s| ==> !('A' <= s[i] <= 'Z')
    ensures Lower(s) == s
  {
  }

  /** `s.startswith(p)`. */
  function StartsWith(s: string, p: string): (r: bool)
    ensures r <==> |p| <= |s| && s[..|p|] == p
  {
    if p == [] then true
    else if s == [] then false
    else s[0] == p[0] && StartsWith(s[1..], p[1..])
  }

  /** `sub` occurs in `s` starting at index `i`. */
  predicate OccursAt(s: string, sub: string, i: int) {
    0 <= i && i + |sub| <= |s| && s[i..i + |sub|] == sub
  }

  /** Python's `sub in s`. */
  function Contains(s: string, sub: string): (r: bool)
    ensures r <==> exists i :: OccursAt(s, sub, i)
    decreases |s|
  {
    if StartsWith(s, sub) then
      assert OccursAt(s, sub, 0);
      true
    else if s == [] then
      assert forall i :: !OccursAt(s, sub, i);
      false
    else
      OccursShift(s, sub);
      Contains(s[1..], sub)
  }

  /** Dropping the first character of `s` shifts every occurrence left by one. */
  lemma OccursShift(s: string, sub: string)
    requires s != [] && !StartsWith(s, sub)
    ensures (exists i :: OccursAt(s, sub, i)) <==> (exists i :: OccursAt(s[1..], sub, i))
  {
    forall i | OccursAt(s, sub, i)
      ensures OccursAt(s[1..], sub, i - 1)
    {
      assert i != 0;
      assert s[1..][i - 1..i - 1 + |sub|] == s[i..i + |sub|];
    }
    forall i | OccursAt(s[1..], sub, i)
      ensures OccursAt(s, sub, i + 1)
    {
      assert s[1..][i..i + |sub|] == s[i + 1..i + 1 + |sub|];
    }
  }

  /** The separators of the pattern `[,\s]+`. */
  predicate IsSeparator(c: char) {
    c == ',' || IsSpace(c)
  }

  predicate NoSeparator(s: string) {
    forall i :: 0 <= i < |s| ==> !IsSeparator(s[i])
  }

  /** A word of ASCII letters holds no separator. */
  lemma LettersHaveNoSeparator(s: string)
    requires forall i :: 0 <= i < |s| ==> 'A' <= s[i] <= 'Z' || 'a' <= s[i] <= 'z'
    ensures NoSeparator(s)
  {
  }

  /** The index of the first separator of `s`, or `|s|` when there is none. */
  function FirstSeparator(s: string): (i: nat)
    ensures i <= |s| && NoSeparator(s[..i])
    ensures i < |s| ==> IsSeparator(s[i])
  {
    if s == [] || IsSeparator(s[0]) then 0 else 1 + FirstSeparator(s[1..])
  }

  /** The end of the run of separators that starts at index `i` of `s`. */
  function SeparatorRunEnd(s: string, i: nat): (j: nat)
    requires i <= |s|
    ensures i <= j <= |s|
    ensures forall k :: i <= k < j ==> IsSeparator(s[k])
    ensures j < |s| ==> !IsSeparator(s[j])
    decreases |s| - i
  {
    if i < |s| && IsSeparator(s[i]) then SeparatorRunEnd(s, i + 1) else i
  }

  /** `re.split(r"[,\s]+", s)`: the pieces between maximal runs of separators,
      with an empty first (last) piece when `s` starts (ends) with a separator,
      and `[""]` for the empty string. */
  function Split(s: string): (r: seq<string>)
    ensures |r| >= 1
    ensures forall k :: 0 <= k < |r| ==> NoSeparator(r[k])
    decreases |s|
  {
    var i := FirstSeparator(s);
    if i == |s| then [s]
    else
      var j := SeparatorRunEnd(s, i);
      [s[..i]] + Split(s[j..])
  }

  predicate AllSeparators(s: string) {
    forall i :: 0 <= i < |s| ==> IsSeparator(s[i])
  }

  /** The maximal runs of separators that `Split(s)` removes, in order. */
  function SeparatorRuns(s: string): (r: seq<string>)
    ensures |r| == |Split(s)| - 1
    ensures forall k :: 0 <= k < |r| ==> r[k] != [] && AllSeparators(r[k])
    decreases |s|
  {
    var i := FirstSeparator(s);
    if i == |s| then []
    else
      var j := SeparatorRunEnd(s, i);
      [s[i..j]] + SeparatorRuns(s[j..])
  }

  /** `parts[0] + seps[0] + parts[1] + ... + parts[|parts| - 1]`. */
  function Interleave(parts: seq<string>, seps: seq<string>): string
    requires |parts| == |seps| + 1
  {
    if seps == [] then parts[0] else parts[0] + seps[0] + Interleave(parts[1..], seps[1..])
  }

  /** The pieces of `Split(s)` with the separator runs put back between them
      give `s` again. */
  lemma {:induction false} SplitRebuilds(s: string)
    ensures Interleave(Split(s), SeparatorRuns(s)) == s
    decreases |s|
  {
    var i := FirstSeparator(s);
    if i < |s| {
      var j := SeparatorRunEnd(s, i);
      var t := s[j..];
      SplitRebuilds(t);
      SplitStep(s);
      InterleaveCons(s[..i], s[i..j], Split(t), SeparatorRuns(t));
      ThreeSlices(s, i, j);
    }
  }

  /** Only the first and the last piece of `Split(s)` can be empty: with
      `SplitRebuilds`, the pieces are the maximal separator-free runs of `s`
      and the removed runs its maximal runs of separators. */
  lemma {:induction false} SplitInnerPiecesNonEmpty(s: string)
    ensures forall k :: 0 < k < |Split(s)| - 1 ==> Split(s)[k] != []
    decreases |s|
  {
    var i := FirstSeparator(s);
    if i < |s| {
      var j := SeparatorRunEnd(s, i);
      var t := s[j..];
      SplitInnerPiecesNonEmpty(t);
      assert Split(s) == [s[..i]] + Split(t);
      if |Split(t)| >= 2 {
        SplitHeadNonEmpty(t);
      }
    }
  }

  /** One step of `Split` and `SeparatorRuns` at the first separator. */
  lemma SplitStep(s: string)
    requires FirstSeparator(s) < |s|
    ensures var i := FirstSeparator(s); var j := SeparatorRunEnd(s, i);
      && Split(s) == [s[..i]] + Split(s[j..])
      && SeparatorRuns(s) == [s[i..j]] + SeparatorRuns(s[j..])
  {
  }

  lemma ThreeSlices(s: string, i: nat, j: nat)
    requires i <= j <= |s|
    ensures s[..i] + s[i..j] + s[j..] == s
  {
  }

  lemma InterleaveCons(p: string, q: string, parts: seq<string>, seps: seq<string>)
    requires |parts| == |seps| + 1
    ensures Interleave([p] + parts, [q] + seps) == p + q + Interleave(parts, seps)
  {
    assert ([p] + parts)[1..] == parts && ([q] + seps)[1..] == seps;
  }

  /** A string that does not start with a separator and is split in two or
      more pieces has a non-empty first piece. */
  lemma SplitHeadNonEmpty(t: string)
    requires |Split(t)| >= 2 && (t == [] || !IsSeparator(t[0]))
    ensures Split(t)[0] != []
  {
    var f := FirstSeparator(t);
    assert f < |t|;
    assert Split(t)[0] == t[..f];
  }

  /** The first separator is the one that ends a separator-free prefix. */
  lemma {:induction false} FirstSeparatorAt(s: string, n: nat)
    requires n < |s| && NoSeparator(s[..n]) && IsSeparator(s[n])
    ensures FirstSeparator(s) == n
  {
    if n > 0 {
      assert s[..n][0] == s[0];
      assert s[1..][..n - 1] == s[1..n];
      assert forall k :: 0 <= k < n - 1 ==> s[1..n][k] == s[..n][k + 1];
      FirstSeparatorAt(s[1..], n - 1);
    }
  }

  /** A separator-free word followed by a single separator is split off as the first piece. */
  lemma SplitFirst(a: string, c: char, b: string)
    requires NoSeparator(a) && IsSeparator(c) && (b == [] || !IsSeparator(b[0]))
    ensures Split(a + [c] + b) == [a] + Split(b)
  {
    var s := a + [c] + b;
    assert s[..|a|] == a && s[|a|] == c;
    FirstSeparatorAt(s, |a|);
    assert s[|a| + 1..] == b;
    assert SeparatorRunEnd(s, |a| + 1) == |a| + 1;
  }

  /** `sep.join(parts)`: the parts in order, with `sep` between neighbours. */
  function Join(parts: seq<string>, sep: string): (r: string)
    ensures parts == [] ==> r == ""
    ensures |parts| >= 1 ==> |parts[0]| <= |r| && r[..|parts[0]|] == parts[0]
  {
    if parts == [] then ""
    else if |parts| == 1 then parts[0]
    else parts[0] + sep + Join(parts[1..], sep)
  }

  /** `sep.join(parts)` is the parts in order with exactly one `sep` between
      each two neighbours. */
  lemma {:induction false} JoinIsInterleave(parts: seq<string>, sep: string)
    requires |parts| >= 1
    ensures Join(parts, sep) == Interleave(parts, seq(|parts| - 1, _ => sep))
  {
    if |parts| > 1 {
      JoinIsInterleave(parts[1..], sep);
      assert seq(|parts| - 1, _ => sep)[1..] == seq(|parts[1..]| - 1, _ => sep);
    }
  }

  /** Splitting a comma-joined list of non-empty separator-free pieces gives
      the pieces back. */
  lemma {:induction false} SplitJoin(parts: seq<string>)
    requires |parts| >= 1
    requires forall k :: 0 <= k < |parts| ==> parts[k] != [] && NoSeparator(parts[k])
    ensures Split(Join(parts, ",")) == parts
  {
    var s := Join(parts, ",");
    var p := parts[0];
    if |parts| == 1 {
      assert NoSeparator(s);
    } else {
      var rest := Join(parts[1..], ",");
      SplitJoin(parts[1..]);
      JoinStartsWith(parts[1..]);
      assert s == p + [','] + rest;
      assert parts[1..][0] == parts[1];
      SplitFirst(p, ',', rest);
    }
  }

  /** A join of non-empty separator-free pieces starts with a character that
      is not a separator. */
  lemma {:induction false} JoinStartsWith(parts: seq<string>)
    requires |parts| >= 1
    requires forall k :: 0 <= k < |parts| ==> parts[k] != [] && NoSeparator(parts[k])
    ensures Join(parts, ",") != [] && Join(parts, ",")[0] == parts[0][0]
  {
    if |parts| > 1 {
      assert Join(parts, ",") == parts[0] + "," + Join(parts[1..], ",");
    }
  }
}
