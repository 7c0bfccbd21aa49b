/** `parse_multi_choice(val, choices_map)`: the labels a reply selects, either
    by selector key ("1") or by case-insensitive label ("ad"), without
    duplicates and in the order they were first selected. */
module MultiChoice {
  import opened Wrappers
  import opened Text

  /** One entry of the `choices` dictionary, in the dictionary's order. */
  datatype Choice = Choice(key: string, value: string)

  ghost predicate IsLabel(choices: seq<Choice>, x: string) {
    exists k :: 0 <= k < |choices| && choices[k].value == x
  }

  /** Entry `k` is the first entry whose key is `p`. */
  ghost predicate FirstKeyAt(choices: seq<Choice>, p: string, k: int) {
    0 <= k < |choices| && choices[k].key == p && forall j :: 0 <= j < k ==> choices[j].key != p
  }

  /** `choices_map[p]` when `p in choices_map`; a dictionary has one entry per key,
      so the first entry with that key is the one. */
  function LabelFor(choices: seq<Choice>, p: string): (r: Option<string>)
    ensures r.None? <==> forall k :: 0 <= k < |choices| ==> choices[k].key != p
    ensures r.Some? ==> IsLabel(choices, r.value)
  {
    if choices == [] then None
    else if choices[0].key == p then Some(choices[0].value)
    else
      var r := LabelFor(choices[1..], p);
      assert r.Some? ==> IsLabel(choices[1..], r.value);
      r
  }

  /** `LabelFor` answers with the label of the first entry whose key is `p`. */
  lemma {:induction false} LabelForFirstKey(choices: seq<Choice>, p: string, k: int)
    requires FirstKeyAt(choices, p, k)
    ensures LabelFor(choices, p) == Some(choices[k].value)
    decreases |choices|
  {
    if k > 0 {
      assert FirstKeyAt(choices[1..], p, k - 1);
      LabelForFirstKey(choices[1..], p, k - 1);
    }
  }

  /** The labels `v` with `p == v.lower()`, in dictionary order: what the inner
      loop over `choices_map.values()` appends. */
  function LabelsNamed(p: string, choices: seq<Choice>): (r: seq<string>)
    ensures forall x :: x in r ==> IsLabel(choices, x) && Lower(x) == p
  {
    if choices == [] then []
    else
      var init := choices[..|choices| - 1];
      var last := choices[|choices| - 1];
      var r := LabelsNamed(p, init);
      assert forall x :: x in r ==> IsLabel(init, x) ==> IsLabel(choices, x) by {
        forall x | x in r && IsLabel(init, x) ensures IsLabel(choices, x) {
          var k :| 0 <= k < |init| && init[k].value == x;
          assert choices[k].value == x;
        }
      }
      r + (if p == Lower(last.value) then [last.value] else [])
  }

  /** Every label `v` with `v.lower() == p` is among `LabelsNamed(p, choices)`. */
  lemma {:induction false} LabelsNamedComplete(p: string, choices: seq<Choice>, k: int)
    requires 0 <= k < |choices| && Lower(choices[k].value) == p
    ensures choices[k].value in LabelsNamed(p, choices)
    decreases |choices|
  {
    var init := choices[..|choices| - 1];
    if k < |init| {
      LabelsNamedComplete(p, init, k);
      assert init[k] == choices[k];
    }
  }

  /** What one token of the reply appends to `selected`. */
  function Matches(p: string, choices: seq<Choice>): (r: seq<string>)
    ensures forall x :: x in r ==> IsLabel(choices, x)
  {
    match LabelFor(choices, p)
    case Some(v) => [v]
    case None => LabelsNamed(p, choices)
  }

  /** `selected` after the loop over the tokens `parts`. */
  function Selection(parts: seq<string>, choices: seq<Choice>): (r: seq<string>)
    ensures forall x :: x in r ==> IsLabel(choices, x)
  {
    if parts == [] then []
    else Selection(parts[..|parts| - 1], choices) + Matches(parts[|parts| - 1], choices)
  }

  /** The elements of `xs` without repeats, each kept where it first occurs:
      what the source's second loop leaves in `out`. */
  function Dedup(xs: seq<string>): (r: seq<string>)
    ensures |r| <= |xs| && forall x :: x in r ==> x in xs
  {
    if xs == [] then []
    else
      var d := Dedup(xs[..|xs| - 1]);
      var x := xs[|xs| - 1];
      if x in d then d else d + [x]
  }

  ghost predicate NoDuplicates(r: seq<string>) {
    forall a, b :: 0 <= a < b < |r| ==> r[a] != r[b]
  }

  /** Whenever `r[a]` comes before `r[b]` in `r`, `r[a]` occurs in `xs` before
      every occurrence of `r[b]`. */
  ghost predicate FirstOccurrenceOrder(r: seq<string>, xs: seq<string>) {
    forall a, b, i :: 0 <= a < b < |r| && 0 <= i < |xs| && xs[i] == r[b] ==> r[a] in xs[..i]
  }

  /** `Dedup` keeps each element of `xs` exactly once, in first-occurrence order. */
  lemma {:induction false} DedupIsFirstOccurrences(xs: seq<string>)
    ensures NoDuplicates(Dedup(xs))
    ensures forall x :: x in Dedup(xs) <==> x in xs
    ensures FirstOccurrenceOrder(Dedup(xs), xs)
  {
    if xs != [] {
      var ys := xs[..|xs| - 1];
      var x := xs[|xs| - 1];
      var d := Dedup(ys);
      DedupIsFirstOccurrences(ys);
      assert xs == ys + [x];
      var r := Dedup(xs);
      forall a, b, i | 0 <= a < b < |r| && 0 <= i < |xs| && xs[i] == r[b]
        ensures r[a] in xs[..i]
      {
        assert r[a] == d[a];
        if i < |ys| {
          assert xs[..i] == ys[..i];
          assert ys[i] == xs[i];
        } else {
          assert r[a] in ys;
          assert xs[..i] == ys;
        }
      }
    }
  }

  /** The lower-cased, stripped reply split at commas and whitespace. */
  function Tokens(val: string): (r: seq<string>)
    ensures |r| >= 1 && forall k :: 0 <= k < |r| ==> NoSeparator(r[k])
    ensures Trim(val) == "" ==> r == [""]
  {
    Split(Lower(Trim(val)))
  }

  /** The result of `parse_multi_choice(val, choices)`. */
  function MultiChoiceSelection(val: string, choices: seq<Choice>): (r: seq<string>)
    ensures val == "" ==> r == []
  {
    if val == "" then [] else Dedup(Selection(Tokens(val), choices))
  }

  /** Everything `parse_multi_choice` promises: only labels of `choices`,
      none twice, every label selected by some token, in the order in
      which the tokens first selected them. */
  lemma MultiChoiceSelectionMeaning(val: string, choices: seq<Choice>)
    ensures var r := MultiChoiceSelection(val, choices);
      && (val == "" ==> r == [])
      && (forall x :: x in r ==> IsLabel(choices, x))
      && NoDuplicates(r)
      && (val != "" ==> forall x :: x in r <==> x in Selection(Tokens(val), choices))
      && (val != "" ==> FirstOccurrenceOrder(r, Selection(Tokens(val), choices)))
  {
    if val != "" {
      DedupIsFirstOccurrences(Selection(Tokens(val), choices));
    }
  }

  /** Whatever token `i` selects is in the selection of all the tokens. */
  lemma {:induction false} MatchesInSelection(parts: seq<string>, choices: seq<Choice>, i: int, x: string)
    requires 0 <= i < |parts| && x in Matches(parts[i], choices)
    ensures x in Selection(parts, choices)
    decreases |parts|
  {
    var init := parts[..|parts| - 1];
    var last := Matches(parts[|parts| - 1], choices);
    assert Selection(parts, choices) == Selection(init, choices) + last;
    if i < |init| {
      assert init[i] == parts[i];
      MatchesInSelection(init, choices, i, x);
    }
  }

  /** A token that is a key selects the label of the first entry with that key. */
  lemma KeySelected(val: string, choices: seq<Choice>, i: int, k: int)
    requires val != "" && 0 <= i < |Tokens(val)| && FirstKeyAt(choices, Tokens(val)[i], k)
    ensures choices[k].value in MultiChoiceSelection(val, choices)
  {
    var parts := Tokens(val);
    LabelForFirstKey(choices, parts[i], k);
    assert Matches(parts[i], choices) == [choices[k].value];
    MatchesInSelection(parts, choices, i, choices[k].value);
    DedupIsFirstOccurrences(Selection(parts, choices));
  }

  /** A token that is no key selects every label whose lower-case form it is. */
  lemma LabelSelected(val: string, choices: seq<Choice>, i: int, k: int)
    requires val != "" && 0 <= i < |Tokens(val)|
    requires forall j :: 0 <= j < |choices| ==> choices[j].key != Tokens(val)[i]
    requires 0 <= k < |choices| && Lower(choices[k].value) == Tokens(val)[i]
    ensures choices[k].value in MultiChoiceSelection(val, choices)
  {
    var parts := Tokens(val);
    LabelsNamedComplete(parts[i], choices, k);
    assert Matches(parts[i], choices) == LabelsNamed(parts[i], choices);
    MatchesInSelection(parts, choices, i, choices[k].value);
    DedupIsFirstOccurrences(Selection(parts, choices));
  }

  /** `parse_multi_choice`: the loop over the tokens, then the loop that drops repeats. */
  method ParseMultiChoice(val: string, choices: seq<Choice>) returns (out: seq<string>)
    ensures out == MultiChoiceSelection(val, choices)
  {
    if val == "" {
      return [];
    }
    var parts := Split(Lower(Trim(val)));
    var selected: seq<string> := [];
    var i := 0;
    while i < |parts|
      invariant 0 <= i <= |parts|
      invariant selected == Selection(parts[..i], choices)
    {
      assert parts[..i + 1][..i] == parts[..i];
      assert Selection(parts[..i + 1], choices) == selected + Matches(parts[i], choices);
      var matched := MatchToken(parts[i], choices);
      selected := selected + matched;
      i := i + 1;
    }
    assert parts[..i] == parts;
    out := RemoveRepeats(selected);
  }

  /** The body of the loop over the tokens: the label of a key, else the
      labels named by the token. */
  method MatchToken(p: string, choices: seq<Choice>) returns (matched: seq<string>)
    ensures matched == Matches(p, choices)
  {
    match LabelFor(choices, p) {
      case Some(v) =>
        matched := [v];
      case None =>
        matched := ValuesNamed(p, choices);
    }
  }

  /** The inner loop over `choices_map.values()` for a token that is not a key. */
  method ValuesNamed(p: string, choices: seq<Choice>) returns (named: seq<string>)
    ensures named == LabelsNamed(p, choices)
  {
    named := [];
    var k := 0;
    while k < |choices|
      invariant 0 <= k <= |choices|
      invariant named == LabelsNamed(p, choices[..k])
    {
      assert choices[..k + 1][..k] == choices[..k];
      if p == Lower(choices[k].value) {
        named := named + [choices[k].value];
      }
      k := k + 1;
    }
    assert choices[..k] == choices;
  }

  /** The second loop of `parse_multi_choice`: it keeps each label where it
      first occurs and skips its repeats. */
  method RemoveRepeats(selected: seq<string>) returns (out: seq<string>)
    ensures out == Dedup(selected)
  {
    out := [];
    var j := 0;
    while j < |selected|
      invariant 0 <= j <= |selected|
      invariant out == Dedup(selected[..j])
    {
      assert selected[..j + 1][..j] == selected[..j];
      if selected[j] !in out {
        out := out + [selected[j]];
      }
      j := j + 1;
    }
    assert selected[..j] == selected;
  }

  // ---------------------------------------------------------------------
  // The revenue-source question, `{"1": "IAP", "2": "Subscription", "3": "Ad"}`

  lemma LabelForOfThree(p: string, a: Choice, b: Choice, c: Choice)
    ensures LabelFor([a, b, c], p) ==
      if a.key == p then Some(a.value) else if b.key == p then Some(b.value)
      else if c.key == p then Some(c.value) else None
  {
    assert [a, b, c][1..] == [b, c];
    assert [b, c][1..] == [c];
    assert [c][1..] == [];
    assert LabelFor([c], p) == if c.key == p then Some(c.value) else None;
    assert LabelFor([b, c], p) == if b.key == p then Some(b.value) else LabelFor([c], p);
    assert LabelFor([a, b, c], p) == if a.key == p then Some(a.value) else LabelFor([b, c], p);
  }

  lemma LabelsNamedOfThree(p: string, a: Choice, b: Choice, c: Choice)
    ensures LabelsNamed(p, [a, b, c]) ==
      (if p == Lower(a.value) then [a.value] else []) +
      (if p == Lower(b.value) then [b.value] else []) +
      (if p == Lower(c.value) then [c.value] else [])
  {
    assert [a, b, c][..2] == [a, b];
    assert [a, b][..1] == [a];
    assert [a][..0] == [];
    assert LabelsNamed(p, [a]) == if p == Lower(a.value) then [a.value] else [];
    assert LabelsNamed(p, [a, b]) == LabelsNamed(p, [a]) + if p == Lower(b.value) then [b.value] else [];
    assert LabelsNamed(p, [a, b, c]) == LabelsNamed(p, [a, b]) + if p == Lower(c.value) then [c.value] else [];
  }

  lemma SelectionOfTwo(p: string, q: string, choices: seq<Choice>)
    ensures Selection([p, q], choices) == Matches(p, choices) + Matches(q, choices)
  {
    assert [p, q][..1] == [p];
    assert [p][..0] == [];
    assert Selection([p], choices) == Matches(p, choices);
  }

  lemma DedupOfTwo(x: string, y: string)
    ensures Dedup([x, y]) == if x == y then [x] else [x, y]
  {
    assert [x, y][..1] == [x];
    assert [x][..0] == [];
    assert Dedup([x]) == [x];
  }

  /** `a`, `b`, `c` are the entries of the revenue-source question, in order.
      The examples below take the reply's characters and these entries as
      parameters that their preconditions fix to the literal values: stated on
      the literals themselves, every function would be evaluated on the
      literal strings, which costs the verifier far more than reasoning about
      the named parameters. */
  ghost predicate RevenueSourceChoices(a: Choice, b: Choice, c: Choice) {
    && a == Choice("1", "IAP") && b == Choice("2", "Subscription") && c == Choice("3", "Ad")
  }

  /** Two digit keys separated by a comma, such as "1,3", are two tokens. */
  lemma TwoKeyTokens(x: char, y: char)
    requires '0' <= x <= '9' && '0' <= y <= '9'
    ensures Tokens([x, ',', y]) == [[x], [y]]
  {
    PlainTokens([x, ',', y]);
    SplitTwoKeys(x, y);
  }

  /** A reply without upper-case letters and without whitespace at either
      end is split as it is. */
  lemma PlainTokens(val: string)
    requires val != [] && !IsSpace(val[0]) && !IsSpace(val[|val| - 1])
    requires forall i :: 0 <= i < |val| ==> !('A' <= val[i] <= 'Z')
    ensures Tokens(val) == Split(val)
  {
    TrimPlain(val);
    LowerPlain(val);
  }

  lemma SplitTwoKeys(x: char, y: char)
    requires '0' <= x <= '9' && '0' <= y <= '9'
    ensures Split([x, ',', y]) == [[x], [y]]
  {
    assert [x, ',', y] == [x] + [','] + [y];
    SplitFirst([x], ',', [y]);
    SplitPlainChar(y);
  }

  /** A reply of two keys selects what each key selects, without repeats. */
  lemma SelectTwoKeys(x: char, y: char, choices: seq<Choice>)
    requires '0' <= x <= '9' && '0' <= y <= '9'
    ensures MultiChoiceSelection([x, ',', y], choices) == Dedup(Matches([x], choices) + Matches([y], choices))
  {
    TwoKeyTokens(x, y);
    SelectionOfTwo([x], [y], choices);
  }

  /** The reply "1,3" of the prompt's own example selects IAP and Ad. */
  lemma SelectByKeys(x: char, y: char, a: Choice, b: Choice, c: Choice)
    requires x == '1' && y == '3' && RevenueSourceChoices(a, b, c)
    ensures MultiChoiceSelection([x, ',', y], [a, b, c]) == ["IAP", "Ad"]
  {
    SelectTwoKeys(x, y, [a, b, c]);
    LabelForOfThree([x], a, b, c);
    LabelForOfThree([y], a, b, c);
    assert Matches([x], [a, b, c]) + Matches([y], [a, b, c]) == [a.value, c.value];
    DedupOfTwo(a.value, c.value);
  }

  /** A key given twice, "1,1", selects its label once. */
  lemma SelectRepeatedKey(x: char, a: Choice, b: Choice, c: Choice)
    requires x == '1' && RevenueSourceChoices(a, b, c)
    ensures MultiChoiceSelection([x, ',', x], [a, b, c]) == ["IAP"]
  {
    SelectTwoKeys(x, x, [a, b, c]);
    LabelForOfThree([x], a, b, c);
    assert Matches([x], [a, b, c]) == [a.value];
    DedupOfTwo(a.value, a.value);
  }

  /** A single digit key is one token. */
  lemma OneKeyToken(x: char)
    requires '0' <= x <= '9'
    ensures Tokens([x]) == [[x]]
  {
    PlainTokens([x]);
    SplitPlainChar(x);
  }

  lemma SplitPlainChar(x: char)
    requires '0' <= x <= '9'
    ensures Split([x]) == [[x]]
  {
    assert [x][1..] == [];
  }

  /** No revenue-source label is one character long, so no one-character
      token names a label. */
  lemma ShortTokenNamesNothing(p: string, a: Choice, b: Choice, c: Choice)
    requires |p| == 1 && RevenueSourceChoices(a, b, c)
    ensures LabelsNamed(p, [a, b, c]) == []
  {
    LabelsNamedOfThree(p, a, b, c);
    assert |Lower(a.value)| == 3 && |Lower(b.value)| == 12 && |Lower(c.value)| == 2;
  }

  /** A token that is neither a key nor a label selects nothing, so the
      reply "4" is refused. */
  lemma UnknownKey(x: char, a: Choice, b: Choice, c: Choice)
    requires x == '4' && RevenueSourceChoices(a, b, c)
    ensures MultiChoiceSelection([x], [a, b, c]) == []
  {
    OneKeyToken(x);
    LabelForOfThree([x], a, b, c);
    ShortTokenNamesNothing([x], a, b, c);
    assert Matches([x], [a, b, c]) == [];
    assert [[x]][..0] == [];
    assert Selection([[x]], [a, b, c]) == [];
  }
}
