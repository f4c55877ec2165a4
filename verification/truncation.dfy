/** Visual-width text truncation for post titles and summaries.

    A code unit in U+4E00..U+9FA5, U+3000..U+303F or U+FF00..U+FFEF is
    "wide" and weighs one unit; every other code unit weighs half a unit.
    The script keeps those weights as floating-point halves; here every
    weight and every total is counted in HALF-UNITS (wide = 2, other = 1),
    so a visual length `L` of the script is `2 * L` here and a budget
    `maxLength` is compared as `2 * maxLength`. That comparison is exact for
    the integer budgets the callers use. */
module TextTruncation {
  import opened JsString
  import opened Wrappers

  /** Budget for post titles, in whole units. */
  const TitleBudget := 26
  /** Budget for post summaries, in whole units. */
  const SummaryBudget := 32

  /** "..." */
  const Ellipsis: Text := [0x2E, 0x2E, 0x2E]

  /** The character class the script tests each code unit against. */
  predicate IsWide(u: CodeUnit) {
    || (0x4E00 <= u <= 0x9FA5)
    || (0x3000 <= u <= 0x303F)
    || (0xFF00 <= u <= 0xFFEF)
  }

  /** Weight of one code unit, in half-units. */
  function Weight(u: CodeUnit): nat {
    if IsWide(u) then 2 else 1
  }

  /** Visual length of `s` in half-units: the sum of the weights of its
      code units. Each unit weighs at least one and at most two. */
  function HalfWidth(s: Text): (n: nat)
    ensures |s| <= n <= 2 * |s|
  {
    if s == [] then 0 else Weight(s[0]) + HalfWidth(s[1..])
  }

  /** Visual length is additive over concatenation. */
  lemma {:induction false} HalfWidthAppend(a: Text, b: Text)
    ensures HalfWidth(a + b) == HalfWidth(a) + HalfWidth(b)
  {
    if a == [] {
      assert a + b == b;
    } else {
      assert (a + b)[1..] == a[1..] + b;
      HalfWidthAppend(a[1..], b);
    }
  }

  /** A longer prefix is visually longer, by at least one half-unit per
      extra code unit. */
  lemma HalfWidthPrefixGrows(s: Text, i: nat, j: nat)
    requires i <= j <= |s|
    ensures HalfWidth(s[..i]) + (j - i) <= HalfWidth(s[..j])
  {
    assert s[..j] == s[..i] + s[i..j];
    HalfWidthAppend(s[..i], s[i..j]);
  }

  /** `getVisualLength`: the loop of the script, accumulating the weight of
      each code unit in turn. */
  method GetVisualLength(str: Text) returns (length: nat)
    ensures length == HalfWidth(str)
  {
    length := 0;
    var i := 0;
    while i < |str|
      invariant 0 <= i <= |str|
      invariant length == HalfWidth(str[..i])
    {
      assert str[..i + 1] == str[..i] + [str[i]];
      HalfWidthAppend(str[..i], [str[i]]);
      length := length + Weight(str[i]);
      i := i + 1;
    }
    assert str[..i] == str;
  }

  /** How many leading code units survive truncation to a budget of
      `budget` half-units: units are kept from the left for as long as each
      one still fits in what is left of the budget. */
  function Cut(s: Text, budget: int): (k: nat)
    ensures k <= |s|
  {
    if s == [] || Weight(s[0]) > budget then 0
    else 1 + Cut(s[1..], budget - Weight(s[0]))
  }

  /** The whole string is kept exactly when it is empty or fits the budget. */
  lemma {:induction false} CutWhole(s: Text, budget: int)
    ensures Cut(s, budget) == |s| <==> (s == [] || HalfWidth(s) <= budget)
  {
    if s != [] && Weight(s[0]) <= budget {
      CutWhole(s[1..], budget - Weight(s[0]));
    }
  }

  /** The kept prefix fits a non-negative budget. */
  lemma {:induction false} CutFits(s: Text, budget: int)
    requires 0 <= budget
    ensures HalfWidth(s[..Cut(s, budget)]) <= budget
  {
    var k := Cut(s, budget);
    if k > 0 {
      var w := Weight(s[0]);
      assert s[..k] == [s[0]] + s[1..][..k - 1];
      HalfWidthAppend([s[0]], s[1..][..k - 1]);
      CutFits(s[1..], budget - w);
    }
  }

  /** The code unit right after the kept prefix is the one that overflows. */
  lemma {:induction false} CutMaximal(s: Text, budget: int)
    requires Cut(s, budget) < |s|
    ensures HalfWidth(s[..Cut(s, budget) + 1]) > budget
  {
    var k := Cut(s, budget);
    var w := Weight(s[0]);
    assert s[..k + 1] == [s[0]] + s[1..][..k];
    HalfWidthAppend([s[0]], s[1..][..k]);
    if w <= budget {
      CutMaximal(s[1..], budget - w);
    }
  }

  /** For a non-negative budget, the kept prefix is the longest prefix that
      fits: a prefix fits exactly when it is no longer than the kept one. */
  lemma CutIsLongestFit(s: Text, budget: int, j: nat)
    requires 0 <= budget && j <= |s|
    ensures HalfWidth(s[..j]) <= budget <==> j <= Cut(s, budget)
  {
    var k := Cut(s, budget);
    if j <= k {
      CutFits(s, budget);
      HalfWidthPrefixGrows(s, j, k);
    } else {
      CutMaximal(s, budget);
      HalfWidthPrefixGrows(s, k + 1, j);
    }
  }

  /** What `truncateByVisualLength(s, maxLength)` returns: `s` itself when
      no code unit overflows the budget, otherwise the units before the
      first one that does, followed by "...". */
  function Truncation(s: Text, maxLength: int): Text {
    var k := Cut(s, 2 * maxLength);
    if k == |s| then s else s[..k] + Ellipsis
  }

  /** `truncateByVisualLength`: the loop of the script, which accumulates the
      running visual length and returns early at the first overflow. */
  method TruncateByVisualLength(str: Text, maxLength: int) returns (r: Text)
    ensures r == Truncation(str, maxLength)
  {
    var budget := 2 * maxLength;
    var length := 0;
    var result: Text := [];
    var i := 0;
    while i < |str|
      invariant 0 <= i <= |str|
      invariant result == str[..i]
      invariant Cut(str, budget) == i + Cut(str[i..], budget - length)
    {
      var u := str[i];
      assert str[i..][0] == u;
      length := length + Weight(u);
      if length > budget {
        return result + Ellipsis;
      }
      assert str[i..][1..] == str[i + 1..];
      result := result + [u];
      i := i + 1;
    }
    assert result == str;
    r := result;
  }

  /** Identity law: a string within budget comes back unchanged, with no
      ellipsis. */
  lemma TruncationWithinBudget(s: Text, maxLength: int)
    requires HalfWidth(s) <= 2 * maxLength
    ensures Truncation(s, maxLength) == s
  {
    CutWhole(s, 2 * maxLength);
  }

  /** Over budget (with a non-negative budget), the result is the longest
      prefix `p` that fits, followed by "...": `p` fits and `p` extended by
      the next code unit does not. */
  lemma TruncationOverBudget(s: Text, maxLength: int)
    requires 0 <= maxLength && HalfWidth(s) > 2 * maxLength
    ensures var k := Cut(s, 2 * maxLength);
      && k < |s|
      && Truncation(s, maxLength) == s[..k] + Ellipsis
      && HalfWidth(s[..k]) <= 2 * maxLength
      && HalfWidth(s[..k + 1]) > 2 * maxLength
  {
    CutWhole(s, 2 * maxLength);
    CutFits(s, 2 * maxLength);
    CutMaximal(s, 2 * maxLength);
  }

  /** The kept prefix of an over-budget string ends at most one half-unit
      short of the budget, because no code unit weighs more than two. */
  lemma OverBudgetPrefixIsTight(s: Text, maxLength: int)
    requires 0 <= maxLength && HalfWidth(s) > 2 * maxLength
    ensures var k := Cut(s, 2 * maxLength);
      2 * maxLength - 1 <= HalfWidth(s[..k]) <= 2 * maxLength
  {
    var k := Cut(s, 2 * maxLength);
    TruncationOverBudget(s, maxLength);
    assert s[..k + 1] == s[..k] + [s[k]];
    HalfWidthAppend(s[..k], [s[k]]);
  }

  /** Truncating twice at the same budget is truncating once, except in one
      case: the string was over budget and its kept prefix stops exactly one
      half-unit short of the budget (a wide unit overflowed it). Then one
      of the ellipsis dots still fits and is kept before a second "...". */
  lemma TruncationTwice(s: Text, maxLength: int)
    requires 0 <= maxLength
    ensures Truncation(Truncation(s, maxLength), maxLength) == Truncation(s, maxLength)
      <==> (HalfWidth(s) <= 2 * maxLength || HalfWidth(s[..Cut(s, 2 * maxLength)]) == 2 * maxLength)
  {
    var b := 2 * maxLength;
    if HalfWidth(s) <= b {
      TruncationWithinBudget(s, maxLength);
    } else {
      var p := s[..Cut(s, b)];
      TruncationOverBudget(s, maxLength);
      OverBudgetPrefixIsTight(s, maxLength);
      CutOfTruncated(p, b);
      var t := p + Ellipsis;
      assert t[..|p|] == p;
      if HalfWidth(p) != b {
        assert |Truncation(t, maxLength)| == |p| + 4;
      }
    }
  }

  /** Truncating a truncated string again: with its kept prefix `p` within
      half a unit of the budget, the second pass keeps all of `p` when `p`
      fills the budget, and one dot more otherwise. */
  lemma CutOfTruncated(p: Text, b: int)
    requires 0 <= b && b - 1 <= HalfWidth(p) <= b
    ensures Cut(p + Ellipsis, b) == if HalfWidth(p) == b then |p| else |p| + 1
  {
    var t := p + Ellipsis;
    var k := |p|;
    assert t[..k] == p;
    assert t[..k + 1] == p + [0x2E];
    assert t[..k + 2] == p + [0x2E, 0x2E];
    HalfWidthAppend(p, [0x2E]);
    HalfWidthAppend(p, [0x2E, 0x2E]);
    CutIsLongestFit(t, b, k);
    CutIsLongestFit(t, b, k + 1);
    if HalfWidth(p) != b {
      CutIsLongestFit(t, b, k + 2);
    }
  }

  /** A concrete string that truncation does not leave fixed: "a中" at a
      budget of one unit becomes "a..." and then "a....". */
  lemma TruncationNotIdempotentExample()
    ensures var s: Text := [0x61, 0x4E2D];
      && Truncation(s, 1) == [0x61, 0x2E, 0x2E, 0x2E]
      && Truncation(Truncation(s, 1), 1) == [0x61, 0x2E, 0x2E, 0x2E, 0x2E]
  {
    var s: Text := [0x61, 0x4E2D];
    assert s[1..] == [0x4E2D];
    var t: Text := [0x61, 0x2E, 0x2E, 0x2E];
    assert t[1..] == [0x2E, 0x2E, 0x2E];
    assert t[1..][1..] == [0x2E, 0x2E];
    assert t[1..][1..][1..] == [0x2E];
  }

  /** The callers' check `getVisualLength(full) > max` before truncating
      changes nothing about the string they compute: truncation already
      returns a string within budget unchanged. */
  lemma GuardedTruncation(full: Text, maxLength: int)
    ensures (if HalfWidth(full) > 2 * maxLength then Truncation(full, maxLength) else full)
      == Truncation(full, maxLength)
  {
    if HalfWidth(full) <= 2 * maxLength {
      TruncationWithinBudget(full, maxLength);
    }
  }

  /** A `.post-title-text` or `.post-summary-text` element: the optional
      `data-full-title`/`data-full-summary` attribute, and the text it shows. */
  class TextElement {
    const fullAttribute: Option<Text>
    var textContent: Text

    constructor (fullAttribute: Option<Text>, textContent: Text)
      ensures this.fullAttribute == fullAttribute && this.textContent == textContent
    {
      this.fullAttribute := fullAttribute;
      this.textContent := textContent;
    }
  }

  /** `attribute || textContent`: a missing or empty attribute falls back to
      the element's text. */
  function FullText(attribute: Option<Text>, textContent: Text): (r: Text)
    ensures attribute.Some? && attribute.value != [] ==> r == attribute.value
    ensures !(attribute.Some? && attribute.value != []) ==> r == textContent
  {
    if attribute.Some? && attribute.value != [] then attribute.value else textContent
  }

  /** What an element shows after the pass: its full text truncated when
      that text is over budget, otherwise its text as it was (the attribute
      is not copied in). */
  function Displayed(attribute: Option<Text>, textContent: Text, maxLength: int): Text {
    var full := FullText(attribute, textContent);
    if HalfWidth(full) > 2 * maxLength then Truncation(full, maxLength) else textContent
  }

  /** An element's displayed text never exceeds the budget by more than the
      ellipsis, whatever its full text was. */
  lemma DisplayedWithinBudget(attribute: Option<Text>, textContent: Text, maxLength: int)
    requires 0 <= maxLength
    requires HalfWidth(FullText(attribute, textContent)) > 2 * maxLength
    ensures HalfWidth(Displayed(attribute, textContent, maxLength)) <= 2 * maxLength + HalfWidth(Ellipsis)
  {
    var full := FullText(attribute, textContent);
    var k := Cut(full, 2 * maxLength);
    TruncationOverBudget(full, maxLength);
    HalfWidthAppend(full[..k], Ellipsis);
  }

  /** One `forEach` pass of `initTextTruncation` over a list of elements. */
  method TruncateElements(elements: seq<TextElement>, maxLength: int)
    requires forall i, j :: 0 <= i < j < |elements| ==> elements[i] != elements[j]
    modifies set e | e in elements
    ensures forall i :: 0 <= i < |elements| ==>
      elements[i].textContent == Displayed(elements[i].fullAttribute, old(elements[i].textContent), maxLength)
  {
    for n := 0 to |elements|
      invariant forall i :: 0 <= i < n ==>
        elements[i].textContent == Displayed(elements[i].fullAttribute, old(elements[i].textContent), maxLength)
      invariant forall i :: n <= i < |elements| ==> elements[i].textContent == old(elements[i].textContent)
    {
      TruncateElement(elements[n], maxLength);
    }
  }

  /** The `forEach` callback: one element's full text is truncated when it
      is over budget. */
  method TruncateElement(element: TextElement, maxLength: int)
    modifies element
    ensures element.textContent == Displayed(element.fullAttribute, old(element.textContent), maxLength)
  {
    var full := FullText(element.fullAttribute, element.textContent);
    var length := GetVisualLength(full);
    if length > 2 * maxLength {
      element.textContent := TruncateByVisualLength(full, maxLength);
    }
  }

  /** `initTextTruncation`: titles at 26 units, then summaries at 32. */
  method InitTextTruncation(titles: seq<TextElement>, summaries: seq<TextElement>)
    requires forall i, j :: 0 <= i < j < |titles| ==> titles[i] != titles[j]
    requires forall i, j :: 0 <= i < j < |summaries| ==> summaries[i] != summaries[j]
    requires forall i, j :: 0 <= i < |titles| && 0 <= j < |summaries| ==> titles[i] != summaries[j]
    modifies set e | e in titles + summaries
    ensures forall i :: 0 <= i < |titles| ==>
      titles[i].textContent == Displayed(titles[i].fullAttribute, old(titles[i].textContent), TitleBudget)
    ensures forall i :: 0 <= i < |summaries| ==>
      summaries[i].textContent == Displayed(summaries[i].fullAttribute, old(summaries[i].textContent), SummaryBudget)
  {
    TruncateElements(titles, TitleBudget);
    TruncateElements(summaries, SummaryBudget);
  }
}
