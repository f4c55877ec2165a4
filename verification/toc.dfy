/** The table of contents of an article page.

    `initTOC` collects the `h2` and `h3` headings of the post, gives every
    heading without an id the id `heading-<index>`, emits one list entry per
    heading (an `h3` entry carries the class `toc-h3`) and, on every scroll,
    highlights the entry of the last heading whose top, less 100 pixels, the
    reader has scrolled past. Headings are objects: the script writes their
    `id` in place; their tag, text and layout position are read only. */
module TableOfContents {
  import opened JsString

  datatype Tag = H2 | H3

  /** A heading counts as reached 100 pixels before its top. */
  const ActivationOffset := 100

  /** "heading-" */
  const HeadingIdPrefix: Text := [0x68, 0x65, 0x61, 0x64, 0x69, 0x6E, 0x67, 0x2D]
  /** "#" */
  const Hash: Text := [0x23]
  /** "toc-h3" */
  const TocH3Class: Text := [0x74, 0x6F, 0x63, 0x2D, 0x68, 0x33]

  class Heading {
    const tag: Tag
    const text: Text
    const offsetTop: int
    var id: Text

    constructor (tag: Tag, text: Text, offsetTop: int, id: Text)
      ensures this.tag == tag && this.text == text && this.offsetTop == offsetTop && this.id == id
    {
      this.tag := tag;
      this.text := text;
      this.offsetTop := offsetTop;
      this.id := id;
    }
  }

  /** One `<li>` of the list: the link's extra class, its `href` and its text. */
  datatype TocEntry = TocEntry(levelClass: Text, href: Text, text: Text)

  /** What `initTOC` leaves on the page: the card hidden when the post has
      no headings, otherwise the list of entries. */
  datatype TocView = CardHidden | Listed(entries: seq<TocEntry>)

  /** The id given to the heading at `index` when it has none. */
  function GeneratedId(index: nat): (id: Text)
    ensures |HeadingIdPrefix| < |id| && id[..|HeadingIdPrefix|] == HeadingIdPrefix
  {
    HeadingIdPrefix + Decimal(index)
  }

  /** Generated ids are pairwise distinct. */
  lemma GeneratedIdsDistinct(i: nat, j: nat)
    requires i != j
    ensures GeneratedId(i) != GeneratedId(j)
  {
    if GeneratedId(i) == GeneratedId(j) {
      assert Decimal(i) == GeneratedId(i)[|HeadingIdPrefix|..];
      assert Decimal(j) == GeneratedId(j)[|HeadingIdPrefix|..];
      DecimalInjective(i, j);
    }
  }

  /** The id a heading ends up with: an empty id is falsy and is replaced,
      any other is kept. */
  function AssignedId(id: Text, index: nat): (r: Text)
    ensures r != []
    ensures id != [] ==> r == id
    ensures id == [] ==> r == GeneratedId(index)
  {
    if id == [] then GeneratedId(index) else id
  }

  /** Whether an id has the shape of a generated one. */
  ghost predicate LooksGenerated(id: Text) {
    exists n: nat :: id == GeneratedId(n)
  }

  /** If the ids already present are distinct and none of them has the
      shape `heading-<n>`, every heading ends up with an id of its own. */
  lemma AssignedIdsDistinct(ids: seq<Text>)
    requires forall i, j :: 0 <= i < j < |ids| && ids[i] != [] ==> ids[i] != ids[j]
    requires forall i :: 0 <= i < |ids| ==> !LooksGenerated(ids[i])
    ensures forall i, j :: 0 <= i < j < |ids| ==> AssignedId(ids[i], i) != AssignedId(ids[j], j)
  {
    forall i, j | 0 <= i < j < |ids|
      ensures AssignedId(ids[i], i) != AssignedId(ids[j], j)
    {
      if ids[i] == [] && ids[j] == [] {
        GeneratedIdsDistinct(i, j);
      } else if ids[i] == [] {
        assert !LooksGenerated(ids[j]);
      } else if ids[j] == [] {
        assert !LooksGenerated(ids[i]);
      }
    }
  }

  /** The entry emitted for a heading. */
  function EntryFor(tag: Tag, id: Text, text: Text): (e: TocEntry)
    ensures e.levelClass == TocH3Class <==> tag == H3
    ensures |e.href| == |id| + 1 && e.href[0] == 0x23 && e.href[1..] == id && e.text == text
  {
    TocEntry(if tag == H3 then TocH3Class else [], Hash + id, text)
  }

  /** The id-assignment and list-building part of `initTOC`. */
  method BuildToc(headings: seq<Heading>) returns (view: TocView)
    requires forall i, j :: 0 <= i < j < |headings| ==> headings[i] != headings[j]
    modifies set h | h in headings
    ensures view == CardHidden <==> headings == []
    ensures forall i :: 0 <= i < |headings| ==> headings[i].id == AssignedId(old(headings[i].id), i)
    ensures view.Listed? ==> |view.entries| == |headings|
    ensures view.Listed? ==> forall i :: 0 <= i < |headings| ==>
      view.entries[i] == EntryFor(headings[i].tag, headings[i].id, headings[i].text)
  {
    if |headings| == 0 {
      return CardHidden;
    }
    var entries: seq<TocEntry> := [];
    for n := 0 to |headings|
      invariant |entries| == n
      invariant forall i :: 0 <= i < n ==> headings[i].id == AssignedId(old(headings[i].id), i)
      invariant forall i :: n <= i < |headings| ==> headings[i].id == old(headings[i].id)
      invariant forall i :: 0 <= i < n ==> entries[i] == EntryFor(headings[i].tag, headings[i].id, headings[i].text)
    {
      var heading := headings[n];
      if heading.id == [] {
        heading.id := HeadingIdPrefix + Decimal(n);
      }
      var levelClass := if heading.tag == H3 then TocH3Class else [];
      entries := entries + [TocEntry(levelClass, Hash + heading.id, heading.text)];
    }
    view := Listed(entries);
  }

  /** The layout positions of the headings, in document order. */
  function Tops(headings: seq<Heading>): seq<int>
  {
    seq(|headings|, i requires 0 <= i < |headings| => headings[i].offsetTop)
  }

  /** `scrollY >= heading.offsetTop - 100`. */
  predicate Reached(offsetTop: int, scrollY: int) {
    scrollY >= offsetTop - ActivationOffset
  }

  /** The index of the last heading reached at `scrollY`, or -1 if none is. */
  function LastReached(tops: seq<int>, scrollY: int): (k: int)
    ensures -1 <= k < |tops|
    ensures k >= 0 ==> Reached(tops[k], scrollY)
    ensures forall j :: k < j < |tops| ==> !Reached(tops[j], scrollY)
  {
    if tops == [] then -1
    else if Reached(tops[|tops| - 1], scrollY) then |tops| - 1
    else LastReached(tops[..|tops| - 1], scrollY)
  }

  /** The `current` of `updateActiveTOC`: the id of the last heading reached,
      or the empty string when none is. */
  method ActiveId(headings: seq<Heading>, scrollY: int) returns (current: Text)
    ensures var k := LastReached(Tops(headings), scrollY);
      current == if k < 0 then [] else headings[k].id
  {
    ghost var tops := Tops(headings);
    current := [];
    for n := 0 to |headings|
      invariant var k := LastReached(tops[..n], scrollY);
        current == if k < 0 then [] else headings[k].id
    {
      assert tops[..n + 1][..n] == tops[..n];
      var headingTop := headings[n].offsetTop - ActivationOffset;
      if scrollY >= headingTop {
        current := headings[n].id;
      }
    }
    assert tops[..|headings|] == tops;
  }

  /** Which links `updateActiveTOC` marks active: those whose `href` is
      `#` followed by the current id. */
  function ActiveFlags(entries: seq<TocEntry>, current: Text): seq<bool>
  {
    seq(|entries|, i requires 0 <= i < |entries| => entries[i].href == Hash + current)
  }

  /** When the headings' ids are non-empty and distinct (as after
      `BuildToc` under `AssignedIdsDistinct`), exactly one link is active,
      that of the last heading reached, or none when no heading is reached. */
  lemma HighlightIsLastReached(entries: seq<TocEntry>, ids: seq<Text>, tops: seq<int>, scrollY: int)
    requires |entries| == |ids| == |tops|
    requires forall i :: 0 <= i < |ids| ==> ids[i] != [] && entries[i].href == Hash + ids[i]
    requires forall i, j :: 0 <= i < j < |ids| ==> ids[i] != ids[j]
    ensures var k := LastReached(tops, scrollY);
      var flags := ActiveFlags(entries, if k < 0 then [] else ids[k]);
      forall i :: 0 <= i < |entries| ==> (flags[i] <==> i == k)
  {
    var k := LastReached(tops, scrollY);
    var current := if k < 0 then [] else ids[k];
    forall i | 0 <= i < |entries|
      ensures entries[i].href == Hash + current <==> i == k
    {
      if entries[i].href == Hash + current {
        assert (Hash + ids[i])[1..] == ids[i];
        assert (Hash + current)[1..] == current;
      }
    }
  }
}
