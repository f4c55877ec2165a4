/** The search box of the search dialog.

    The index is built by a fuzzy-matching library once `search.json` has
    been fetched; here it is an opaque ranking function (`Oracle`) that is
    either absent (not loaded yet, or failed to load) or present. What the
    script itself decides is modelled: the trimmed query, the empty-query
    and not-loaded gate, the cap of six results in the oracle's order, the
    single "nothing found" placeholder, and clearing on close. */
module Search {
  import opened JsString
  import opened Wrappers
  import opened Numbers

  /** One record of `search.json`; `excerpt` may be missing. */
  datatype SearchRecord = SearchRecord(title: Text, content: Text, excerpt: Option<Text>, url: Text)

  /** `fuse.search(query)`: the matching records, best first. */
  type Oracle = Text -> seq<SearchRecord>

  /** At most this many results are shown. */
  const MaxResults := 6

  /** One rendered result: the link target, the title and the excerpt line. */
  datatype Hit = Hit(url: Text, title: Text, excerpt: Text)

  /** The contents of `#searchResults`: empty, the single "nothing found"
      placeholder (未找到相关内容), or a list of results. */
  datatype ResultsView = Blank | NoMatches | Hits(hits: seq<Hit>)

  /** `result.item.excerpt || ''` and the fields shown. */
  function ToHit(r: SearchRecord): Hit {
    Hit(r.url, r.title, r.excerpt.GetOr([]))
  }

  /** `results.map(...)`: one hit per record, in the same order. */
  function ToHits(records: seq<SearchRecord>): (hits: seq<Hit>)
    ensures |hits| == |records|
    ensures forall i :: 0 <= i < |records| ==>
      && hits[i].url == records[i].url
      && hits[i].title == records[i].title
      && hits[i].excerpt == (if records[i].excerpt.Some? then records[i].excerpt.value else [])
  {
    seq(|records|, i requires 0 <= i < |records| => ToHit(records[i]))
  }

  /** The `input` handler: what `#searchResults` shows for the box's
      current value `value` with the index in the given state. */
  function Results(value: Text, index: Option<Oracle>): (v: ResultsView)
    ensures v == Blank <==> (Trim(value) == [] || index.None?)
    ensures v == NoMatches <==> (Trim(value) != [] && index.Some? && index.value(Trim(value)) == [])
    ensures v.Hits? ==>
      var found := index.value(Trim(value));
      && 1 <= |v.hits| == Min(MaxResults, |found|)
      && forall i :: 0 <= i < |v.hits| ==> v.hits[i] == ToHit(found[i])
  {
    var query := Trim(value);
    if query == [] || index.None? then Blank
    else
      var found := index.value(query);
      var shown := found[..Min(MaxResults, |found|)];
      if |shown| > 0 then Hits(ToHits(shown))
      else NoMatches
  }

  /** White space typed around a query changes nothing. */
  lemma PaddedQuery(before: Text, value: Text, after: Text, index: Option<Oracle>)
    requires AllWhiteSpace(before) && AllWhiteSpace(after)
    ensures Results(before + value + after, index) == Results(value, index)
  {
    TrimPadded(before, value, after);
  }

  /** With the index loaded, a query that matches `n` records shows
      `min(6, n)` of them, or the placeholder when `n` is zero: ten matches
      show six. */
  lemma ShownCount(value: Text, oracle: Oracle)
    requires Trim(value) != []
    ensures var v := Results(value, Some(oracle));
      var n := |oracle(Trim(value))|;
      && (n == 0 <==> v == NoMatches)
      && (n > 0 ==> v.Hits? && |v.hits| == Min(MaxResults, n) <= MaxResults)
  {
  }

  /** The state the script keeps for the dialog: the input's value, the
      results element, and the index (`fuse`, null until loaded). */
  class SearchPanel {
    var value: Text
    var results: ResultsView
    var index: Option<Oracle>

    constructor ()
      ensures value == [] && results == Blank && index == None
    {
      value := [];
      results := Blank;
      index := None;
    }

    /** The fetch of `search.json` succeeded and the index was built. */
    method IndexLoaded(oracle: Oracle)
      modifies this
      ensures index == Some(oracle) && value == old(value) && results == old(results)
    {
      index := Some(oracle);
    }

    /** The `input` event: the box now holds `newValue`, and the results
        element is rewritten with what `Results` shows for it. */
    method OnInput(newValue: Text)
      modifies this
      ensures value == newValue && index == old(index)
      ensures results == Results(newValue, index)
    {
      value := newValue;
      results := Results(value, index);
    }

    /** The `hidden.bs.modal` event: input and results are emptied, which is
        also what any later `input` event on the empty box would show. */
    method OnHidden()
      modifies this
      ensures value == [] && results == Blank && index == old(index)
      ensures results == Results(value, index)
    {
      value := [];
      results := Blank;
    }
  }
}
