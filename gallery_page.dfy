/** The gallery page: case-insensitive search and exact type filter over the sample records, the
    de-duplicated list of types for the filter menu, and the detail modal of a selected record. */
module GalleryPage {
  import opened Wrappers
  import Text
  import Seqs

  /** One sample record; `kind` is the record's `type`. */
  datatype Whisky = Whisky(
    id: int, name: string, kind: string, region: string, abv: real, price: real, imageUrl: string)

  /** The term occurs, ignoring case, in the record's name or in its type. */
  predicate MatchesSearch(w: Whisky, term: string)
  {
    Text.Contains(Text.Lower(w.name), Text.Lower(term)) || Text.Contains(Text.Lower(w.kind), Text.Lower(term))
  }

  /** An empty filter (falsy in JavaScript) matches every type; otherwise the type must be equal. */
  predicate MatchesType(w: Whisky, filterType: string)
  {
    if filterType != "" then w.kind == filterType else true
  }

  predicate Keep(w: Whisky, term: string, filterType: string)
  {
    MatchesSearch(w, term) && MatchesType(w, filterType)
  }

  /** `filteredWhiskies`. */
  function Filtered(ws: seq<Whisky>, term: string, filterType: string): (r: seq<Whisky>)
    ensures |r| <= |ws|
    ensures forall w :: w in r ==> w in ws && Keep(w, term, filterType)
  {
    Seqs.Filter(w => Keep(w, term, filterType), ws)
  }

  /** A record is shown exactly as often as it occurs when it passes both tests, and not at all
      otherwise; the shown records keep the order of the samples. */
  lemma FilteredIsOrderedSelection(ws: seq<Whisky>, term: string, filterType: string)
    ensures forall w ::
      multiset(Filtered(ws, term, filterType))[w] == (if Keep(w, term, filterType) then multiset(ws)[w] else 0)
    ensures forall w :: w in Filtered(ws, term, filterType) <==> w in ws && Keep(w, term, filterType)
    ensures Seqs.IsSubsequence(Filtered(ws, term, filterType), ws)
  {
    var p := w => Keep(w, term, filterType);
    forall w
      ensures multiset(Filtered(ws, term, filterType))[w] == (if Keep(w, term, filterType) then multiset(ws)[w] else 0)
    {
      Seqs.FilterCount(p, ws, w);
    }
    Seqs.FilterIsSubsequence(p, ws);
  }

  /** With a type selected, every shown record has exactly that type. */
  lemma FilteredHasSelectedType(ws: seq<Whisky>, term: string, filterType: string)
    requires filterType != ""
    ensures forall w :: w in Filtered(ws, term, filterType) ==> w.kind == filterType
  {
  }

  /** With no term and no type, every record is shown, in the original order. */
  lemma NoCriteriaShowsAll(ws: seq<Whisky>)
    ensures Filtered(ws, "", "") == ws
  {
    forall w | w in ws ensures Keep(w, "", "") {
      Text.ContainsEmpty(Text.Lower(w.name));
    }
    Seqs.FilterKeepsAll(w => Keep(w, "", ""), ws);
  }

  /** The search ignores the case of the term. */
  lemma SearchIgnoresTermCase(w: Whisky, term: string)
    ensures MatchesSearch(w, term) <==> MatchesSearch(w, Text.Lower(term))
  {
    Text.LowerIdempotent(term);
  }

  /** Searching for a record's own name, in any case, finds it. */
  lemma OwnNameIsFound(w: Whisky, term: string)
    requires Text.Lower(term) == Text.Lower(w.name)
    ensures MatchesSearch(w, term)
  {
    Text.ContainsSelf(Text.Lower(w.name));
  }

  function Kinds(ws: seq<Whisky>): (ks: seq<string>)
    ensures |ks| == |ws| && forall i :: 0 <= i < |ws| ==> ks[i] == ws[i].kind
  {
    seq(|ws|, i requires 0 <= i < |ws| => ws[i].kind)
  }

  /** `whiskyTypes`: `Array.from(new Set(types))`. */
  function WhiskyTypes(ws: seq<Whisky>): (r: seq<string>)
    ensures forall t :: t in r ==> exists i :: 0 <= i < |ws| && ws[i].kind == t
  {
    var ks := Kinds(ws);
    assert forall t :: t in ks ==> exists i :: 0 <= i < |ws| && ws[i].kind == t by {
      forall t | t in ks ensures exists i :: 0 <= i < |ws| && ws[i].kind == t {
        var i :| 0 <= i < |ks| && ks[i] == t;
      }
    }
    Seqs.Dedup(ks)
  }

  /** The filter menu lists each type occurring in the samples exactly once, in order of first occurrence. */
  lemma WhiskyTypesAreDistinctInFirstOccurrenceOrder(ws: seq<Whisky>)
    ensures forall t :: t in WhiskyTypes(ws) <==> exists w :: w in ws && w.kind == t
    ensures Seqs.NoDuplicates(WhiskyTypes(ws))
    ensures forall i, j :: 0 <= i < j < |WhiskyTypes(ws)| ==>
      Seqs.FirstIndex(Kinds(ws), WhiskyTypes(ws)[i]) < Seqs.FirstIndex(Kinds(ws), WhiskyTypes(ws)[j])
  {
    var ks := Kinds(ws);
    Seqs.DedupElements(ks);
    Seqs.DedupFirstOccurrenceOrder(ks);
    forall t ensures t in WhiskyTypes(ws) <==> exists w :: w in ws && w.kind == t {
      if t in ks {
        var i :| 0 <= i < |ks| && ks[i] == t;
        assert ws[i] in ws;
      }
    }
  }

  /** "Similar Whiskies" in the modal: the first three samples (fewer if there are fewer). */
  function SimilarWhiskies(ws: seq<Whisky>): (r: seq<Whisky>)
    ensures |r| == Min(3, |ws|) && r <= ws
  {
    Seqs.Take(ws, 3)
  }

  class Gallery {
    const whiskies: seq<Whisky>
    var searchTerm: string
    var filterType: string
    var selected: Option<Whisky>

    constructor (samples: seq<Whisky>)
      ensures whiskies == samples && searchTerm == "" && filterType == "" && selected == None
    {
      whiskies := samples;
      searchTerm := "";
      filterType := "";
      selected := None;
    }

    function Visible(): seq<Whisky>
      reads this
    {
      Filtered(whiskies, searchTerm, filterType)
    }

    /** The clear button is rendered only while the term is non-empty. */
    predicate ClearOffered()
      reads this
    {
      searchTerm != ""
    }

    /** The detail modal is rendered exactly while a record is selected. */
    predicate ModalShown()
      reads this
    {
      selected.Some?
    }

    /** The strip in the modal does not depend on which record is selected. */
    function SimilarStrip(): (r: seq<Whisky>)
      reads this
      requires ModalShown()
      ensures r == SimilarWhiskies(whiskies)
    {
      Seqs.Take(whiskies, 3)
    }

    method TypeSearch(text: string)
      modifies this`searchTerm
      ensures searchTerm == text
    {
      searchTerm := text;
    }

    /** The clear button: only rendered while the term is non-empty; it empties the term. */
    method ClearSearch()
      requires ClearOffered()
      modifies this`searchTerm
      ensures searchTerm == "" && !ClearOffered()
    {
      searchTerm := "";
    }

    method ChooseType(t: string)
      modifies this`filterType
      ensures filterType == t
    {
      filterType := t;
    }

    /** Clicking a card selects the record the card shows. */
    method OpenCard(w: Whisky)
      requires w in Visible()
      modifies this`selected
      ensures selected == Some(w) && ModalShown()
    {
      selected := Some(w);
    }

    /** Close deselects and hides the modal. */
    method CloseModal()
      modifies this`selected
      ensures selected == None && !ModalShown()
    {
      selected := None;
    }
  }
}
