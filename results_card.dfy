/** The view-model of the classification result card: the confidence percentage cell set by an
    effect, the confidence colour and bar width, the ABV text and the "similar whiskies" strip. */
module ResultsCard {
  import opened Wrappers
  import opened Json
  import Text

  /** JavaScript `Math.round`: the nearest integer, halves rounded up. */
  function Round(x: real): (r: int)
    ensures x - 0.5 < r as real <= x + 0.5
  {
    (x + 0.5).Floor
  }

  /** The number JavaScript compares in `score >= 0 && score <= 1`; None stands for NaN (an absent field). */
  function ScoreNumber(score: Read): (r: Option<real>)
    ensures r.None? <==> !(score.Got? && (score.v.Num? || score.v.Null? || score.v.Bool?))
    ensures score.Got? && score.v.Num? ==> r == Some(score.v.n)
    ensures score.Got? && score.v.Null? ==> r == Some(0.0)
    ensures score.Got? && score.v.Bool? ==> r == Some(if score.v.b then 1.0 else 0.0)
  {
    match score
    case Got(Num(n)) => Some(n)
    case Got(Null) => Some(0.0)
    case Got(Bool(b)) => Some(if b then 1.0 else 0.0)
    case _ => None
  }

  /** The value the effect stores for a score: the rounded percentage when the score lies in [0, 1],
      nothing otherwise. */
  function Percentage(score: Option<real>): (p: Option<int>)
    ensures p.Some? <==> score.Some? && 0.0 <= score.value <= 1.0
    ensures p.Some? ==> 0 <= p.value <= 100
    ensures p.Some? ==> score.value * 100.0 - 0.5 < p.value as real <= score.value * 100.0 + 0.5
  {
    if score.Some? && score.value >= 0.0 && score.value <= 1.0 then Some(Round(score.value * 100.0)) else None
  }

  /** The mounted card with its `percentage` state cell. */
  class Card {
    var percentage: Option<int>

    ghost predicate Valid()
      reads this
    {
      percentage.Some? ==> 0 <= percentage.value <= 100
    }

    /** A freshly mounted card holds no percentage yet and shows "Loading...". */
    constructor ()
      ensures Valid() && percentage == None
    {
      percentage := None;
    }

    /** The effect that runs whenever `score` changes: an out-of-range score leaves the previous value. */
    method ScoreEffect(score: Option<real>)
      requires Valid()
      modifies this
      ensures Valid()
      ensures percentage == if Percentage(score).Some? then Percentage(score) else old(percentage)
    {
      if score.Some? && score.value >= 0.0 && score.value <= 1.0 {
        percentage := Some(Round(score.value * 100.0));
      }
    }

    function Label(): string
      reads this
    {
      ConfidenceLabel(percentage)
    }
  }

  /** The text next to "Confidence": `${percentage}%` once set, "Loading..." before. */
  function ConfidenceLabel(p: Option<int>): (s: string)
    ensures |s| >= 2
    ensures s[|s| - 1] == '%' <==> p.Some?
  {
    match p
    case None => "Loading..."
    case Some(v) => Text.IntString(v) + "%"
  }

  /** A set percentage is shown as its decimal digits followed by '%': reading the digits back gives it. */
  lemma ConfidenceLabelShowsPercentage(p: int)
    requires p >= 0
    ensures var s := ConfidenceLabel(Some(p));
      Text.IsDigits(s[..|s| - 1]) && Text.DigitsValue(s[..|s| - 1]) == p
  {
    var s := ConfidenceLabel(Some(p));
    assert s[..|s| - 1] == Text.NatString(p);
    Text.NatStringRoundTrip(p);
  }

  datatype Colour = Green | Amber | Red
  {
    /** The Tailwind class the bar uses: a shade-500 background. */
    function ClassName(): (r: string)
      ensures Text.StartsWith(r, "bg-") && |r| > 7 && r[|r| - 4..] == "-500"
    {
      match this
      case Green => "bg-green-500"
      case Amber => "bg-amber-500"
      case Red => "bg-red-500"
    }

    function Rank(): nat
    {
      match this
      case Red => 0
      case Amber => 1
      case Green => 2
    }
  }

  /** The bar colour. A null percentage compares as 0 in JavaScript, so it gives red. */
  function ConfidenceColour(p: Option<int>): (c: Colour)
    ensures c.Green? <==> p.Some? && p.value >= 90
    ensures c.Amber? <==> p.Some? && 70 <= p.value < 90
    ensures c.Red? <==> p.None? || p.value < 70
  {
    var v := if p.Some? then p.value else 0;
    if v >= 90 then Green else if v >= 70 then Amber else Red
  }

  /** A higher percentage never gets a lower colour band. */
  lemma ColourMonotone(p: int, q: int)
    requires p <= q
    ensures ConfidenceColour(Some(p)).Rank() <= ConfidenceColour(Some(q)).Rank()
  {
  }

  /** The three colour bands use three different classes. */
  lemma ClassNamesDistinct(c: Colour, d: Colour)
    ensures c.ClassName() == d.ClassName() ==> c == d
  {
    if c != d {
      assert c.ClassName()[3] != d.ClassName()[3];
    }
  }

  /** The bar width `${percentage || 0}%`: the percentage, or 0 when there is none. */
  function BarWidth(p: Option<int>): (w: int)
    ensures w == if p.Some? then p.value else 0
  {
    if p.None? || p.value == 0 then 0 else p.value
  }

  /** What React renders for an expression child. `NotRenderable` stands for any value that is not
      a plain text run in this model: an object, for which React throws, and an array, which React
      renders element by element. Neither service sends an array or an object as a card field. */
  datatype Child = TextNode(s: string) | Numeral(x: real) | Nothing | NotRenderable

  function ChildOf(r: Read): Child
  {
    match r
    case Got(Str(s)) => TextNode(s)
    case Got(Num(n)) => Numeral(n)
    case Got(Arr(_)) => NotRenderable
    case Got(Obj(_)) => NotRenderable
    case _ => Nothing
  }

  /** The text of a run of children made of text and empty nodes only. */
  function Rendered(children: seq<Child>): (r: Option<string>)
  {
    if children == [] then Some("")
    else match (children[0], Rendered(children[1..]))
      case (TextNode(s), Some(rest)) => Some(s + rest)
      case (Nothing, Some(rest)) => Some(rest)
      case _ => None
  }

  /** The ABV line `{abv}%`: the field followed by a literal '%'. */
  function AbvChildren(abv: Read): (cs: seq<Child>)
    ensures |cs| == 2 && cs[0] == ChildOf(abv) && cs[1] == TextNode("%")
  {
    [ChildOf(abv), TextNode("%")]
  }

  /** A string ABV is shown verbatim with a '%' appended; a missing one as a bare '%'. */
  lemma AbvText(abv: Read)
    ensures abv.Got? && abv.v.Str? ==> Rendered(AbvChildren(abv)) == Some(abv.v.s + "%")
    ensures abv.Undefined? ==> Rendered(AbvChildren(abv)) == Some("%")
  {
    var cs := AbvChildren(abv);
    assert Rendered(cs[1..]) == Some("%") by {
      assert cs[1..][1..] == [];
      assert Rendered([]) == Some("");
      assert "%" + "" == "%";
    }
  }

  /** The "similar whiskies" strip. */
  datatype Strip = Hidden | Names(first: Read, second: Read) | StripThrew

  /** Shown only when the card's `results` is a non-empty array; then `results[1].whiskyName` and
      `results[2].whiskyName` are read without a bounds check. */
  function SimilarStrip(results: Value): (s: Strip)
    ensures s.Hidden? <==> !(results.Arr? && |results.items| > 0)
    ensures s.Names? <==>
      results.Arr? && |results.items| >= 3 && results.items[1] != Null && results.items[2] != Null
    ensures s.Names? ==>
      s.first == Member(results.items[1], "whiskyName") && s.second == Member(results.items[2], "whiskyName")
  {
    if results.Arr? && |results.items| > 0 then
      var a := ReadMember(Index(results, 1), "whiskyName");
      var b := ReadMember(Index(results, 2), "whiskyName");
      if a.Thrown? || b.Thrown? then StripThrew else Names(a, b)
    else Hidden
  }

  /** An array of one or two results makes the strip throw: index 1 or 2 is `undefined`. */
  lemma ShortArrayThrows(results: Value)
    requires results.Arr? && 0 < |results.items| < 3
    ensures SimilarStrip(results) == StripThrew
  {
  }

  /** Everything the card shows that depends on its `results` prop. */
  datatype CardView = CardView(
    whiskyName: Read, spiritType: Read, score: Read, abv: seq<Child>, similar: Strip)

  /** Rendering the card; destructuring a `null` or `undefined` prop throws (None). */
  function Render(props: Read): (v: Option<CardView>)
    ensures v.None? <==> !props.Got? || props.v.Null?
    ensures v.Some? ==> v.value.similar == SimilarStrip(props.v)
    ensures v.Some? && props.v.Obj? ==> v.value.similar == Hidden
  {
    if props.Got? && !props.v.Null? then
      var r := props.v;
      Some(CardView(Member(r, "whiskyName"), Member(r, "spiritType"), Member(r, "score"),
                    AbvChildren(Member(r, "abv")), SimilarStrip(r)))
    else None
  }
}
