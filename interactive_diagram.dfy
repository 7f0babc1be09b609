/** The flowchart widget (src/components/game/InteractiveDiagram.tsx): the
    clamped zoom and the keyword classifier that picks a built-in template. */
module InteractiveDiagram {
  import opened Common

  // ---------------------------------------------------------------------------
  // Zoom

  /** `scale` is kept as a number of quarter steps: `scale == quarters / 4`.
      It starts at 1, that is 4 quarters, and stays in [0.5, 2], that is
      [2, 8] quarters. */
  const MinQuarters := 2
  const MaxQuarters := 8
  const ResetQuarters := 4

  /** `Math.min(s + 0.25, 2)`. */
  function ZoomInStep(q: int): (r: int)
    ensures r <= MaxQuarters
    ensures MinQuarters <= q <= MaxQuarters ==> MinQuarters <= r
    ensures q < MaxQuarters ==> r == q + 1
  {
    if q + 1 <= MaxQuarters then q + 1 else MaxQuarters
  }

  /** `Math.max(s - 0.25, 0.5)`. */
  function ZoomOutStep(q: int): (r: int)
    ensures r >= MinQuarters
    ensures MinQuarters <= q <= MaxQuarters ==> r <= MaxQuarters
    ensures q > MinQuarters ==> r == q - 1
  {
    if q - 1 >= MinQuarters then q - 1 else MinQuarters
  }

  /** The zoom buttons are no-ops at their limits. */
  lemma ZoomLimits()
    ensures ZoomInStep(MaxQuarters) == MaxQuarters
    ensures ZoomOutStep(MinQuarters) == MinQuarters
  {
  }

  /** Zooming out after zooming in is the identity below the maximum, and the
      other way round above the minimum. */
  lemma ZoomInverse(q: int)
    requires MinQuarters <= q <= MaxQuarters
    ensures q < MaxQuarters ==> ZoomOutStep(ZoomInStep(q)) == q
    ensures q > MinQuarters ==> ZoomInStep(ZoomOutStep(q)) == q
  {
  }

  /** `Math.round(scale * 100)`: a quarter is exactly 25 percent. */
  function Percent(q: int): (p: int)
    ensures MinQuarters <= q <= MaxQuarters ==> 50 <= p <= 200 && p % 25 == 0
  {
    25 * q
  }

  datatype ZoomOp = ZoomIn | ZoomOut | Reset

  function Apply(op: ZoomOp, q: int): (r: int)
    ensures MinQuarters <= q <= MaxQuarters ==> MinQuarters <= r <= MaxQuarters
  {
    match op
    case ZoomIn => ZoomInStep(q)
    case ZoomOut => ZoomOutStep(q)
    case Reset => ResetQuarters
  }

  /** The scale after pressing the buttons `ops` in order, from the start. */
  function Replay(ops: seq<ZoomOp>): (q: int)
    ensures MinQuarters <= q <= MaxQuarters
    decreases |ops|
  {
    if ops == [] then ResetQuarters else Apply(ops[|ops| - 1], Replay(ops[..|ops| - 1]))
  }

  /** Any sequence of button presses keeps the scale in [0.5, 2] on the 0.25
      grid, so the label is one of 50, 75, ..., 200. */
  lemma {:induction false} ReplayInRange(ops: seq<ZoomOp>)
    ensures MinQuarters <= Replay(ops) <= MaxQuarters
    ensures var p := Percent(Replay(ops)); 50 <= p <= 200 && p % 25 == 0
    decreases |ops|
  {
    if ops != [] {
      ReplayInRange(ops[..|ops| - 1]);
    }
  }

  class Zoom {
    var quarters: int

    predicate Valid()
      reads this
    {
      MinQuarters <= quarters <= MaxQuarters
    }

    constructor()
      ensures quarters == ResetQuarters && Valid()
    {
      quarters := ResetQuarters;
    }

    /** `handleZoomIn`. */
    method HandleZoomIn()
      modifies this
      requires Valid()
      ensures Valid() && quarters == ZoomInStep(old(quarters))
    {
      quarters := if quarters + 1 <= MaxQuarters then quarters + 1 else MaxQuarters;
    }

    /** `handleZoomOut`. */
    method HandleZoomOut()
      modifies this
      requires Valid()
      ensures Valid() && quarters == ZoomOutStep(old(quarters))
    {
      quarters := if quarters - 1 >= MinQuarters then quarters - 1 else MinQuarters;
    }

    /** `handleReset`. */
    method HandleReset()
      modifies this
      ensures Valid() && quarters == ResetQuarters
    {
      quarters := ResetQuarters;
    }

    /** The label beside the buttons. */
    function Label(): (p: int)
      reads this
      requires Valid()
      ensures 50 <= p <= 200 && p % 25 == 0
    {
      Percent(quarters)
    }
  }

  // ---------------------------------------------------------------------------
  // Classifier

  /** The keys of `DIAGRAM_TEMPLATES`. */
  datatype DiagramType = ForLoop | IfElse | WhileLoop | FunctionFlow | ArrayLayout | Recursion | Sorting | BinarySearch

  /** The templates in the order `detectDiagramType` tests them. */
  const DiagramOrder: seq<DiagramType> :=
    [ForLoop, IfElse, WhileLoop, FunctionFlow, ArrayLayout, Recursion, Sorting, BinarySearch]

  function Key(t: DiagramType): string {
    match t
    case ForLoop => "forLoop"
    case IfElse => "ifElse"
    case WhileLoop => "whileLoop"
    case FunctionFlow => "function"
    case ArrayLayout => "array"
    case Recursion => "recursion"
    case Sorting => "sorting"
    case BinarySearch => "binarySearch"
  }

  /** Position of a type in the test order. */
  function Rank(t: DiagramType): (k: nat)
    ensures k < |DiagramOrder| && DiagramOrder[k] == t
  {
    match t
    case ForLoop => 0
    case IfElse => 1
    case WhileLoop => 2
    case FunctionFlow => 3
    case ArrayLayout => 4
    case Recursion => 5
    case Sorting => 6
    case BinarySearch => 7
  }

  /** The test for one type, applied to lower-cased content. */
  predicate Matches(t: DiagramType, c: string) {
    match t
    case ForLoop => Contains(c, "for loop") || Contains(c, "for-loop")
    case IfElse => Contains(c, "if") && Contains(c, "else")
    case WhileLoop => Contains(c, "while loop") || Contains(c, "while-loop")
    case FunctionFlow => Contains(c, "function") || Contains(c, "def ")
    case ArrayLayout => Contains(c, "array") || Contains(c, "list")
    case Recursion => Contains(c, "recursion") || Contains(c, "recursive")
    case Sorting => Contains(c, "sort") || Contains(c, "sorting")
    case BinarySearch => Contains(c, "binary search")
  }

  /** `detectDiagramType`; `None` is `null`. */
  function DetectDiagramType(lessonContent: string): (r: Option<DiagramType>)
    ensures r.Some? ==> Matches(r.value, Lower(lessonContent))
  {
    var c := Lower(lessonContent);
    if Matches(ForLoop, c) then Some(ForLoop)
    else if Matches(IfElse, c) then Some(IfElse)
    else if Matches(WhileLoop, c) then Some(WhileLoop)
    else if Matches(FunctionFlow, c) then Some(FunctionFlow)
    else if Matches(ArrayLayout, c) then Some(ArrayLayout)
    else if Matches(Recursion, c) then Some(Recursion)
    else if Matches(Sorting, c) then Some(Sorting)
    else if Matches(BinarySearch, c) then Some(BinarySearch)
    else None
  }

  /** The result is the first type in test order whose test holds, and
      `null` exactly when no test holds. */
  lemma DetectFirstMatch(s: string)
    ensures DetectDiagramType(s).Some? ==>
              forall u :: Rank(u) < Rank(DetectDiagramType(s).value) ==> !Matches(u, Lower(s))
    ensures DetectDiagramType(s).None? <==> forall u :: !Matches(u, Lower(s))
  {
    var c := Lower(s);
    forall u | DetectDiagramType(s).Some? && Rank(u) < Rank(DetectDiagramType(s).value)
      ensures !Matches(u, c)
    {
      match u
      case ForLoop =>
      case IfElse =>
      case WhileLoop =>
      case FunctionFlow =>
      case ArrayLayout =>
      case Recursion =>
      case Sorting =>
      case BinarySearch =>
    }
    if DetectDiagramType(s).None? {
      forall u ensures !Matches(u, c) {
        match u
        case ForLoop =>
        case IfElse =>
        case WhileLoop =>
        case FunctionFlow =>
        case ArrayLayout =>
        case Recursion =>
        case Sorting =>
        case BinarySearch =>
      }
    }
  }

  /** Detection reads the lower-cased text, so the case of the input does not
      matter. */
  lemma DetectCaseInsensitive(s: string)
    ensures DetectDiagramType(Lower(s)) == DetectDiagramType(s)
  {
    LowerIdempotent(s);
  }

  /** Every detected type names one of the templates, by a distinct key. */
  lemma KeysDistinct(t: DiagramType, u: DiagramType)
    ensures Key(t) == Key(u) <==> t == u
  {
  }

  /** A lesson that mentions a function is drawn as a function whatever
      else it mentions, unless a for loop, an if with an else or a while
      loop comes first in test order. */
  lemma FunctionBeatsArray(s: string)
    requires Matches(FunctionFlow, Lower(s))
    requires !Matches(ForLoop, Lower(s)) && !Matches(IfElse, Lower(s)) && !Matches(WhileLoop, Lower(s))
    ensures DetectDiagramType(s) == Some(FunctionFlow)
  {
  }

  /** `ifElse` needs both words: an `if` alone never selects it. */
  lemma IfAloneIsNotIfElse(s: string)
    requires !Contains(Lower(s), "else")
    ensures DetectDiagramType(s) != Some(IfElse)
  {
  }

  /** The second test of the `sorting` rule is subsumed by the first. */
  lemma SortingSubsumed(c: string)
    ensures Contains(c, "sorting") ==> Contains(c, "sort")
  {
    if Contains(c, "sorting") {
      ContainsAt(c, "sorting");
      var i :| 0 <= i <= |c| && StartsWith(c[i..], "sorting");
      assert StartsWith(c[i..], "sort");
      ContainsAt(c, "sort");
    }
  }
}
