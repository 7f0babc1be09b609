/** Diagram selection for a lesson (src/components/game/LessonDiagram.tsx):
    a template found in the content, else one found in the title, else one
    of the additional concept diagrams, else none. */
module LessonDiagram {
  import opened Common
  import opened InteractiveDiagram

  const ChartIcon := "\U{1F4CA} "

  const DefaultTitle := ChartIcon + "Concept Diagram"

  /** `getDiagramTitle(type)`: `titles[type] || "📊 Concept Diagram"`. */
  function GetDiagramTitle(key: string): (title: string)
    ensures |title| > 2 && title[..2] == ChartIcon
    ensures key !in TemplateKeys ==> title == DefaultTitle
  {
    if key == "forLoop" then ChartIcon + "For Loop Flow"
    else if key == "ifElse" then ChartIcon + "If-Else Decision Flow"
    else if key == "whileLoop" then ChartIcon + "While Loop Flow"
    else if key == "function" then ChartIcon + "Function Execution"
    else if key == "array" then ChartIcon + "Array Structure"
    else if key == "recursion" then ChartIcon + "Recursion Flow"
    else if key == "sorting" then ChartIcon + "Sorting Algorithm"
    else if key == "binarySearch" then ChartIcon + "Binary Search Flow"
    else DefaultTitle
  }

  /** The keys of `DIAGRAM_TEMPLATES`, which are also the keys of `titles`. */
  const TemplateKeys: set<string> :=
    {"forLoop", "ifElse", "whileLoop", "function", "array", "recursion", "sorting", "binarySearch"}

  lemma KeyIsTemplateKey(t: DiagramType)
    ensures Key(t) in TemplateKeys
  {
  }

  /** Every template has a title of its own, never the fallback. */
  lemma TemplateTitlesKnown(t: DiagramType)
    ensures GetDiagramTitle(Key(t)) != DefaultTitle
  {
    match t
    case ForLoop => assert GetDiagramTitle(Key(t))[2] == 'F';
    case IfElse => assert GetDiagramTitle(Key(t))[2] == 'I';
    case WhileLoop => assert GetDiagramTitle(Key(t))[2] == 'W';
    case FunctionFlow => assert GetDiagramTitle(Key(t))[2] == 'F';
    case ArrayLayout => assert GetDiagramTitle(Key(t))[2] == 'A';
    case Recursion => assert GetDiagramTitle(Key(t))[2] == 'R';
    case Sorting => assert GetDiagramTitle(Key(t))[2] == 'S';
    case BinarySearch => assert GetDiagramTitle(Key(t))[2] == 'B';
  }

  /** The concept diagrams of `detectAdditionalConcepts`, in test order. */
  datatype Concept = Stack | Queue | LinkedList | Tree | Variable | BooleanLogic | InputOutput | ErrorHandling | LoopPattern

  function ConceptRank(k: Concept): nat {
    match k
    case Stack => 0
    case Queue => 1
    case LinkedList => 2
    case Tree => 3
    case Variable => 4
    case BooleanLogic => 5
    case InputOutput => 6
    case ErrorHandling => 7
    case LoopPattern => 8
  }

  function ConceptTitle(k: Concept): (title: string)
    ensures |title| > 2 && title[..2] == ChartIcon
  {
    match k
    case Stack => ChartIcon + "Stack Operations"
    case Queue => ChartIcon + "Queue Operations"
    case LinkedList => ChartIcon + "Linked List Structure"
    case Tree => ChartIcon + "Binary Tree Structure"
    case Variable => ChartIcon + "Variable Assignment"
    case BooleanLogic => ChartIcon + "Boolean Logic"
    case InputOutput => ChartIcon + "Input/Output Flow"
    case ErrorHandling => ChartIcon + "Error Handling"
    case LoopPattern => ChartIcon + "Loop Pattern"
  }

  /** The test of one concept on lower-cased content. JavaScript's `&&`
      binds tighter than `||`, which fixes the grouping of each test. */
  predicate ConceptMatches(k: Concept, c: string) {
    match k
    case Stack => Contains(c, "stack") || (Contains(c, "push") && Contains(c, "pop"))
    case Queue => Contains(c, "queue") || (Contains(c, "enqueue") && Contains(c, "dequeue"))
    case LinkedList => Contains(c, "linked list") || (Contains(c, "node") && Contains(c, "next"))
    case Tree => Contains(c, "tree") || (Contains(c, "root") && Contains(c, "child"))
    case Variable => Contains(c, "variable") || Contains(c, "assignment") || Contains(c, "declare")
    case BooleanLogic => Contains(c, "boolean") || (Contains(c, "true") && Contains(c, "false"))
    case InputOutput => (Contains(c, "input") && Contains(c, "output")) || Contains(c, "print")
    case ErrorHandling => (Contains(c, "try") && Contains(c, "except")) || Contains(c, "error")
    case LoopPattern => Contains(c, "loop") || Contains(c, "iterate") || Contains(c, "repeat")
  }

  /** `detectAdditionalConcepts`; `None` is `null`. */
  function DetectAdditionalConcepts(content: string): (r: Option<Concept>)
    ensures r.Some? ==> ConceptMatches(r.value, Lower(content))
  {
    var c := Lower(content);
    if ConceptMatches(Stack, c) then Some(Stack)
    else if ConceptMatches(Queue, c) then Some(Queue)
    else if ConceptMatches(LinkedList, c) then Some(LinkedList)
    else if ConceptMatches(Tree, c) then Some(Tree)
    else if ConceptMatches(Variable, c) then Some(Variable)
    else if ConceptMatches(BooleanLogic, c) then Some(BooleanLogic)
    else if ConceptMatches(InputOutput, c) then Some(InputOutput)
    else if ConceptMatches(ErrorHandling, c) then Some(ErrorHandling)
    else if ConceptMatches(LoopPattern, c) then Some(LoopPattern)
    else None
  }

  /** The first concept in test order whose test holds wins, and `null`
      comes back exactly when no test holds. */
  lemma ConceptFirstMatch(s: string)
    ensures DetectAdditionalConcepts(s).Some? ==>
              forall u :: ConceptRank(u) < ConceptRank(DetectAdditionalConcepts(s).value) ==> !ConceptMatches(u, Lower(s))
    ensures DetectAdditionalConcepts(s).None? <==> forall u :: !ConceptMatches(u, Lower(s))
  {
    var c := Lower(s);
    forall u | DetectAdditionalConcepts(s).Some? && ConceptRank(u) < ConceptRank(DetectAdditionalConcepts(s).value)
      ensures !ConceptMatches(u, c)
    {
      match u
      case Stack =>
      case Queue =>
      case LinkedList =>
      case Tree =>
      case Variable =>
      case BooleanLogic =>
      case InputOutput =>
      case ErrorHandling =>
      case LoopPattern =>
    }
    var r := DetectAdditionalConcepts(s);
    if r.Some? {
      var k := r.value;
      assert ConceptMatches(k, c);
      assert !(forall u :: !ConceptMatches(u, c));
    } else {
      forall u ensures !ConceptMatches(u, c) {
        match u
        case Stack =>
        case Queue =>
        case LinkedList =>
        case Tree =>
        case Variable =>
        case BooleanLogic =>
        case InputOutput =>
        case ErrorHandling =>
        case LoopPattern =>
      }
    }
  }

  lemma ConceptCaseInsensitive(s: string)
    ensures DetectAdditionalConcepts(Lower(s)) == DetectAdditionalConcepts(s)
  {
    LowerIdempotent(s);
  }

  /** The grouping `"stack" || ("push" && "pop")`: either word of the pair
      alone is not enough, and "stack" alone is. */
  lemma StackGrouping(c: string)
    ensures Contains(c, "stack") ==> ConceptMatches(Stack, c)
    ensures !Contains(c, "stack") && !Contains(c, "pop") ==> !ConceptMatches(Stack, c)
    ensures !Contains(c, "stack") && !Contains(c, "push") ==> !ConceptMatches(Stack, c)
  {
  }

  /** The grouping `("input" && "output") || "print"`. */
  lemma InputOutputGrouping(c: string)
    ensures Contains(c, "print") ==> ConceptMatches(InputOutput, c)
    ensures !Contains(c, "print") && !Contains(c, "output") ==> !ConceptMatches(InputOutput, c)
  {
  }

  /** The grouping `("try" && "except") || "error"`. */
  lemma ErrorGrouping(c: string)
    ensures Contains(c, "error") ==> ConceptMatches(ErrorHandling, c)
    ensures !Contains(c, "error") && !Contains(c, "except") ==> !ConceptMatches(ErrorHandling, c)
  {
  }

  /** A chart is one of the templates or one of the concept charts. */
  datatype Chart = Template(t: DiagramType) | ConceptChart(k: Concept)

  datatype Diagram = Diagram(chart: Chart, title: string)

  /** The `useMemo` body of `LessonDiagram`. The title is only consulted when
      it is a non-empty string. */
  function SelectDiagram(content: string, title: Option<string>): (d: Option<Diagram>)
    ensures d.Some? && d.value.chart.Template? ==> d.value.title == GetDiagramTitle(Key(d.value.chart.t))
    ensures d.Some? && d.value.chart.ConceptChart? ==> d.value.title == ConceptTitle(d.value.chart.k)
  {
    var detected := DetectDiagramType(content);
    if detected.Some? then
      Some(Diagram(Template(detected.value), GetDiagramTitle(Key(detected.value))))
    else
      var titleType := if title.Some? && title.value != "" then DetectDiagramType(title.value) else None;
      if titleType.Some? then
        Some(Diagram(Template(titleType.value), GetDiagramTitle(Key(titleType.value))))
      else
        var extra := DetectAdditionalConcepts(content);
        if extra.Some? then Some(Diagram(ConceptChart(extra.value), ConceptTitle(extra.value)))
        else None
  }

  /** The four levels of priority, stated one by one. */
  lemma SelectionPriority(content: string, title: Option<string>)
    ensures DetectDiagramType(content).Some? ==>
              SelectDiagram(content, title).Some? && SelectDiagram(content, title).value.chart == Template(DetectDiagramType(content).value)
    ensures DetectDiagramType(content).None? && title.Some? && title.value != "" && DetectDiagramType(title.value).Some? ==>
              SelectDiagram(content, title).Some? && SelectDiagram(content, title).value.chart == Template(DetectDiagramType(title.value).value)
    ensures DetectDiagramType(content).None? && (title.None? || title.value == "" || DetectDiagramType(title.value).None?) ==>
              SelectDiagram(content, title) == (if DetectAdditionalConcepts(content).Some?
                                                then Some(Diagram(ConceptChart(DetectAdditionalConcepts(content).value),
                                                                  ConceptTitle(DetectAdditionalConcepts(content).value)))
                                                else None)
  {
  }

  /** No diagram is drawn exactly when no template test holds on the content
      or on a non-empty title, and no concept test holds on the content. */
  lemma NoDiagramIff(content: string, title: Option<string>)
    ensures SelectDiagram(content, title).None? <==>
              (forall u :: !Matches(u, Lower(content)))
              && (title.None? || title.value == "" || forall u :: !Matches(u, Lower(title.value)))
              && (forall k :: !ConceptMatches(k, Lower(content)))
  {
    DetectFirstMatch(content);
    if title.Some? && title.value != "" {
      DetectFirstMatch(title.value);
    }
    ConceptFirstMatch(content);
  }

  /** A template diagram always carries that template's own title. */
  lemma TemplateDiagramTitled(content: string, title: Option<string>)
    requires SelectDiagram(content, title).Some? && SelectDiagram(content, title).value.chart.Template?
    ensures SelectDiagram(content, title).value.title != DefaultTitle
  {
    TemplateTitlesKnown(SelectDiagram(content, title).value.chart.t);
  }
}
